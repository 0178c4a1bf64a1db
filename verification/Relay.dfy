/** Rule.pipe and the end of Rule.handle in internal/proxy/rule.go as a machine: each read and
    each write call of the two directions of a connection is one step, and anything else may
    happen to the recorder between two steps. */
module Relay {
  import opened Streams
  import opened Capture
  import opened Store
  import StoreRuns

  datatype ReadError = NoError | EndOfFile | OtherError

  datatype ReadResult = ReadResult(data: seq<byte>, error: ReadError)

  /** An answer of the destination; it never accepts more than it is offered. */
  datatype WriteResult = WriteResult(accepted: nat, failed: bool)

  /** Why pipe returns; StillOpen as long as it does not. */
  datatype End = Drained | ReadFailed | WriteFailed | StillOpen

  /** One direction: everything read so far, the part of the latest read that is still to be
      written and the error that came with that read, what the destination has accepted, and
      what has been counted. */
  datatype Copy = Copy(
    read: seq<byte>, pending: seq<byte>, error: ReadError, received: seq<byte>, total: nat, end: End)

  const NOTHING_COPIED := Copy([], [], NoError, [], 0, StillOpen)

  datatype Event = ReadReturns(result: ReadResult) | WriteReturns(answer: WriteResult)

  predicate Reading(c: Copy) { c.end == StillOpen && c.pending == [] }

  predicate Writing(c: Copy) { c.end == StillOpen && c.pending != [] }

  /** What one write call takes of the bytes it is offered. */
  function Accepted(answer: WriteResult, offered: seq<byte>): seq<byte> { Take(offered, answer.accepted) }

  predicate Refused(answer: WriteResult) { answer.failed || answer.accepted == 0 }

  /** What a read error means once everything that came with it is written. */
  function EndOf(error: ReadError): End {
    match error
    case NoError => StillOpen
    case EndOfFile => Drained
    case OtherError => ReadFailed
  }

  function Settled(c: Copy): Copy { if c.pending == [] then c.(end := EndOf(c.error)) else c }

  /** What the destination accepts in this step, and so what is counted and captured. */
  function Part(c: Copy, e: Event): seq<byte> {
    if e.WriteReturns? && Writing(c) then Accepted(e.answer, c.pending) else []
  }

  /** One call returns; an event that does not fit the state changes nothing. */
  function Next(c: Copy, e: Event): Copy {
    match e
    case ReadReturns(r) =>
      if Reading(c) then Settled(c.(read := c.read + r.data, pending := r.data, error := r.error)) else c
    case WriteReturns(answer) =>
      if !Writing(c) then c
      else
        var part := Part(c, e);
        var written := c.(pending := c.pending[|part|..], received := c.received + part, total := c.total + |part|);
        if Refused(answer) then written.(end := WriteFailed) else Settled(written)
  }

  function Run(events: seq<Event>): Copy {
    if events == [] then NOTHING_COPIED else Next(Run(events[..|events| - 1]), events[|events| - 1])
  }

  /** The parts, one for each write call that accepted something. */
  function Parts(events: seq<Event>): seq<seq<byte>> {
    if events == [] then []
    else
      var front := events[..|events| - 1];
      var part := Part(Run(front), events[|events| - 1]);
      if part == [] then Parts(front) else Parts(front) + [part]
  }

  lemma RunSnoc(events: seq<Event>, e: Event)
    ensures Run(events + [e]) == Next(Run(events), e)
    ensures Parts(events + [e]) ==
      if Part(Run(events), e) == [] then Parts(events) else Parts(events) + [Part(Run(events), e)]
  {
    assert (events + [e])[..|events|] == events;
  }

  // ----- one direction ----------------------------------------------------------------

  predicate CopyOk(c: Copy) {
    && c.read == c.received + c.pending
    && c.total == |c.received|
    && (c.end == Drained || c.end == ReadFailed ==> c.pending == [])
  }

  lemma NextOk(c: Copy, e: Event)
    requires CopyOk(c)
    ensures CopyOk(Next(c, e)) && Next(c, e).received == c.received + Part(c, e)
  {
  }

  /** For any reads, short writes and failures: the destination has accepted a prefix of what was
      read, namely the parts one after another, the total is its length, and when the source has
      ended, or could not be read further, it has accepted everything. */
  lemma {:induction false} DeliveryIsExact(events: seq<Event>)
    ensures var c := Run(events);
            && c.received <= c.read && c.received == Concat(Parts(events)) && c.total == |c.received|
            && (c.end == Drained || c.end == ReadFailed ==> c.received == c.read)
    ensures CopyOk(Run(events))
  {
    hide Next;
    if events == [] {
      assert Parts([]) == [];
    } else {
      var front, e := events[..|events| - 1], events[|events| - 1];
      DeliveryIsExact(front);
      NextOk(Run(front), e);
      ConcatSnoc(Parts(front), Part(Run(front), e));
    }
  }

  // ----- both directions, and everything else -------------------------------------------

  /** A captured connection: the recorder with what every writer was given, and both pipes. */
  datatype Connection = Connection(world: StoreRuns.World, inbound: Copy, outbound: Copy)
  {
    function Side(dir: Dir): Copy { if dir == In then inbound else outbound }
  }

  /** A step of one of the two pipes, or an operation that somebody else performs. */
  datatype Action = Relayed(dir: Dir, event: Event) | Elsewhere(op: Op)

  /** Only the connection itself writes through its writer. */
  predicate Foreign(a: Action, token: nat) {
    a.Elsewhere? && a.op.OpWrite? ==> a.op.token != token
  }

  /** Hand over what the destination accepted, if anything. */
  function HandOver(w: StoreRuns.World, token: nat, dir: Dir, part: seq<byte>): (v: StoreRuns.World)
    requires StoreOk(w.store)
    ensures StoreOk(v.store) && w.store.sequence <= v.store.sequence
  {
    if part == [] then w else StoreRuns.Step(w, OpWrite(token, dir, part, false))
  }

  function Act(c: Connection, token: nat, a: Action): (d: Connection)
    requires StoreOk(c.world.store)
    ensures StoreOk(d.world.store) && c.world.store.sequence <= d.world.store.sequence
  {
    match a
    case Elsewhere(op) => c.(world := StoreRuns.Step(c.world, op))
    case Relayed(dir, e) =>
      var world := HandOver(c.world, token, dir, Part(c.Side(dir), e));
      if dir == In then Connection(world, Next(c.inbound, e), c.outbound)
      else Connection(world, c.inbound, Next(c.outbound, e))
  }

  function Acts(c: Connection, token: nat, actions: seq<Action>): (d: Connection)
    requires StoreOk(c.world.store)
    ensures StoreOk(d.world.store)
  {
    if actions == [] then c else Act(Acts(c, token, actions[..|actions| - 1]), token, actions[|actions| - 1])
  }

  /** What the writer was handed is what the two destinations accepted. */
  predicate Agrees(c: Connection, token: nat) {
    && token <= c.world.store.sequence
    && CopyOk(c.inbound) && CopyOk(c.outbound)
    && StoreRuns.SentBy(c.world.handed, token).inbound == c.inbound.received
    && StoreRuns.SentBy(c.world.handed, token).outbound == c.outbound.received
  }

  lemma ActAgrees(c: Connection, token: nat, a: Action)
    requires StoreRuns.WorldOk(c.world) && Agrees(c, token) && Foreign(a, token)
    ensures StoreRuns.WorldOk(Act(c, token, a).world) && Agrees(Act(c, token, a), token)
  {
    hide StoreRuns.WorldOk, StoreRuns.Step, Next, StoreRuns.SentBy, StoreOk;
    HasStore(c.world);
    match a
    case Elsewhere(op) =>
      StoreRuns.StepWorldOk(c.world, op);
      StoreRuns.HandedStep(c.world, op, token, In);
      StoreRuns.HandedStep(c.world, op, token, Out);
    case Relayed(dir, e) =>
      NextOk(c.Side(dir), e);
      var part := Part(c.Side(dir), e);
      if part != [] {
        var write := OpWrite(token, dir, part, false);
        StoreRuns.StepWorldOk(c.world, write);
        StoreRuns.HandedStep(c.world, write, token, In);
        StoreRuns.HandedStep(c.world, write, token, Out);
      }
  }

  lemma HasStore(w: StoreRuns.World)
    requires StoreRuns.WorldOk(w)
    ensures StoreOk(w.store)
  {
  }

  lemma {:induction false} ActsAgree(c: Connection, token: nat, actions: seq<Action>)
    requires StoreRuns.WorldOk(c.world) && StoreOk(c.world.store) && Agrees(c, token)
    requires forall i | 0 <= i < |actions| :: Foreign(actions[i], token)
    ensures StoreRuns.WorldOk(Acts(c, token, actions).world) && Agrees(Acts(c, token, actions), token)
  {
    hide StoreRuns.WorldOk, Agrees, Act, StoreOk;
    if actions == [] {
    } else {
      var front := actions[..|actions| - 1];
      ActsAgree(c, token, front);
      ActAgrees(Acts(c, token, front), token, actions[|actions| - 1]);
    }
  }

  /** The connection right after its capture has begun. */
  function Begun(w: StoreRuns.World, id: nat, remote: string, startedAt: int): (c: Connection)
    requires StoreOk(w.store)
    ensures StoreOk(c.world.store)
  {
    Connection(StoreRuns.Step(w, OpBegin(id, remote, startedAt)), NOTHING_COPIED, NOTHING_COPIED)
  }

  lemma BegunAgrees(w: StoreRuns.World, id: nat, remote: string, startedAt: int)
    requires StoreRuns.WorldOk(w) && MakeRoom(w.store, id).Some?
    ensures StoreRuns.WorldOk(Begun(w, id, remote, startedAt).world)
    ensures Agrees(Begun(w, id, remote, startedAt), w.store.sequence + 1)
  {
    StoreRuns.StepWorldOk(w, OpBegin(id, remote, startedAt));
  }

  /** The events of one direction. */
  function EventsOf(actions: seq<Action>, dir: Dir): seq<Event> {
    if actions == [] then []
    else
      var before, a := EventsOf(actions[..|actions| - 1], dir), actions[|actions| - 1];
      if a.Relayed? && a.dir == dir then before + [a.event] else before
  }

  /** Each pipe goes the way its own reads and writes take it, whatever happens in between. */
  lemma {:induction false} EachPipeRunsAlone(c: Connection, token: nat, actions: seq<Action>, dir: Dir)
    requires StoreOk(c.world.store) && c.Side(dir) == NOTHING_COPIED
    ensures Acts(c, token, actions).Side(dir) == Run(EventsOf(actions, dir))
  {
    hide StoreOk, Next;
    if actions == [] {
      assert EventsOf(actions, dir) == [];
    } else {
      var front, a := actions[..|actions| - 1], actions[|actions| - 1];
      EachPipeRunsAlone(c, token, front, dir);
      if a.Relayed? && a.dir == dir {
        RunSnoc(EventsOf(front, dir), a.event);
      }
    }
  }

  /** The open record of the writer, against what the destinations accepted. */
  lemma OpenRecordAgrees(c: Connection, token: nat)
    requires StoreRuns.WorldOk(c.world) && Agrees(c, token) && Open(c.world.store, token)
    ensures var t := c.world.store.dumps[FindOpen(c.world.store.dumps, token)].tape;
            && t.inbound.total == c.inbound.total && t.outbound.total == c.outbound.total
            && t.Captured(In) <= c.inbound.received && t.Captured(Out) <= c.outbound.received
            && (t.truncated <==> t.Captured(In) != c.inbound.received || t.Captured(Out) != c.outbound.received)
  {
    var d := c.world.store.dumps[FindOpen(c.world.store.dumps, token)];
    assert StoreRuns.RecordFaithful(c.world, d);
  }

  /** A captured TCP connection, from its Begin to its Finish, with both pipes interleaved in any
      way with each other and with everything else that happens to the recorder: if the record is
      still there at the end, its totals are the two totals that the pipes return, so Finish with
      them only closes it; and what it holds of each direction is a prefix of what that
      direction's destination accepted, the whole of it unless the record is truncated. */
  lemma FinishAgreesWithBothPipes(w: StoreRuns.World, id: nat, remote: string, startedAt: int, actions: seq<Action>)
    requires StoreRuns.WorldOk(w) && MakeRoom(w.store, id).Some?
    requires forall i | 0 <= i < |actions| :: Foreign(actions[i], w.store.sequence + 1)
    requires Open(Acts(Begun(w, id, remote, startedAt), w.store.sequence + 1, actions).world.store, w.store.sequence + 1)
    ensures var token := w.store.sequence + 1;
            var c := Acts(Begun(w, id, remote, startedAt), token, actions);
            var s, i := c.world.store, FindOpen(c.world.store.dumps, token);
            var t := s.dumps[i].tape;
            && Finish(s, token, c.inbound.total, c.outbound.total) == s.(dumps := s.dumps[i := s.dumps[i].(closed := true)])
            && t.Captured(In) <= c.inbound.received && t.Captured(Out) <= c.outbound.received
            && (t.truncated <==> t.Captured(In) != c.inbound.received || t.Captured(Out) != c.outbound.received)
  {
    hide StoreRuns.WorldOk, Agrees, Acts, Begun, StoreOk;
    HasStore(w);
    BegunAgrees(w, id, remote, startedAt);
    ActsAgree(Begun(w, id, remote, startedAt), w.store.sequence + 1, actions);
    OpenRecordAgrees(Acts(Begun(w, id, remote, startedAt), w.store.sequence + 1, actions), w.store.sequence + 1);
  }
}
