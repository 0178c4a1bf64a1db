/** What holds in every run of store operations: captures are faithful prefixes of the
    traffic, stopped captures never resume, stale writers are harmless, pins survive. */
module StoreRuns {
  import opened Streams
  import opened Capture
  import opened Store

  /** The store together with what every writer, named by its token, was given:
      `sent` while its record was open, `handed` altogether. */
  datatype World = World(store: State, sent: map<nat, Sent>, handed: map<nat, Sent>)

  function SentBy(m: map<nat, Sent>, token: nat): Sent {
    if token in m then m[token] else NOTHING_SENT
  }

  function Record(m: map<nat, Sent>, op: Op): map<nat, Sent>
    requires op.OpWrite?
  {
    m[op.token := SentBy(m, op.token).Add(op.dir, op.data, op.datagram)]
  }

  function Step(w: World, op: Op): (next: World)
    requires StoreOk(w.store)
    ensures StoreOk(next.store) && w.store.sequence <= next.store.sequence
  {
    ApplyOk(w.store, op);
    ApplyDescends(w.store, op);
    World(Apply(w.store, op),
          if op.OpWrite? && Open(w.store, op.token) then Record(w.sent, op) else w.sent,
          if op.OpWrite? && op.token <= w.store.sequence then Record(w.handed, op) else w.handed)
  }

  // ----- how one operation changes the records ----------------------------------

  /** How a record may change while it stays in the store; a closed capture is final. */
  predicate Evolves(before: Rec, after: Rec) {
    && after.meta == before.meta
    && TapeEvolves(before.tape, after.tape)
    && (before.closed ==> after.closed && forall dir: Dir :: after.tape.At(dir).total == before.tape.At(dir).total)
  }

  /** Every record is new or descends from a record that was there before. */
  ghost predicate Descends(s: State, next: State) {
    && s.sequence <= next.sequence
    && forall e | e in next.dumps && e.meta.token <= s.sequence :: HasOrigin(s.dumps, e)
  }

  ghost predicate HasOrigin(dumps: seq<Rec>, e: Rec) {
    exists d | d in dumps :: Evolves(d, e)
  }

  lemma EvolvesSelf(d: Rec)
    ensures Evolves(d, d)
  {
  }

  lemma PartDescends(s: State, some: seq<Rec>)
    requires forall d | d in some :: d in s.dumps
    ensures Descends(s, s.(dumps := some))
  {
    forall e | e in some ensures HasOrigin(s.dumps, e) {
      EvolvesSelf(e);
    }
  }

  lemma UpdateDescends(s: State, i: nat, e: Rec)
    requires i < |s.dumps| && Evolves(s.dumps[i], e)
    ensures Descends(s, s.(dumps := s.dumps[i := e]))
  {
    forall d | d in s.dumps[i := e] ensures HasOrigin(s.dumps, d) {
      var j :| 0 <= j < |s.dumps| && s.dumps[i := e][j] == d;
      assert s.dumps[j] in s.dumps;
      EvolvesSelf(s.dumps[j]);
    }
  }

  lemma BeginDescends(s: State, id: nat, remote: string, startedAt: int)
    requires StoreOk(s)
    ensures Descends(s, Begin(s, id, remote, startedAt))
  {
    if MakeRoom(s, id).Some? {
      MakeRoomOk(s, id);
      PartDescends(s, MakeRoom(s, id).value);
    } else {
      PartDescends(s, s.dumps);
    }
  }

  lemma TrimHasOrigin(dumps: seq<Rec>, kept: seq<Rec>, limit: nat, i: nat)
    requires i < |kept| && kept[i] in dumps
    ensures HasOrigin(dumps, TrimAll(kept, limit)[i])
  {
    TrimEvolves(kept[i].tape, limit);
    assert Evolves(kept[i], TrimAll(kept, limit)[i]);
  }

  lemma ResizeDescends(s: State, maxConns: int, maxBytesPer: int)
    ensures Descends(s, Resize(s, maxConns, maxBytesPer))
  {
    PartDescends(s, s.dumps);
    if ResizeAccepted(s, maxConns, maxBytesPer) {
      var kept := DropOldest(s.dumps, Excess(s, maxConns));
      DropOldestPart(s.dumps, Excess(s, maxConns));
      forall i | 0 <= i < |kept| ensures HasOrigin(s.dumps, TrimAll(kept, maxBytesPer)[i]) {
        TrimHasOrigin(s.dumps, kept, maxBytesPer, i);
      }
    }
  }

  lemma WriteDescends(s: State, token: nat, dir: Dir, b: seq<byte>, datagram: bool)
    requires StoreOk(s)
    ensures Descends(s, Write(s, token, dir, b, datagram))
  {
    var i := FindOpen(s.dumps, token);
    if i < |s.dumps| {
      var d := s.dumps[i];
      assert Fits(d, s.sequence, s.maxBytesPer);
      WriteEvolves(d.tape, s.maxBytesPer, dir, b, datagram);
      UpdateDescends(s, i, d.(tape := WriteTape(d.tape, s.maxBytesPer, dir, b, datagram)));
    } else {
      PartDescends(s, s.dumps);
    }
  }

  lemma FinishDescends(s: State, token: nat, bytesIn: int, bytesOut: int)
    ensures Descends(s, Finish(s, token, bytesIn, bytesOut))
  {
    var i := FindOpen(s.dumps, token);
    if i < |s.dumps| {
      UpdateDescends(s, i, s.dumps[i].(closed := true, tape := SetTotals(s.dumps[i].tape, bytesIn, bytesOut)));
    } else {
      PartDescends(s, s.dumps);
    }
  }

  lemma SetPinnedDescends(s: State, id: nat, pinned: bool)
    ensures Descends(s, SetPinned(s, id, pinned))
  {
    var i := FindId(s.dumps, id);
    if i < |s.dumps| {
      UpdateDescends(s, i, s.dumps[i].(pinned := pinned));
    } else {
      PartDescends(s, s.dumps);
    }
  }

  lemma MarkFindingDescends(s: State, id: nat, score: int, pin: bool)
    ensures Descends(s, MarkFinding(s, id, score, pin))
  {
    var i := FindId(s.dumps, id);
    if i < |s.dumps| {
      UpdateDescends(s, i, Marked(s.dumps[i], score, pin));
    } else {
      PartDescends(s, s.dumps);
    }
  }

  lemma ClearDescends(s: State)
    ensures Descends(s, Clear(s)) && Descends(s, ClearAll(s))
  {
    FilterPart(s.dumps, IsPinned);
    PartDescends(s, Filter(s.dumps, IsPinned));
  }

  lemma ApplyDescends(s: State, op: Op)
    requires StoreOk(s)
    ensures Descends(s, Apply(s, op))
  {
    match op
    case OpBegin(id, remote, at) => BeginDescends(s, id, remote, at);
    case OpWrite(token, dir, data, datagram) => WriteDescends(s, token, dir, data, datagram);
    case OpFinish(token, bytesIn, bytesOut) => FinishDescends(s, token, bytesIn, bytesOut);
    case OpResize(maxConns, maxBytesPer) => ResizeDescends(s, maxConns, maxBytesPer);
    case OpSetPinned(id, pinned) => SetPinnedDescends(s, id, pinned);
    case OpMarkFinding(id, score, pin) => MarkFindingDescends(s, id, score, pin);
    case OpClear => ClearDescends(s);
    case OpClearAll => ClearDescends(s);
  }

  // ----- runs -------------------------------------------------------------------

  function Run(w: World, ops: seq<Op>): (end: World)
    requires StoreOk(w.store)
    ensures StoreOk(end.store)
    decreases |ops|
  {
    if ops == [] then w
    else Run(Step(w, ops[0]), ops[1..])
  }

  /** Records only descend, over any number of operations. */
  lemma {:induction false} RunDescends(w: World, ops: seq<Op>)
    requires StoreOk(w.store)
    ensures Descends(w.store, Run(w, ops).store)
    decreases |ops|
  {
    if ops == [] {
      PartDescends(w.store, w.store.dumps);
    } else {
      var next := Step(w, ops[0]);
      ApplyDescends(w.store, ops[0]);
      RunDescends(next, ops[1..]);
      DescendsTransitive(w.store, next.store, Run(next, ops[1..]).store);
    }
  }

  lemma DescendsTransitive(a: State, b: State, c: State)
    requires Descends(a, b) && Descends(b, c)
    ensures Descends(a, c)
  {
    forall e | e in c.dumps && e.meta.token <= a.sequence ensures HasOrigin(a.dumps, e) {
      assert HasOrigin(b.dumps, e);
      var d :| d in b.dumps && Evolves(d, e);
      assert HasOrigin(a.dumps, d);
      var o :| o in a.dumps && Evolves(o, d);
      assert Evolves(o, e);
    }
  }

  lemma SameToken(dumps: seq<Rec>, d: Rec, e: Rec)
    requires Ordered(dumps) && d in dumps && e in dumps && d.meta.token == e.meta.token
    ensures d == e
  {
    var i :| 0 <= i < |dumps| && dumps[i] == d;
    var j :| 0 <= j < |dumps| && dumps[j] == e;
    assert i == j;
  }

  /** No operation opens a record for a token that was handed out before. */
  lemma OnlyOpenStaysOpen(w: World, ops: seq<Op>, token: nat)
    requires StoreOk(w.store) && token <= w.store.sequence
    ensures Open(Run(w, ops).store, token) ==> Open(w.store, token)
  {
    var end := Run(w, ops).store;
    RunDescends(w, ops);
    var i := FindOpen(end.dumps, token);
    if i < |end.dumps| {
      assert HasOrigin(w.store.dumps, end.dumps[i]);
      var o :| o in w.store.dumps && Evolves(o, end.dumps[i]);
      var k :| 0 <= k < |w.store.dumps| && w.store.dumps[k] == o;
      assert FindOpen(w.store.dumps, token) <= k;
    }
  }

  /** A writer whose record is not open in some state (finished, evicted, replaced or cleared)
      can never change any record again. */
  lemma StaleWriterIsHarmless(w: World, ops: seq<Op>, late: Op)
    requires StoreOk(w.store) && (late.OpWrite? || late.OpFinish?)
    requires late.token <= w.store.sequence && !Open(w.store, late.token)
    ensures Apply(Run(w, ops).store, late) == Run(w, ops).store
  {
    OnlyOpenStaysOpen(w, ops, late.token);
  }

  // ----- faithful captures --------------------------------------------------------

  predicate RecordFaithful(w: World, d: Rec) {
    var sent := SentBy(w.sent, d.meta.token);
    && Faithful(d.tape, sent)
    && (!d.closed ==> sent == SentBy(w.handed, d.meta.token) && LiveTotals(d.tape, sent))
  }

  predicate LiveTotals(t: Tape, sent: Sent) {
    t.inbound.total == |sent.inbound| && t.outbound.total == |sent.outbound|
  }

  ghost predicate AllFaithful(w: World) {
    forall d | d in w.store.dumps :: RecordFaithful(w, d)
  }

  ghost predicate WorldOk(w: World) {
    && StoreOk(w.store)
    && AllFaithful(w)
    && (forall t | t in w.sent || t in w.handed :: t <= w.store.sequence)
  }

  lemma UpdateFaithful(w: World, i: nat, e: Rec)
    requires AllFaithful(w) && i < |w.store.dumps|
    requires RecordFaithful(w, w.store.dumps[i]) ==> RecordFaithful(w, e)
    ensures AllFaithful(w.(store := w.store.(dumps := w.store.dumps[i := e])))
  {
    var dumps := w.store.dumps[i := e];
    forall d | d in dumps ensures RecordFaithful(w, d) {
      var j :| 0 <= j < |dumps| && dumps[j] == d;
      assert w.store.dumps[j] in w.store.dumps && w.store.dumps[i] in w.store.dumps;
    }
  }

  lemma BeginFaithful(w: World, id: nat, remote: string, startedAt: int)
    requires WorldOk(w)
    ensures AllFaithful(w.(store := Begin(w.store, id, remote, startedAt)))
  {
    var s := w.store;
    if MakeRoom(s, id).Some? {
      MakeRoomOk(s, id);
      var added := NewRec(s.sequence + 1, id, remote, startedAt);
      assert SentBy(w.sent, s.sequence + 1) == SentBy(w.handed, s.sequence + 1) == NOTHING_SENT;
      assert RecordFaithful(w, added);
    }
  }

  lemma TrimFaithful(w: World, kept: seq<Rec>, limit: nat, i: nat)
    requires AllFaithful(w) && i < |kept| && kept[i] in w.store.dumps
    ensures RecordFaithful(w, TrimAll(kept, limit)[i])
  {
    assert RecordFaithful(w, kept[i]);
    TrimIsFaithful(kept[i].tape, limit, SentBy(w.sent, kept[i].meta.token));
  }

  lemma ResizeFaithful(w: World, maxConns: int, maxBytesPer: int)
    requires AllFaithful(w)
    ensures AllFaithful(w.(store := Resize(w.store, maxConns, maxBytesPer)))
  {
    var s := w.store;
    if ResizeAccepted(s, maxConns, maxBytesPer) {
      var kept := DropOldest(s.dumps, Excess(s, maxConns));
      DropOldestPart(s.dumps, Excess(s, maxConns));
      forall i | 0 <= i < |kept| ensures RecordFaithful(w, TrimAll(kept, maxBytesPer)[i]) {
        TrimFaithful(w, kept, maxBytesPer, i);
      }
    }
  }

  lemma FinishFaithful(w: World, token: nat, bytesIn: int, bytesOut: int)
    requires AllFaithful(w)
    ensures AllFaithful(w.(store := Finish(w.store, token, bytesIn, bytesOut)))
  {
    var i := FindOpen(w.store.dumps, token);
    if i < |w.store.dumps| {
      var d := w.store.dumps[i];
      UpdateFaithful(w, i, d.(closed := true, tape := SetTotals(d.tape, bytesIn, bytesOut)));
    }
  }

  lemma WrittenTapeFaithful(t: Tape, limit: int, op: Op, sent: Sent)
    requires TapeOk(t, limit) && op.OpWrite? && Faithful(t, sent) && LiveTotals(t, sent)
    ensures var after := WriteTape(t, limit, op.dir, op.data, op.datagram);
            var more := sent.Add(op.dir, op.data, op.datagram);
            Faithful(after, more) && LiveTotals(after, more)
  {
    WriteIsFaithful(t, limit, op.dir, op.data, op.datagram, sent);
    WriteCounts(t, limit, op.dir, op.data, op.datagram);
  }

  lemma WrittenRecordFaithful(w: World, op: Op, next: World)
    requires StoreOk(w.store) && op.OpWrite? && Open(w.store, op.token) && AllFaithful(w) && next == Step(w, op)
    ensures var i := FindOpen(w.store.dumps, op.token); RecordFaithful(next, next.store.dumps[i])
  {
    var d := w.store.dumps[FindOpen(w.store.dumps, op.token)];
    assert Fits(d, w.store.sequence, w.store.maxBytesPer) && RecordFaithful(w, d);
    WrittenTapeFaithful(d.tape, w.store.maxBytesPer, op, SentBy(w.sent, op.token));
  }

  lemma WriteCounts(t: Tape, limit: int, dir: Dir, b: seq<byte>, datagram: bool)
    requires TapeOk(t, limit)
    ensures var after := WriteTape(t, limit, dir, b, datagram);
            && after.At(dir).total == t.At(dir).total + |b|
            && forall side: Dir | side != dir :: after.At(side).total == t.At(side).total
  {
    if b != [] && !t.Stopped(dir) {
      FitFlags(t, limit, dir, b, datagram);
    }
  }

  lemma WriteFaithful(w: World, op: Op)
    requires WorldOk(w) && op.OpWrite?
    ensures AllFaithful(Step(w, op))
  {
    var next := Step(w, op);
    var open := FindOpen(w.store.dumps, op.token);
    assert next.store.sequence == w.store.sequence;
    forall i | 0 <= i < |next.store.dumps| ensures RecordFaithful(next, next.store.dumps[i]) {
      assert RecordFaithful(w, w.store.dumps[i]);
      if i == open {
        WrittenRecordFaithful(w, op, next);
      } else {
        OtherRecordFaithful(w, op, i);
      }
    }
  }

  /** A record that the write does not reach is as faithful as before. */
  lemma OtherRecordFaithful(w: World, op: Op, i: nat)
    requires WorldOk(w) && op.OpWrite? && i < |w.store.dumps| && i != FindOpen(w.store.dumps, op.token)
    ensures i < |Step(w, op).store.dumps| && RecordFaithful(Step(w, op), Step(w, op).store.dumps[i])
  {
    assert RecordFaithful(w, w.store.dumps[i]);
    if w.store.dumps[i].meta.token == op.token {
      assert FindOpen(w.store.dumps, op.token) == |w.store.dumps|;
    }
  }

  lemma SetPinnedFaithful(w: World, id: nat, pinned: bool)
    requires AllFaithful(w)
    ensures AllFaithful(w.(store := SetPinned(w.store, id, pinned)))
  {
    var i := FindId(w.store.dumps, id);
    if i < |w.store.dumps| {
      UpdateFaithful(w, i, w.store.dumps[i].(pinned := pinned));
    }
  }

  lemma MarkFindingFaithful(w: World, id: nat, score: int, pin: bool)
    requires AllFaithful(w)
    ensures AllFaithful(w.(store := MarkFinding(w.store, id, score, pin)))
  {
    var i := FindId(w.store.dumps, id);
    if i < |w.store.dumps| {
      UpdateFaithful(w, i, Marked(w.store.dumps[i], score, pin));
    }
  }

  lemma StepFaithful(w: World, op: Op)
    requires WorldOk(w)
    ensures AllFaithful(Step(w, op))
  {
    match op
    case OpBegin(id, remote, at) => BeginFaithful(w, id, remote, at);
    case OpWrite(_, _, _, _) => WriteFaithful(w, op);
    case OpFinish(token, bytesIn, bytesOut) => FinishFaithful(w, token, bytesIn, bytesOut);
    case OpResize(maxConns, maxBytesPer) => ResizeFaithful(w, maxConns, maxBytesPer);
    case OpSetPinned(id, pinned) => SetPinnedFaithful(w, id, pinned);
    case OpMarkFinding(id, score, pin) => MarkFindingFaithful(w, id, score, pin);
    case OpClear => FilterPart(w.store.dumps, IsPinned);
    case OpClearAll =>
  }

  lemma StepWorldOk(w: World, op: Op)
    requires WorldOk(w)
    ensures WorldOk(Step(w, op))
  {
    StepFaithful(w, op);
    if op.OpWrite? && Open(w.store, op.token) {
      assert Fits(w.store.dumps[FindOpen(w.store.dumps, op.token)], w.store.sequence, w.store.maxBytesPer);
    }
  }

  /** Every reachable world is in order, whatever the interleaving of the operations. */
  lemma {:induction false} RunKeepsWorldOk(w: World, ops: seq<Op>)
    requires WorldOk(w)
    ensures WorldOk(Run(w, ops))
    decreases |ops|
  {
    if ops == [] {
    } else {
      StepWorldOk(w, ops[0]);
      RunKeepsWorldOk(Step(w, ops[0]), ops[1..]);
    }
  }

  // ----- the theorems ---------------------------------------------------------------

  function NewWorld(maxConns: int, maxBytesPer: int): World {
    World(NewState(maxConns, maxBytesPer), map[], map[])
  }

  lemma ReachableRecord(maxConns: int, maxBytesPer: int, ops: seq<Op>, d: Rec)
    requires d in Run(NewWorld(maxConns, maxBytesPer), ops).store.dumps
    ensures Faithful(d.tape, SentBy(Run(NewWorld(maxConns, maxBytesPer), ops).sent, d.meta.token))
  {
    var w := NewWorld(maxConns, maxBytesPer);
    RunKeepsWorldOk(w, ops);
    assert RecordFaithful(Run(w, ops), d);
  }

  /** In every run, every retained capture is, per direction, a prefix of the bytes its writer
      was given while the record was open, and Truncated says exactly whether one is proper. */
  lemma CapturesArePrefixes(maxConns: int, maxBytesPer: int, ops: seq<Op>, d: Rec)
    requires d in Run(NewWorld(maxConns, maxBytesPer), ops).store.dumps
    ensures var sent := SentBy(Run(NewWorld(maxConns, maxBytesPer), ops).sent, d.meta.token);
            && d.tape.Captured(In) <= sent.inbound
            && d.tape.Captured(Out) <= sent.outbound
            && (d.tape.truncated <==> d.tape.Captured(In) < sent.inbound || d.tape.Captured(Out) < sent.outbound)
  {
    ReachableRecord(maxConns, maxBytesPer, ops, d);
  }

  /** An untruncated capture of a datagram session holds the datagrams one by one. */
  lemma DatagramsKeepTheirBoundaries(maxConns: int, maxBytesPer: int, ops: seq<Op>, d: Rec)
    requires d in Run(NewWorld(maxConns, maxBytesPer), ops).store.dumps
    requires !SentBy(Run(NewWorld(maxConns, maxBytesPer), ops).sent, d.meta.token).joined && !d.tape.truncated
    ensures d.tape.chunks == SentBy(Run(NewWorld(maxConns, maxBytesPer), ops).sent, d.meta.token).packets
  {
    ReachableRecord(maxConns, maxBytesPer, ops, d);
  }

  /** The bytes that these operations hand to one writer in one direction. */
  function Given(ops: seq<Op>, token: nat, dir: Dir): seq<byte> {
    if ops == [] then [] else GivenBy(ops[0], token, dir) + Given(ops[1..], token, dir)
  }

  function GivenBy(op: Op, token: nat, dir: Dir): seq<byte> {
    if op.OpWrite? && op.token == token && op.dir == dir then op.data else []
  }

  lemma {:induction false} HandedAccumulates(w: World, ops: seq<Op>, token: nat, dir: Dir)
    requires StoreOk(w.store) && token <= w.store.sequence
    ensures SentBy(Run(w, ops).handed, token).At(dir) == SentBy(w.handed, token).At(dir) + Given(ops, token, dir)
    decreases |ops|
  {
    hide StoreOk, Step, SentBy, GivenBy;
    if ops == [] {
    } else {
      HandedAccumulates(Step(w, ops[0]), ops[1..], token, dir);
      HandedStep(w, ops[0], token, dir);
      Regrouped(SentBy(w.handed, token).At(dir), GivenBy(ops[0], token, dir), Given(ops[1..], token, dir));
    }
  }

  lemma Regrouped(a: seq<byte>, b: seq<byte>, c: seq<byte>)
    ensures (a + b) + c == a + (b + c)
  {
  }

  lemma HandedStep(w: World, op: Op, token: nat, dir: Dir)
    requires StoreOk(w.store) && token <= w.store.sequence
    ensures SentBy(Step(w, op).handed, token).At(dir) == SentBy(w.handed, token).At(dir) + GivenBy(op, token, dir)
    ensures token <= Step(w, op).store.sequence
  {
  }

  /** A TCP connection that is captured from its Begin on: whatever else happens to the store
      meanwhile, if the capture is still open at the end then its live totals are the lengths of
      everything the two pipes handed over, and Finish with those lengths only closes it. */
  lemma FinishAgreesWithLiveTotals(w: World, id: nat, remote: string, startedAt: int, ops: seq<Op>)
    requires WorldOk(w) && MakeRoom(w.store, id).Some?
    requires var token := w.store.sequence + 1;
             Open(Run(Step(w, OpBegin(id, remote, startedAt)), ops).store, token)
    ensures var token := w.store.sequence + 1;
            var end := Run(Step(w, OpBegin(id, remote, startedAt)), ops).store;
            var i := FindOpen(end.dumps, token);
            var bytesIn, bytesOut := |Given(ops, token, In)|, |Given(ops, token, Out)|;
            && end.dumps[i].tape.inbound.total == bytesIn && end.dumps[i].tape.outbound.total == bytesOut
            && Finish(end, token, bytesIn, bytesOut)
               == end.(dumps := end.dumps[i := end.dumps[i].(closed := true)])
  {
    var token, begun := w.store.sequence + 1, Step(w, OpBegin(id, remote, startedAt));
    StepWorldOk(w, OpBegin(id, remote, startedAt));
    RunKeepsWorldOk(begun, ops);
    HandedAccumulates(begun, ops, token, In);
    HandedAccumulates(begun, ops, token, Out);
    var end := Run(begun, ops);
    assert RecordFaithful(end, end.store.dumps[FindOpen(end.store.dumps, token)]);
    assert SentBy(begun.handed, token) == NOTHING_SENT;
  }

  /** Once bytes of a direction are missing, nothing is ever appended to it again: no later
      write and no larger Resize. (A smaller one may shorten it.) */
  lemma MissingBytesStayMissing(w: World, ops: seq<Op>, d: Rec, e: Rec, dir: Dir)
    requires WorldOk(w) && d in w.store.dumps && e in Run(w, ops).store.dumps
    requires d.meta.token == e.meta.token
    requires d.tape.Captured(dir) != SentBy(w.sent, d.meta.token).At(dir)
    ensures e.tape.Captured(dir) <= d.tape.Captured(dir)
    ensures e.tape.truncated
  {
    hide WorldOk, StoreOk, Run, Evolves, TapeEvolves, Faithful;
    Retained(w, d);
    RunDescends(w, ops);
    assert HasOrigin(w.store.dumps, e);
    var o :| o in w.store.dumps && Evolves(o, e);
    SameOrigin(w, o, d, e);
    StoppedStays(d, e, SentBy(w.sent, d.meta.token), dir);
  }

  lemma Retained(w: World, d: Rec)
    requires WorldOk(w) && d in w.store.dumps
    ensures StoreOk(w.store) && d.meta.token <= w.store.sequence && Ordered(w.store.dumps) && Faithful(d.tape, SentBy(w.sent, d.meta.token))
  {
    assert Fits(d, w.store.sequence, w.store.maxBytesPer);
    assert RecordFaithful(w, d);
  }

  lemma SameOrigin(w: World, o: Rec, d: Rec, e: Rec)
    requires Ordered(w.store.dumps) && o in w.store.dumps && d in w.store.dumps
    requires Evolves(o, e) && d.meta.token == e.meta.token
    ensures o == d
  {
    SameToken(w.store.dumps, o, d);
  }

  lemma StoppedStays(d: Rec, e: Rec, sent: Sent, dir: Dir)
    requires Faithful(d.tape, sent) && Evolves(d, e) && d.tape.Captured(dir) != sent.At(dir)
    ensures e.tape.Captured(dir) <= d.tape.Captured(dir) && e.tape.truncated
  {
  }

  // ----- pins -----------------------------------------------------------------------

  /** The two ways in which a pinned record with this ID may be given up. */
  predicate GivesUpPin(op: Op, id: nat) {
    op.OpClearAll? || (op.OpSetPinned? && op.id == id && !op.pinned)
  }

  predicate HasPin(dumps: seq<Rec>, m: Meta) {
    exists d | d in dumps :: d.meta == m && d.pinned
  }

  lemma RemoveAtKeeps(dumps: seq<Rec>, i: nat, m: Meta)
    requires i < |dumps| && !dumps[i].pinned && HasPin(dumps, m)
    ensures HasPin(RemoveAt(dumps, i), m)
  {
    var d :| d in dumps && d.meta == m && d.pinned;
    var k :| 0 <= k < |dumps| && dumps[k] == d;
    assert RemoveAt(dumps, i)[if k < i then k else k - 1] == d;
  }

  lemma UpdateKeepsPin(dumps: seq<Rec>, i: nat, e: Rec, m: Meta)
    requires i < |dumps| && HasPin(dumps, m)
    requires e.meta == dumps[i].meta && (dumps[i].pinned && e.meta == m ==> e.pinned)
    ensures HasPin(dumps[i := e], m)
  {
    var d :| d in dumps && d.meta == m && d.pinned;
    var k :| 0 <= k < |dumps| && dumps[k] == d;
    assert dumps[i := e][k] in dumps[i := e];
  }

  lemma FilterKeepsPin(dumps: seq<Rec>, m: Meta)
    ensures HasPin(dumps, m) <==> HasPin(Filter(dumps, IsPinned), m)
  {
    forall d: Rec ensures d in Filter(dumps, IsPinned) <==> d in dumps && d.pinned {
      FilterMembers(dumps, IsPinned, d);
    }
  }

  lemma BeginKeepsPin(s: State, id: nat, remote: string, startedAt: int, m: Meta)
    requires HasPin(s.dumps, m)
    ensures HasPin(Begin(s, id, remote, startedAt).dumps, m)
  {
    if MakeRoom(s, id).Some? {
      var i, others := FindId(s.dumps, id), WithoutId(s.dumps, id);
      if i < |s.dumps| {
        RemoveAtKeeps(s.dumps, i, m);
      }
      if |others| >= s.maxConns {
        RemoveAtKeeps(others, FirstUnpinned(others), m);
      }
    }
  }

  lemma ResizeKeepsPin(s: State, maxConns: int, maxBytesPer: int, m: Meta)
    requires HasPin(s.dumps, m)
    ensures HasPin(Resize(s, maxConns, maxBytesPer).dumps, m)
  {
    if ResizeAccepted(s, maxConns, maxBytesPer) {
      var kept := DropOldest(s.dumps, Excess(s, maxConns));
      DropOldestKeepsPins(s.dumps, Excess(s, maxConns));
      FilterKeepsPin(s.dumps, m);
      FilterKeepsPin(kept, m);
      var d :| d in kept && d.meta == m && d.pinned;
      var k :| 0 <= k < |kept| && kept[k] == d;
      assert TrimAll(kept, maxBytesPer)[k] in TrimAll(kept, maxBytesPer);
    }
  }

  lemma WriterKeepsPin(s: State, op: Op, m: Meta)
    requires StoreOk(s) && HasPin(s.dumps, m) && (op.OpWrite? || op.OpFinish?)
    ensures HasPin(Apply(s, op).dumps, m)
  {
    var i := FindOpen(s.dumps, op.token);
    if i < |s.dumps| { UpdateKeepsPin(s.dumps, i, Apply(s, op).dumps[i], m); }
  }

  lemma FlagsKeepPin(s: State, op: Op, m: Meta)
    requires StoreOk(s) && HasPin(s.dumps, m) && (op.OpSetPinned? || op.OpMarkFinding?) && !GivesUpPin(op, m.id)
    ensures HasPin(Apply(s, op).dumps, m)
  {
    var i := FindId(s.dumps, op.id);
    if i < |s.dumps| { UpdateKeepsPin(s.dumps, i, Apply(s, op).dumps[i], m); }
  }

  lemma StepKeepsPin(s: State, op: Op, m: Meta)
    requires StoreOk(s) && HasPin(s.dumps, m) && !GivesUpPin(op, m.id)
    ensures HasPin(Apply(s, op).dumps, m)
  {
    match op
    case OpBegin(id, remote, at) => BeginKeepsPin(s, id, remote, at, m);
    case OpWrite(_, _, _, _) => WriterKeepsPin(s, op, m);
    case OpFinish(_, _, _) => WriterKeepsPin(s, op, m);
    case OpResize(maxConns, maxBytesPer) => ResizeKeepsPin(s, maxConns, maxBytesPer, m);
    case OpSetPinned(_, _) => FlagsKeepPin(s, op, m);
    case OpMarkFinding(_, _, _) => FlagsKeepPin(s, op, m);
    case OpClear => FilterKeepsPin(s.dumps, m);
  }

  /** A pinned record leaves the store only by being unpinned first or through ClearAll:
      no eviction, Resize, Clear or reuse of its ID removes it. */
  lemma {:induction false} PinnedRecordsStay(w: World, ops: seq<Op>, m: Meta)
    requires StoreOk(w.store) && HasPin(w.store.dumps, m)
    requires forall op | op in ops :: !GivesUpPin(op, m.id)
    ensures HasPin(Run(w, ops).store.dumps, m)
    decreases |ops|
  {
    if ops == [] {
    } else {
      assert ops[0] in ops;
      StepKeepsPin(w.store, ops[0], m);
      PinnedRecordsStay(Step(w, ops[0]), ops[1..], m);
    }
  }

  /** A capture that the detector pins stays, in every run, until it is unpinned or ClearAll is called. */
  lemma AutoPinnedRecordsStay(w: World, d: Rec, score: int, ops: seq<Op>)
    requires WorldOk(w) && d in w.store.dumps
    requires forall op | op in ops :: !GivesUpPin(op, d.meta.id)
    ensures HasPin(Run(Step(w, OpMarkFinding(d.meta.id, score, true)), ops).store.dumps, d.meta)
  {
    var mark := OpMarkFinding(d.meta.id, score, true);
    var i := FindId(w.store.dumps, d.meta.id);
    SameId(w.store, d.meta.id, i);
    var next := Step(w, mark);
    assert next.store.dumps[i] in next.store.dumps;
    PinnedRecordsStay(next, ops, d.meta);
  }

  /** An accepted Resize keeps all pinned records and the newest unpinned ones, in order,
      each trimmed to its leading bytes; it is refused exactly when the pins do not fit. */
  lemma ResizeSurvivors(s: State, maxConns: int, maxBytesPer: int)
    requires StoreOk(s) && maxConns > 0 && maxBytesPer > 0
    ensures ResizeAccepted(s, maxConns, maxBytesPer) <==> |Filter(s.dumps, IsPinned)| <= maxConns
    ensures ResizeAccepted(s, maxConns, maxBytesPer) ==>
      var kept := DropOldest(s.dumps, Excess(s, maxConns));
      && Resize(s, maxConns, maxBytesPer).dumps == TrimAll(kept, maxBytesPer)
      && |kept| == Min(|s.dumps|, maxConns)
      && Part(kept, s.dumps)
      && Filter(kept, IsPinned) == Filter(s.dumps, IsPinned)
      && IsSuffix(Filter(kept, IsUnpinned), Filter(s.dumps, IsUnpinned))
  {
    if ResizeAccepted(s, maxConns, maxBytesPer) {
      var excess := Excess(s, maxConns);
      PinnedOrNot(s.dumps);
      DropOldestPart(s.dumps, excess);
      DropOldestCount(s.dumps, excess);
      DropOldestKeepsPins(s.dumps, excess);
      DropOldestKeepsNewest(s.dumps, excess);
    }
  }

  /** A new connection is not captured exactly when its earlier capture is pinned, or when
      every slot holds a pinned record. */
  lemma BeginIsRefusedExactlyForPins(s: State, id: nat)
    requires StoreOk(s)
    ensures MakeRoom(s, id).None? <==>
      || (exists d | d in s.dumps :: d.meta.id == id && d.pinned)
      || (|s.dumps| == s.maxConns && forall d | d in s.dumps :: d.pinned)
  {
    var i := FindId(s.dumps, id);
    if i < |s.dumps| {
      SameId(s, id, i);
    } else {
      assert forall d | d in s.dumps :: d.meta.id != id;
      assert forall d | d in s.dumps :: d.pinned == IsPinned(d);
    }
  }

  lemma SameId(s: State, id: nat, i: nat)
    requires StoreOk(s) && i < |s.dumps| && s.dumps[i].meta.id == id
    ensures forall d | d in s.dumps :: d.meta.id == id ==> d == s.dumps[i]
  {
    forall d | d in s.dumps && d.meta.id == id ensures d == s.dumps[i] {
      assert s.dumps[i] in s.dumps;
      SameToken(s.dumps, d, s.dumps[i]);
    }
  }
}
