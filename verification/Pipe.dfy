/** Rule.pipe of internal/proxy/rule.go: one direction of a TCP connection is copied to its
    destination, counted, and handed to the capture. The source is a list of read results; the
    destination is an object that remembers what it accepted. */
module Pipe {
  import opened Streams
  import opened Capture
  import opened Recording
  import opened Relay
  import Store

  class Counter {
    var value: int
  }

  /** The connection that is written to, with the answers its write calls will get. */
  class Destination {
    const answers: nat -> WriteResult
    var calls: nat
    var received: seq<byte>
    var ended: bool

    /** Take a part of b, and report how much and whether that failed. */
    method Write(b: seq<byte>) returns (answer: WriteResult)
      modifies `calls, `received
      ensures answer == answers(old(calls)) && calls == old(calls) + 1
      ensures received == old(received) + Accepted(answer, b)
    {
      answer := answers(calls);
      calls := calls + 1;
      received := received + Accepted(answer, b);
    }

    /** Nothing more will be written. */
    method CloseWrite()
      modifies `ended
      ensures ended
    {
      ended := true;
    }
  }

  /** Everything the first n reads returned. */
  function ReadBytes(source: seq<ReadResult>, n: nat): seq<byte>
    requires n <= |source|
  {
    if n == 0 then [] else ReadBytes(source, n - 1) + source[n - 1].data
  }

  /** The recorder after a writer was handed these pieces one after another. */
  function WriteAll(s: Store.State, writer: Option<nat>, dir: Dir, pieces: seq<seq<byte>>): (end: Store.State)
    requires Store.StoreOk(s)
    ensures Store.StoreOk(end)
  {
    if pieces == [] || writer.None? then s
    else
      var before := WriteAll(s, writer, dir, pieces[..|pieces| - 1]);
      Store.WriteStateOk(before, writer.value, dir, pieces[|pieces| - 1], false);
      Store.Write(before, writer.value, dir, pieces[|pieces| - 1], false)
  }

  lemma WriteAllSnoc(s: Store.State, writer: Option<nat>, dir: Dir, pieces: seq<seq<byte>>, b: seq<byte>)
    requires Store.StoreOk(s)
    ensures WriteAll(s, writer, dir, pieces + [b]) ==
      (if writer.None? then s else Store.Write(WriteAll(s, writer, dir, pieces), writer.value, dir, b, false))
    ensures writer.None? ==> WriteAll(s, writer, dir, pieces) == s
  {
    assert (pieces + [b])[..|pieces|] == pieces;
  }

  /** The recorder is where these pieces, handed over since `start`, lead. */
  ghost predicate Captured(rec: Recorder, start: Store.State, writer: Option<nat>, dir: Dir, pieces: seq<seq<byte>>)
    reads rec, rec.dumps
  {
    rec.Valid() && Store.StoreOk(start) && rec.Model() == WriteAll(start, writer, dir, pieces)
  }

  /** Hand one part to the writer, if there is one. */
  method HandOver(rec: Recorder, writer: Option<nat>, dir: Dir, part: seq<byte>, ghost start: Store.State, ghost pieces: seq<seq<byte>>)
    requires Captured(rec, start, writer, dir, pieces)
    modifies Objects(rec.dumps)
    ensures rec.dumps == old(rec.dumps) && Captured(rec, start, writer, dir, pieces + [part])
  {
    hide Store.StoreOk, WriteAll;
    WriteAllSnoc(start, writer, dir, pieces, part);
    if writer.Some? {
      rec.Write(writer.value, dir, part, false);
    }
  }

  /** The state of the copying loop at offset n of a read: this is the machine after these events,
      and destination, counter and recorder have got what the machine has passed on. */
  ghost predicate InStep(c: Copy, c0: Copy, data: seq<byte>, n: nat, ok: bool)
    requires n <= |data|
  {
    && c.read == c0.read && c.error == c0.error && c.pending == data[n..]
    && c.received == c0.received + data[..n] && c.total == c0.total + n
    && c.end == (if !ok then WriteFailed else if n == |data| then EndOf(c.error) else StillOpen)
  }

  lemma StepOfLoop(events: seq<Event>, c0: Copy, data: seq<byte>, n: nat, answer: WriteResult)
    requires n < |data| && InStep(Run(events), c0, data, n, true)
    ensures var part := Accepted(answer, data[n..]);
            && n + |part| <= |data| && part == data[n..n + |part|]
            && Part(Run(events), WriteReturns(answer)) == part && (!Refused(answer) ==> part != [])
            && InStep(Run(events + [WriteReturns(answer)]), c0, data, n + |part|, !Refused(answer))
            && Parts(events + [WriteReturns(answer)]) == if part == [] then Parts(events) else Parts(events) + [part]
  {
    hide Relay.Run, Parts;
    RunSnoc(events, WriteReturns(answer));
    var part := Accepted(answer, data[n..]);
    assert data[n..][|part|..] == data[n + |part|..];
    assert c0.received + data[..n] + part == c0.received + data[..n + |part|];
  }

  /** The inner loop: offer the rest of a read until all of it is accepted or a write fails. What
      the destination has accepted, what the counter has counted and what the writer was handed
      since the start is in every case the same first part of the read. */
  method Deliver(data: seq<byte>, dst: Destination, dir: Dir, rec: Recorder, writer: Option<nat>, counter: Counter,
                 ghost start: Store.State, ghost events0: seq<Event>)
    returns (n: nat, ok: bool, ghost events: seq<Event>)
    requires Captured(rec, start, writer, dir, Parts(events0))
    requires InStep(Run(events0), Run(events0), data, 0, true)
    modifies Objects(rec.dumps), counter, dst`calls, dst`received
    ensures rec.dumps == old(rec.dumps) && Captured(rec, start, writer, dir, Parts(events))
    ensures n <= |data| && InStep(Run(events), Run(events0), data, n, ok)
    ensures dst.received == old(dst.received) + data[..n]
    ensures counter.value == old(counter.value) + n
    ensures ok ==> n == |data|
    ensures !ok ==> dst.calls > old(dst.calls) && Refused(dst.answers(dst.calls - 1))
    ensures dst.calls >= old(dst.calls)
  {
    hide Captured, Objects, InStep, Parts, Relay.Run, Take;
    n, ok, events := 0, true, events0;
    while ok && n < |data|
      invariant n <= |data| && dst.calls >= old(dst.calls)
      invariant rec.dumps == old(rec.dumps) && Captured(rec, start, writer, dir, Parts(events))
      invariant InStep(Run(events), Run(events0), data, n, ok)
      invariant dst.received == old(dst.received) + data[..n]
      invariant counter.value == old(counter.value) + n
      invariant !ok ==> dst.calls > old(dst.calls) && Refused(dst.answers(dst.calls - 1))
      decreases ok, |data| - n
    {
      StepOfLoop(events, Run(events0), data, n, dst.answers(dst.calls));
      var answer := dst.Write(data[n..]);
      var part := Accepted(answer, data[n..]);
      assert data[..n] + part == data[..n + |part|];
      if |part| > 0 {
        HandOver(rec, writer, dir, part, start, Parts(events));
        counter.value := counter.value + |part|;
      }
      n, ok, events := n + |part|, !Refused(answer), events + [WriteReturns(answer)];
    }
  }

  /** The state of the copying loop between two reads. */
  ghost predicate Between(c: Copy, source: seq<ReadResult>, n: nat, total: nat, end: End)
    requires n <= |source|
  {
    && c.read == ReadBytes(source, n) && c.total == total && c.end == end && CopyOk(c)
    && (end == StillOpen ==> c.pending == [])
  }

  lemma StartOfPipe(source: seq<ReadResult>)
    ensures Between(Run([]), source, 0, 0, StillOpen) && Run([]).received == [] && Parts([]) == []
  {
  }

  lemma ReadOneMore(source: seq<ReadResult>, n: nat, total: nat, events: seq<Event>)
    requires n < |source| && Between(Run(events), source, n, total, StillOpen)
    ensures var after := events + [ReadReturns(source[n])];
            && InStep(Run(after), Run(after), source[n].data, 0, true)
            && Run(after).pending == source[n].data
            && Run(after).received == Run(events).received && Run(after).total == total
            && Run(after).read == ReadBytes(source, n + 1) && Run(after).error == source[n].error
            && Parts(after) == Parts(events)
  {
    hide Relay.Run, Parts;
    RunSnoc(events, ReadReturns(source[n]));
    var data := source[n].data;
    assert data[0..] == data && data[..0] == [];
  }

  lemma DeliveredOne(c0: Copy, c: Copy, source: seq<ReadResult>, taken: nat, data: seq<byte>, n: nat, ok: bool)
    requires taken <= |source| && c0.read == ReadBytes(source, taken) && CopyOk(c0) && c0.pending == data
    requires n <= |data| && InStep(c, c0, data, n, ok) && (ok ==> n == |data|)
    ensures Between(c, source, taken, c0.total + n, if ok then EndOf(c0.error) else WriteFailed)
    ensures c.received == c0.received + data[..n]
  {
    assert data == data[..n] + data[n..];
    assert c0.received + data == (c0.received + data[..n]) + data[n..];
  }

  /** Copies until the source ends or something fails. What the destination accepted is a prefix of
      the bytes read, and all of them unless a write failed; the writer was handed exactly what
      the destination accepted, and the shared counter and the returned total count exactly
      that. The end of the source is passed on when, and only when, everything before it was
      accepted. */
  method Pipe(source: seq<ReadResult>, dst: Destination, dir: Dir, rec: Recorder, writer: Option<nat>, counter: Counter)
    returns (total: nat, end: End, taken: nat, ghost events: seq<Event>)
    requires rec.Valid()
    modifies Objects(rec.dumps), counter, dst
    ensures rec.dumps == old(rec.dumps) && Captured(rec, old(rec.Model()), writer, dir, Parts(events))
    ensures taken <= |source| && Concat(Parts(events)) <= ReadBytes(source, taken)
    ensures dst.received == old(dst.received) + Concat(Parts(events))
    ensures total == |Concat(Parts(events))| && counter.value == old(counter.value) + total
    ensures end != WriteFailed ==> Concat(Parts(events)) == ReadBytes(source, taken)
    ensures end == WriteFailed ==> dst.calls > old(dst.calls) && Refused(dst.answers(dst.calls - 1))
    ensures end == Drained ==> taken > 0 && source[taken - 1].error == EndOfFile
    ensures end == ReadFailed ==> taken > 0 && source[taken - 1].error == OtherError
    ensures end == StillOpen ==> taken == |source| && (taken > 0 ==> source[taken - 1].error == NoError)
    ensures forall i | 0 <= i < taken - 1 :: source[i].error == NoError
    ensures dst.ended == (old(dst.ended) || end == Drained)
    ensures Run(events).received == Concat(Parts(events)) && Run(events).total == total && Run(events).end == end
  {
    hide Captured, Objects, ReadBytes, InStep, Between, Parts, Relay.Run, Concat;
    ghost var start := rec.Model();
    CapturedNothing(rec, writer, dir);
    StartOfPipe(source);
    total, end, taken, events := 0, StillOpen, 0, [];
    while end == StillOpen && taken < |source|
      invariant taken <= |source| && rec.dumps == old(rec.dumps) && Captured(rec, start, writer, dir, Parts(events))
      invariant Between(Run(events), source, taken, total, end)
      invariant dst.received == old(dst.received) + Run(events).received
      invariant counter.value == old(counter.value) + total && dst.ended == old(dst.ended) && dst.calls >= old(dst.calls)
      invariant end == WriteFailed ==> dst.calls > old(dst.calls) && Refused(dst.answers(dst.calls - 1))
      invariant end == Drained ==> taken > 0 && source[taken - 1].error == EndOfFile
      invariant end == ReadFailed ==> taken > 0 && source[taken - 1].error == OtherError
      invariant end == StillOpen ==> forall i | 0 <= i < taken :: source[i].error == NoError
      invariant forall i | 0 <= i < taken - 1 :: source[i].error == NoError
      decreases end == StillOpen, |source| - taken
    {
      var result := source[taken];
      ReadOneMore(source, taken, total, events);
      events := events + [ReadReturns(result)];
      DeliveryIsExact(events);
      ghost var c0 := Run(events);
      taken := taken + 1;
      var n, ok;
      n, ok, events := Deliver(result.data, dst, dir, rec, writer, counter, start, events);
      DeliveredOne(c0, Run(events), source, taken, result.data, n, ok);
      assert c0.received + result.data[..n] == Run(events).received;
      total := total + n;
      end := if ok then EndOf(result.error) else WriteFailed;
    }
    DeliveryIsExact(events);
    BetweenMeans(Run(events), source, taken, total, end);
    if end == Drained {
      dst.CloseWrite();
    }
  }

  lemma BetweenMeans(c: Copy, source: seq<ReadResult>, n: nat, total: nat, end: End)
    requires n <= |source| && Between(c, source, n, total, end)
    ensures c.received <= ReadBytes(source, n) && total == |c.received| && c.total == total && c.end == end
    ensures end != WriteFailed ==> c.received == ReadBytes(source, n)
  {
  }

  lemma CapturedNothing(rec: Recorder, writer: Option<nat>, dir: Dir)
    requires rec.Valid()
    ensures Captured(rec, rec.Model(), writer, dir, [])
  {
  }
}
