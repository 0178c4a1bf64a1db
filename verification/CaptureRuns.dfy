/** How much a capture holds: which bytes of a write are stored, in which chunk, and what an
    unresized recorder holds of everything a writer was given. */
module CaptureRuns {
  import opened Streams
  import opened Capture
  import opened Store
  import opened StoreRuns

  // ----- one write ------------------------------------------------------------------

  /** A write that cannot go into the last chunk. */
  predicate StartsChunk(chunks: seq<Chunk>, dir: Dir, datagram: bool) {
    datagram || chunks == [] || chunks[|chunks| - 1].dir != dir
  }

  /** How many more bytes of this direction may be stored. */
  function Left(t: Tape, limit: int, dir: Dir): nat {
    if limit > |t.Captured(dir)| then limit - |t.Captured(dir)| else 0
  }

  /** The write would store something in a chunk of its own, and there are 256 already. */
  predicate NoChunkLeft(t: Tape, limit: int, dir: Dir, datagram: bool) {
    Left(t, limit, dir) > 0 && StartsChunk(t.chunks, dir, datagram) && |t.chunks| == 256
  }

  lemma KeptChunks(chunks: seq<Chunk>, dir: Dir, b: seq<byte>, datagram: bool)
    ensures var r := AppendBytes(chunks, dir, b, datagram);
            && (r.None? <==> StartsChunk(chunks, dir, datagram) && |chunks| >= 256)
            && (r.Some? && StartsChunk(chunks, dir, datagram) ==> r.value == chunks + [Chunk(dir, b)])
            && (!StartsChunk(chunks, dir, datagram) ==>
                  var n := |chunks| - 1;
                  r == Some(chunks[..n] + [Chunk(dir, chunks[n].data + b)]))
  {
  }

  lemma RoomIsLeft(t: Tape, limit: int, dir: Dir, b: seq<byte>)
    requires TapeOk(t, limit)
    ensures Room(t, limit, dir, b) == Take(b, Left(t, limit, dir))
    ensures t.Captured(dir) + Take(b, Left(t, limit, dir)) == Take(t.Captured(dir) + b, limit)
    ensures Take(b, Left(t, limit, dir)) != b <==> |t.Captured(dir)| + |b| > limit
    ensures b != [] ==> (Take(b, Left(t, limit, dir)) == [] <==> Left(t, limit, dir) == 0)
    ensures Take(t.Captured(dir), limit) == t.Captured(dir)
  {
  }

  lemma FitMeans(t: Tape, limit: int, dir: Dir, b: seq<byte>, datagram: bool)
    requires TapeOk(t, limit) && b != [] && !t.Stopped(dir)
    ensures Fit(t, limit, dir, b, datagram).metadataFull <==> NoChunkLeft(t, limit, dir, datagram)
  {
    KeptChunks(t.chunks, dir, Room(t, limit, dir, b), datagram);
    hide Stream;
  }

  /** A write to a direction that is not stopped stores the first bytes that fit under the limit,
      unless no chunk is left, which stops the whole capture; the other direction stays as it is. */
  lemma WriteStoresWhatFits(t: Tape, limit: int, dir: Dir, b: seq<byte>, datagram: bool)
    requires TapeOk(t, limit) && b != [] && !t.At(dir).cut && !t.metadataFull
    ensures var after := WriteTape(t, limit, dir, b, datagram);
            && (after.metadataFull <==> NoChunkLeft(t, limit, dir, datagram))
            && after.Captured(dir) == (if NoChunkLeft(t, limit, dir, datagram) then t.Captured(dir)
                                       else Take(t.Captured(dir) + b, limit))
            && (forall side: Dir | side != dir :: after.Captured(side) == t.Captured(side))
            && (after.At(dir).cut <==> |t.Captured(dir)| + |b| > limit)
  {
    hide Stream, Fit, Room, Take, NoChunkLeft;
    var counted := CountBytes(t, dir, |b|);
    Counted(t, limit, dir, b, datagram);
    FitMeans(counted, limit, dir, b, datagram);
    FitCaptures(counted, limit, dir, b, datagram, In);
    FitCaptures(counted, limit, dir, b, datagram, Out);
    FitFlags(counted, limit, dir, b, datagram);
    RoomIsLeft(t, limit, dir, b);
    RoomIsLeft(counted, limit, dir, b);
  }

  lemma Counted(t: Tape, limit: int, dir: Dir, b: seq<byte>, datagram: bool)
    ensures var counted := CountBytes(t, dir, |b|);
            && (forall side: Dir :: counted.Captured(side) == t.Captured(side) && counted.At(side).cut == t.At(side).cut)
            && counted.metadataFull == t.metadataFull
            && NoChunkLeft(counted, limit, dir, datagram) == NoChunkLeft(t, limit, dir, datagram)
  {
  }

  /** It joins the last chunk when that is of its direction and it is not a datagram, and makes a
      chunk of its own otherwise. */
  lemma WriteMakesChunks(t: Tape, limit: int, dir: Dir, b: seq<byte>, datagram: bool)
    requires TapeOk(t, limit) && b != [] && !t.At(dir).cut && !t.metadataFull
    ensures var after := WriteTape(t, limit, dir, b, datagram);
            var stored := Take(b, Left(t, limit, dir));
            var n := |t.chunks| - 1;
            after.chunks ==
              if stored == [] || NoChunkLeft(t, limit, dir, datagram) then t.chunks
              else if StartsChunk(t.chunks, dir, datagram) then t.chunks + [Chunk(dir, stored)]
              else t.chunks[..n] + [Chunk(dir, t.chunks[n].data + stored)]
  {
    hide Stream;
    KeptChunks(t.chunks, dir, Take(b, Left(t, limit, dir)), datagram);
  }

  /** A write to a stopped direction is only counted. */
  lemma StoppedWriteStoresNothing(t: Tape, limit: int, dir: Dir, b: seq<byte>, datagram: bool)
    requires TapeOk(t, limit) && (t.At(dir).cut || t.metadataFull)
    ensures var after := WriteTape(t, limit, dir, b, datagram);
            && after.chunks == t.chunks && after.metadataFull == t.metadataFull && after.truncated == t.truncated
            && forall side: Dir :: after.At(side).cut == t.At(side).cut
  {
  }

  // ----- everything a writer was given ------------------------------------------------

  /** Neighbouring chunks belong to different directions. */
  predicate Alternates(chunks: seq<Chunk>) {
    forall i | 0 < i < |chunks| :: chunks[i - 1].dir != chunks[i].dir
  }

  /** One direction holds the first bytes up to the limit of everything that was sent. */
  predicate ExactSide(t: Tape, sent: Sent, limit: nat, dir: Dir) {
    t.Captured(dir) == Take(sent.At(dir), limit) && (t.At(dir).cut <==> |sent.At(dir)| > limit)
  }

  /** As long as chunks are left both directions are exact; the chunks run out only when 256 of them
      are filled, and those of a connection without datagrams change direction every time. */
  predicate Exact(t: Tape, sent: Sent, limit: nat) {
    && (!t.metadataFull ==> ExactSide(t, sent, limit, In) && ExactSide(t, sent, limit, Out))
    && (t.metadataFull ==> |t.chunks| == 256)
    && (!sent.parted ==> Alternates(t.chunks))
  }

  lemma TakeMore(a: seq<byte>, b: seq<byte>, limit: nat)
    ensures |a| <= limit ==> Take(Take(a, limit) + b, limit) == Take(a + b, limit)
    ensures |a| > limit ==> Take(a + b, limit) == Take(a, limit)
    ensures |Take(a, limit)| == if |a| > limit then limit else |a|
  {
  }

  lemma ExactAfterWrite(t: Tape, limit: nat, dir: Dir, b: seq<byte>, datagram: bool, sent: Sent)
    requires TapeOk(t, limit) && Exact(t, sent, limit)
    ensures var after, more := WriteTape(t, limit, dir, b, datagram), sent.Add(dir, b, datagram);
            !after.metadataFull ==> ExactSide(after, more, limit, In) && ExactSide(after, more, limit, Out)
  {
    if b == [] {
      assert sent.At(dir) + b == sent.At(dir);
    } else if t.At(dir).cut || t.metadataFull {
      StoppedWriteStoresNothing(t, limit, dir, b, datagram);
      TakeMore(sent.At(dir), b, limit);
    } else {
      WriteStoresWhatFits(t, limit, dir, b, datagram);
      OtherCut(t, limit, dir, b, datagram);
      TakeMore(sent.At(dir), b, limit);
      hide WriteTape, Stream, Take, TapeOk;
    }
  }

  lemma OtherCut(t: Tape, limit: int, dir: Dir, b: seq<byte>, datagram: bool)
    requires TapeOk(t, limit)
    ensures forall side: Dir | side != dir :: WriteTape(t, limit, dir, b, datagram).At(side).cut == t.At(side).cut
  {
  }

  lemma AlternatesMore(chunks: seq<Chunk>, c: Chunk)
    requires Alternates(chunks)
    ensures chunks == [] || chunks[|chunks| - 1].dir != c.dir ==> Alternates(chunks + [c])
    ensures chunks != [] && chunks[|chunks| - 1].dir == c.dir ==> Alternates(chunks[..|chunks| - 1] + [c])
  {
  }

  lemma FullAfterWrite(t: Tape, limit: nat, dir: Dir, b: seq<byte>, datagram: bool)
    requires TapeOk(t, limit) && b != [] && !t.At(dir).cut && !t.metadataFull
    ensures var after := WriteTape(t, limit, dir, b, datagram); after.metadataFull ==> |after.chunks| == 256
  {
    hide WriteTape, Stream, Take, TapeOk;
    WriteStoresWhatFits(t, limit, dir, b, datagram);
    WriteMakesChunks(t, limit, dir, b, datagram);
  }

  lemma WriteAlternates(t: Tape, limit: nat, dir: Dir, b: seq<byte>)
    requires TapeOk(t, limit) && b != [] && !t.At(dir).cut && !t.metadataFull && Alternates(t.chunks)
    ensures Alternates(WriteTape(t, limit, dir, b, false).chunks)
  {
    hide WriteTape, Stream, Take, TapeOk, Alternates, Left;
    WriteMakesChunks(t, limit, dir, b, false);
    var stored := Take(b, Left(t, limit, dir));
    if StartsChunk(t.chunks, dir, false) {
      AlternatesMore(t.chunks, Chunk(dir, stored));
    } else {
      AlternatesMore(t.chunks, Chunk(dir, t.chunks[|t.chunks| - 1].data + stored));
    }
  }

  lemma ChunksAfterWrite(t: Tape, limit: nat, dir: Dir, b: seq<byte>, datagram: bool, sent: Sent)
    requires TapeOk(t, limit) && Exact(t, sent, limit)
    ensures var after, more := WriteTape(t, limit, dir, b, datagram), sent.Add(dir, b, datagram);
            && (after.metadataFull ==> |after.chunks| == 256)
            && (!more.parted ==> Alternates(after.chunks))
  {
    hide WriteTape, Stream, Take, TapeOk, ExactSide, Alternates;
    if b == [] {
      NothingWritten(t, limit, dir, datagram);
    } else if t.At(dir).cut || t.metadataFull {
      StoppedWriteStoresNothing(t, limit, dir, b, datagram);
    } else {
      FullAfterWrite(t, limit, dir, b, datagram);
      if !sent.parted && !datagram { WriteAlternates(t, limit, dir, b); }
    }
  }

  lemma NothingWritten(t: Tape, limit: int, dir: Dir, datagram: bool)
    requires TapeOk(t, limit)
    ensures WriteTape(t, limit, dir, [], datagram) == t
  {
  }

  lemma WriteStaysExact(t: Tape, limit: nat, dir: Dir, b: seq<byte>, datagram: bool, sent: Sent)
    requires TapeOk(t, limit) && Exact(t, sent, limit)
    ensures Exact(WriteTape(t, limit, dir, b, datagram), sent.Add(dir, b, datagram), limit)
  {
    hide WriteTape, ExactSide, Alternates, TapeOk;
    ExactAfterWrite(t, limit, dir, b, datagram, sent);
    ChunksAfterWrite(t, limit, dir, b, datagram, sent);
  }

  // ----- runs without a resize ----------------------------------------------------------

  ghost predicate AllExact(w: World) {
    && w.store.maxBytesPer > 0
    && forall d | d in w.store.dumps :: Exact(d.tape, SentBy(w.sent, d.meta.token), w.store.maxBytesPer)
  }

  lemma UpdateStaysExact(w: World, i: nat, e: Rec)
    requires AllExact(w) && i < |w.store.dumps|
    requires Exact(e.tape, SentBy(w.sent, e.meta.token), w.store.maxBytesPer)
    ensures AllExact(w.(store := w.store.(dumps := w.store.dumps[i := e])))
  {
    hide Exact;
    var dumps := w.store.dumps[i := e];
    forall d | d in dumps ensures Exact(d.tape, SentBy(w.sent, d.meta.token), w.store.maxBytesPer) {
      var j :| 0 <= j < |dumps| && dumps[j] == d;
      assert w.store.dumps[j] in w.store.dumps;
    }
  }

  lemma ExactWithTotals(t: Tape, sent: Sent, limit: nat, bytesIn: int, bytesOut: int)
    requires Exact(t, sent, limit)
    ensures Exact(SetTotals(t, bytesIn, bytesOut), sent, limit)
  {
  }

  lemma FinishStaysExact(w: World, token: nat, bytesIn: int, bytesOut: int)
    requires AllExact(w)
    ensures AllExact(w.(store := Finish(w.store, token, bytesIn, bytesOut)))
  {
    hide Exact, AllExact;
    var i := FindOpen(w.store.dumps, token);
    if i < |w.store.dumps| {
      var d := w.store.dumps[i];
      ExactAt(w, i);
      ExactWithTotals(d.tape, SentBy(w.sent, d.meta.token), w.store.maxBytesPer, bytesIn, bytesOut);
      UpdateStaysExact(w, i, d.(closed := true, tape := SetTotals(d.tape, bytesIn, bytesOut)));
    }
  }

  lemma ExactAt(w: World, i: nat)
    requires AllExact(w) && i < |w.store.dumps|
    ensures w.store.maxBytesPer > 0
    ensures Exact(w.store.dumps[i].tape, SentBy(w.sent, w.store.dumps[i].meta.token), w.store.maxBytesPer)
  {
  }

  lemma FlagsStayExact(w: World, id: nat, pinned: bool, score: int, pin: bool)
    requires AllExact(w)
    ensures AllExact(w.(store := SetPinned(w.store, id, pinned)))
    ensures AllExact(w.(store := MarkFinding(w.store, id, score, pin)))
  {
    hide Exact, AllExact;
    var i := FindId(w.store.dumps, id);
    if i < |w.store.dumps| {
      ExactAt(w, i);
      UpdateStaysExact(w, i, w.store.dumps[i].(pinned := pinned));
      UpdateStaysExact(w, i, Marked(w.store.dumps[i], score, pin));
    }
  }

  lemma NewIsExact(token: nat, id: nat, remote: string, startedAt: int, limit: nat)
    ensures Exact(NewRec(token, id, remote, startedAt).tape, NOTHING_SENT, limit)
  {
  }

  lemma ListStaysExact(w: World, op: Op)
    requires WorldOk(w) && AllExact(w) && (op.OpBegin? || op.OpClear? || op.OpClearAll?)
    ensures AllExact(Step(w, op))
  {
    hide Exact;
    match op
    case OpBegin(id, remote, at) =>
      if MakeRoom(w.store, id).Some? {
        MakeRoomOk(w.store, id);
        NewIsExact(w.store.sequence + 1, id, remote, at, w.store.maxBytesPer);
        assert SentBy(w.sent, w.store.sequence + 1) == NOTHING_SENT;
      }
    case OpClear => FilterPart(w.store.dumps, IsPinned);
    case OpClearAll =>
  }

  lemma WrittenIsExact(w: World, op: Op)
    requires WorldOk(w) && AllExact(w) && op.OpWrite? && Open(w.store, op.token)
    ensures var i, next := FindOpen(w.store.dumps, op.token), Step(w, op);
            Exact(next.store.dumps[i].tape, SentBy(next.sent, op.token), w.store.maxBytesPer)
  {
    hide Exact, WriteTape;
    var d := w.store.dumps[FindOpen(w.store.dumps, op.token)];
    assert Fits(d, w.store.sequence, w.store.maxBytesPer);
    WriteStaysExact(d.tape, w.store.maxBytesPer, op.dir, op.data, op.datagram, SentBy(w.sent, op.token));
  }

  lemma OtherIsExact(w: World, op: Op, i: nat)
    requires WorldOk(w) && AllExact(w) && op.OpWrite? && Open(w.store, op.token)
    requires i < |w.store.dumps| && i != FindOpen(w.store.dumps, op.token)
    ensures var next := Step(w, op);
            i < |next.store.dumps|
            && Exact(next.store.dumps[i].tape, SentBy(next.sent, next.store.dumps[i].meta.token), w.store.maxBytesPer)
  {
    hide Exact, WriteTape, WorldOk, StoreOk, AllExact;
    HasStoreOk(w);
    OtherToken(w.store, op.token, i);
    ExactAt(w, i);
  }

  lemma WriteKeepsExact(w: World, op: Op)
    requires WorldOk(w) && AllExact(w) && op.OpWrite?
    ensures AllExact(Step(w, op))
  {
    hide Exact, WriteTape, WorldOk, StoreOk, AllFaithful;
    HasStoreOk(w);
    if Open(w.store, op.token) {
      WrittenIsExact(w, op);
      var next, open := Step(w, op), FindOpen(w.store.dumps, op.token);
      forall i | 0 <= i < |next.store.dumps|
        ensures Exact(next.store.dumps[i].tape, SentBy(next.sent, next.store.dumps[i].meta.token), w.store.maxBytesPer)
      {
        if i != open { OtherIsExact(w, op, i); }
      }
    }
  }

  lemma HasStoreOk(w: World)
    requires WorldOk(w)
    ensures StoreOk(w.store)
  {
  }

  lemma OtherToken(s: State, token: nat, i: nat)
    requires StoreOk(s) && Open(s, token) && i < |s.dumps| && i != FindOpen(s.dumps, token)
    ensures s.dumps[i].meta.token != token
  {
  }

  lemma StepStaysExact(w: World, op: Op)
    requires WorldOk(w) && StoreOk(w.store) && AllExact(w) && !op.OpResize?
    ensures AllExact(Step(w, op))
  {
    hide WorldOk, StoreOk, AllExact;
    match op
    case OpWrite(_, _, _, _) => WriteKeepsExact(w, op);
    case OpBegin(_, _, _) => ListStaysExact(w, op);
    case OpClear => ListStaysExact(w, op);
    case OpClearAll => ListStaysExact(w, op);
    case OpFinish(token, bytesIn, bytesOut) => FinishStaysExact(w, token, bytesIn, bytesOut);
    case OpSetPinned(id, pinned) => FlagsStayExact(w, id, pinned, 0, false);
    case OpMarkFinding(id, score, pin) => FlagsStayExact(w, id, false, score, pin);
  }

  lemma {:induction false} RunStaysExact(w: World, ops: seq<Op>)
    requires WorldOk(w) && StoreOk(w.store) && AllExact(w) && forall i | 0 <= i < |ops| :: !ops[i].OpResize?
    ensures AllExact(Run(w, ops))
    decreases |ops|
  {
    hide WorldOk, AllExact, Step, StoreOk;
    if ops == [] {
    } else {
      StepWorldOk(w, ops[0]);
      StepStaysExact(w, ops[0]);
      RunStaysExact(Step(w, ops[0]), ops[1..]);
    }
  }

  /** In every run without a resize every record holds, of each direction, exactly the first bytes up
      to the limit of what its writer was given while it was open, unless its chunks have run
      out; that happens only at 256 chunks, which without datagrams means as many changes of
      direction. */
  lemma CapturesAreTheFirstBytes(maxConns: int, maxBytesPer: int, ops: seq<Op>, d: Rec)
    requires forall i | 0 <= i < |ops| :: !ops[i].OpResize?
    requires d in Run(NewWorld(maxConns, maxBytesPer), ops).store.dumps
    ensures var sent := SentBy(Run(NewWorld(maxConns, maxBytesPer), ops).sent, d.meta.token);
            var limit := if maxBytesPer > 0 then maxBytesPer else 65536;
            && (!d.tape.metadataFull ==>
                  d.tape.Captured(In) == Take(sent.inbound, limit) && d.tape.Captured(Out) == Take(sent.outbound, limit))
            && (d.tape.metadataFull ==> |d.tape.chunks| == 256)
            && (!sent.parted ==> Alternates(d.tape.chunks))
  {
    var w := NewWorld(maxConns, maxBytesPer);
    RunStaysExact(w, ops);
    LimitStays(w, ops);
    hide Run, Step, Alternates;
    assert Exact(d.tape, SentBy(Run(w, ops).sent, d.meta.token), Run(w, ops).store.maxBytesPer);
  }

  /** In every run without a resize there are never more records than the limit allows, 50 when none is
      given. */
  lemma RecordsAreLimited(maxConns: int, maxBytesPer: int, ops: seq<Op>)
    requires forall i | 0 <= i < |ops| :: !ops[i].OpResize?
    ensures |Run(NewWorld(maxConns, maxBytesPer), ops).store.dumps| <= if maxConns > 0 then maxConns else 50
  {
    var w := NewWorld(maxConns, maxBytesPer);
    RunKeepsWorldOk(w, ops);
    LimitStays(w, ops);
    hide Run, AllFaithful, Ordered, OneRecordPerId, Fits;
  }

  lemma {:induction false} LimitStays(w: World, ops: seq<Op>)
    requires StoreOk(w.store) && forall i | 0 <= i < |ops| :: !ops[i].OpResize?
    ensures Run(w, ops).store.maxBytesPer == w.store.maxBytesPer && Run(w, ops).store.maxConns == w.store.maxConns
    decreases |ops|
  {
    hide StoreOk, Step;
    if ops == [] {
    } else {
      LimitStep(w, ops[0]);
      LimitStays(Step(w, ops[0]), ops[1..]);
    }
  }

  lemma LimitStep(w: World, op: Op)
    requires StoreOk(w.store) && !op.OpResize?
    ensures Step(w, op).store.maxBytesPer == w.store.maxBytesPer && Step(w, op).store.maxConns == w.store.maxConns
  {
  }
}
