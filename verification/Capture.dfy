/** The captures of internal/proxy/dump.go as values: chunk lists, the record of
    one connection, and what a write and a smaller byte limit do to a record. */
module Capture {
  import opened Streams

  const MAX_CHUNKS := 256

  datatype Dir = In | Out

  datatype Chunk = Chunk(dir: Dir, data: seq<byte>)

  /** What BeginProtocol fixes for the life of a record. */
  datatype Meta = Meta(token: nat, id: nat, remote: string, startedAt: int)

  /** The counters of one direction; the number of captured bytes is the length of the stream. */
  datatype Side = Side(total: int, cut: bool)

  /** The captured traffic of one connection. */
  datatype Tape = Tape(chunks: seq<Chunk>, truncated: bool, metadataFull: bool, inbound: Side, outbound: Side)
  {
    function At(dir: Dir): Side { if dir == In then inbound else outbound }

    function With(dir: Dir, side: Side): Tape {
      if dir == In then this.(inbound := side) else this.(outbound := side)
    }

    function Captured(dir: Dir): seq<byte> { Stream(chunks, dir) }

    /** No later write in this direction is captured any more. */
    predicate Stopped(dir: Dir) { At(dir).cut || metadataFull }
  }

  /** The value of one recordedConn. */
  datatype Rec = Rec(meta: Meta, closed: bool, pinned: bool, findings: nat, riskScore: int, tape: Tape)

  // ----- chunk lists ----------------------------------------------------------

  /** The bytes of one direction, re-joined in order. */
  function Stream(chunks: seq<Chunk>, dir: Dir): seq<byte> {
    if chunks == [] then []
    else
      var last := chunks[|chunks| - 1];
      Stream(chunks[..|chunks| - 1], dir) + (if last.dir == dir then last.data else [])
  }

  lemma StreamSnoc(chunks: seq<Chunk>, c: Chunk, dir: Dir)
    ensures Stream(chunks + [c], dir) == Stream(chunks, dir) + (if c.dir == dir then c.data else [])
  {
    assert (chunks + [c])[..|chunks|] == chunks;
  }

  /** Where captured bytes go: into the last chunk of the same direction, else into a
      new chunk; a datagram always starts a new one. None when no chunk is left. */
  function AppendBytes(chunks: seq<Chunk>, dir: Dir, b: seq<byte>, datagram: bool): Option<seq<Chunk>> {
    var n := |chunks| - 1;
    if !datagram && n >= 0 && chunks[n].dir == dir then
      Some(chunks[..n] + [Chunk(dir, chunks[n].data + b)])
    else if |chunks| >= MAX_CHUNKS then None
    else Some(chunks + [Chunk(dir, b)])
  }

  lemma AppendBytesStream(chunks: seq<Chunk>, dir: Dir, b: seq<byte>, datagram: bool, side: Dir)
    requires AppendBytes(chunks, dir, b, datagram).Some?
    ensures Stream(AppendBytes(chunks, dir, b, datagram).value, side)
         == Stream(chunks, side) + (if side == dir then b else [])
  {
    var n := |chunks| - 1;
    if !datagram && n >= 0 && chunks[n].dir == dir {
      StreamSnoc(chunks[..n], Chunk(dir, chunks[n].data + b), side);
    } else {
      StreamSnoc(chunks, Chunk(dir, b), side);
    }
  }

  /** The part of c that still fits beside what is kept already. */
  function Fitting(kept: seq<Chunk>, c: Chunk, limit: nat): seq<byte> {
    var used := |Stream(kept, c.dir)|;
    if used <= limit then Take(c.data, limit - used) else []
  }

  /** What a smaller byte limit leaves of a chunk list. */
  function TrimChunks(chunks: seq<Chunk>, limit: nat): seq<Chunk> {
    if chunks == [] then []
    else
      var kept := TrimChunks(chunks[..|chunks| - 1], limit);
      var c := chunks[|chunks| - 1];
      var data := Fitting(kept, c, limit);
      if data != [] then kept + [Chunk(c.dir, data)] else kept
  }

  /** Trimming keeps, in each direction separately, exactly the leading bytes. */
  lemma {:induction false} TrimKeepsPrefix(chunks: seq<Chunk>, limit: nat, dir: Dir)
    ensures Stream(TrimChunks(chunks, limit), dir) == Take(Stream(chunks, dir), limit)
  {
    if chunks == [] {
    } else {
      var front, c := chunks[..|chunks| - 1], chunks[|chunks| - 1];
      TrimKeepsPrefix(front, limit, dir);
      var kept, data := TrimChunks(front, limit), Fitting(TrimChunks(front, limit), c, limit);
      StreamSnoc(kept, Chunk(c.dir, data), dir);
      if c.dir == dir {
        TakeConcat(Stream(front, dir), c.data, limit);
      }
      hide Take;
      assert Stream(chunks, dir) == Stream(front, dir) + (if c.dir == dir then c.data else []);
    }
  }

  lemma TakeConcat(a: seq<byte>, b: seq<byte>, n: nat)
    ensures |Take(a, n)| <= n
    ensures Take(a + b, n) == Take(a, n) + Take(b, n - |Take(a, n)|)
  {
  }

  lemma {:induction false} TrimNeverAddsChunks(chunks: seq<Chunk>, limit: nat)
    ensures |TrimChunks(chunks, limit)| <= |chunks|
  {
    if chunks == [] {
    } else {
      TrimNeverAddsChunks(chunks[..|chunks| - 1], limit);
    }
  }

  // ----- one tape -------------------------------------------------------------

  predicate TapeOk(t: Tape, limit: int) {
    && |t.Captured(In)| <= limit
    && |t.Captured(Out)| <= limit
    && |t.chunks| <= MAX_CHUNKS
  }

  /** Store b, a non-empty part of a write; when no chunk is left the whole tape is full. */
  function Keep(t: Tape, dir: Dir, b: seq<byte>, datagram: bool): Tape {
    match AppendBytes(t.chunks, dir, b, datagram)
    case None => t.(truncated := true, metadataFull := true)
    case Some(chunks) => t.(chunks := chunks)
  }

  function CountBytes(t: Tape, dir: Dir, n: nat): Tape {
    t.With(dir, t.At(dir).(total := t.At(dir).total + n))
  }

  function MarkShort(t: Tape, dir: Dir, short: bool): Tape {
    t.With(dir, t.At(dir).(cut := t.At(dir).cut || short)).(truncated := t.truncated || short)
  }

  /** The part of b that a write with this much room captures, if a chunk is left for it. */
  function Room(t: Tape, limit: int, dir: Dir, b: seq<byte>): seq<byte>
    requires TapeOk(t, limit)
  {
    Take(b, limit - |t.Captured(dir)|)
  }

  /** Add b to the tape; what no longer fits sets the flags that stop the capture. */
  function Fit(t: Tape, limit: int, dir: Dir, b: seq<byte>, datagram: bool): Tape
    requires TapeOk(t, limit)
  {
    var data := Room(t, limit, dir, b);
    var marked := MarkShort(t, dir, |data| < |b|);
    if data == [] then marked else Keep(marked, dir, data, datagram)
  }

  /** One write that reached an open record. */
  function WriteTape(t: Tape, limit: int, dir: Dir, b: seq<byte>, datagram: bool): Tape
    requires TapeOk(t, limit)
  {
    var counted := CountBytes(t, dir, |b|);
    if b == [] || t.Stopped(dir) then counted else Fit(counted, limit, dir, b, datagram)
  }

  function TrimSide(side: Side, captured: seq<byte>, limit: nat): Side {
    side.(cut := side.cut || |captured| > limit)
  }

  function TrimTape(t: Tape, limit: nat): Tape {
    if |t.Captured(In)| <= limit && |t.Captured(Out)| <= limit then t
    else Tape(TrimChunks(t.chunks, limit), true, t.metadataFull,
              TrimSide(t.inbound, t.Captured(In), limit), TrimSide(t.outbound, t.Captured(Out), limit))
  }

  lemma KeepCaptures(t: Tape, dir: Dir, b: seq<byte>, datagram: bool, side: Dir)
    requires !t.metadataFull
    ensures Keep(t, dir, b, datagram).Captured(side)
         == t.Captured(side) + (if side == dir && !Keep(t, dir, b, datagram).metadataFull then b else [])
  {
    if AppendBytes(t.chunks, dir, b, datagram).Some? {
      AppendBytesStream(t.chunks, dir, b, datagram, side);
    }
  }

  lemma FitCaptures(t: Tape, limit: int, dir: Dir, b: seq<byte>, datagram: bool, side: Dir)
    requires TapeOk(t, limit) && b != [] && !t.Stopped(dir)
    ensures Fit(t, limit, dir, b, datagram).Captured(side)
         == t.Captured(side) + (if side == dir && !Fit(t, limit, dir, b, datagram).metadataFull
                                then Room(t, limit, dir, b) else [])
  {
    var data := Room(t, limit, dir, b);
    if data != [] {
      KeepCaptures(MarkShort(t, dir, |data| < |b|), dir, data, datagram, side);
    }
  }

  lemma FitBound(t: Tape, limit: int, dir: Dir, b: seq<byte>, datagram: bool, side: Dir)
    requires TapeOk(t, limit) && b != [] && !t.Stopped(dir)
    ensures |Fit(t, limit, dir, b, datagram).Captured(side)| <= limit
    ensures |Fit(t, limit, dir, b, datagram).chunks| <= MAX_CHUNKS
  {
    FitCaptures(t, limit, dir, b, datagram, side);
  }

  lemma WriteOk(t: Tape, limit: int, dir: Dir, b: seq<byte>, datagram: bool)
    requires TapeOk(t, limit)
    ensures TapeOk(WriteTape(t, limit, dir, b, datagram), limit)
  {
    var counted := CountBytes(t, dir, |b|);
    assert TapeOk(counted, limit);
    if !(b == [] || t.Stopped(dir)) {
      assert !counted.Stopped(dir);
      FitBound(counted, limit, dir, b, datagram, In);
      FitBound(counted, limit, dir, b, datagram, Out);
    }
  }

  lemma TrimOk(t: Tape, limit: nat)
    requires |t.chunks| <= MAX_CHUNKS
    ensures TapeOk(TrimTape(t, limit), limit)
  {
    TrimKeepsPrefix(t.chunks, limit, In);
    TrimKeepsPrefix(t.chunks, limit, Out);
    TrimNeverAddsChunks(t.chunks, limit);
  }

  // ----- what was sent and what is captured -----------------------------------

  /** What a writer handed over while its record was open: the bytes of each direction,
      and the writes one by one; `joined` tells that some of them were not datagrams, `parted`
      that some of them were. */
  datatype Sent = Sent(inbound: seq<byte>, outbound: seq<byte>, packets: seq<Chunk>, joined: bool, parted: bool)
  {
    function At(dir: Dir): seq<byte> { if dir == In then inbound else outbound }

    function Add(dir: Dir, b: seq<byte>, datagram: bool): Sent {
      Sent(if dir == In then inbound + b else inbound, if dir == In then outbound else outbound + b,
           if b == [] then packets else packets + [Chunk(dir, b)],
           joined || (b != [] && !datagram), parted || (b != [] && datagram))
    }
  }

  const NOTHING_SENT := Sent([], [], [], false, false)

  /** One direction is a prefix of what was sent, and a proper one only when marked so. */
  predicate FaithfulSide(t: Tape, sent: Sent, dir: Dir) {
    && t.Captured(dir) <= sent.At(dir)
    && (t.At(dir).cut ==> t.Captured(dir) != sent.At(dir))
    && (t.Captured(dir) != sent.At(dir) ==> t.Stopped(dir))
  }

  predicate Complete(t: Tape, sent: Sent) {
    t.Captured(In) == sent.inbound && t.Captured(Out) == sent.outbound
  }

  predicate Faithful(t: Tape, sent: Sent) {
    && FaithfulSide(t, sent, In) && FaithfulSide(t, sent, Out)
    && (t.truncated <==> !Complete(t, sent))
    && (t.metadataFull ==> t.truncated)
    && (!t.truncated && !sent.joined ==> t.chunks == sent.packets)
  }

  /** The flags after fitting b say exactly whether all of b was stored. */
  lemma FitFlags(t: Tape, limit: int, dir: Dir, b: seq<byte>, datagram: bool)
    requires TapeOk(t, limit) && b != [] && !t.Stopped(dir)
    ensures var after := Fit(t, limit, dir, b, datagram);
            && (after.At(dir).cut <==> Room(t, limit, dir, b) != b)
            && (after.truncated <==> t.truncated || after.Stopped(dir))
            && (forall side: Dir | side != dir :: after.At(side) == t.At(side))
  {
  }

  lemma FitIsFaithfulSide(t: Tape, limit: int, dir: Dir, b: seq<byte>, datagram: bool, sent: Sent, side: Dir)
    requires TapeOk(t, limit) && b != [] && !t.Stopped(dir) && Faithful(t, sent)
    ensures FaithfulSide(Fit(t, limit, dir, b, datagram), sent.Add(dir, b, datagram), side)
    ensures var after := Fit(t, limit, dir, b, datagram);
            after.Captured(side) == sent.Add(dir, b, datagram).At(side) <==>
            t.Captured(side) == sent.At(side) && (side == dir ==> !after.Stopped(dir))
  {
    FitCaptures(t, limit, dir, b, datagram, side);
    FitFlags(t, limit, dir, b, datagram);
  }

  lemma FitIsFaithful(t: Tape, limit: int, dir: Dir, b: seq<byte>, datagram: bool, sent: Sent)
    requires TapeOk(t, limit) && b != [] && !t.Stopped(dir) && Faithful(t, sent)
    ensures Faithful(Fit(t, limit, dir, b, datagram), sent.Add(dir, b, datagram))
  {
    FitIsFaithfulSide(t, limit, dir, b, datagram, sent, In);
    FitIsFaithfulSide(t, limit, dir, b, datagram, sent, Out);
    FitFlags(t, limit, dir, b, datagram);
    assert !t.metadataFull;
  }

  /** A write keeps the capture faithful, whatever room and chunks are left. */
  lemma WriteIsFaithful(t: Tape, limit: int, dir: Dir, b: seq<byte>, datagram: bool, sent: Sent)
    requires TapeOk(t, limit) && Faithful(t, sent)
    ensures Faithful(WriteTape(t, limit, dir, b, datagram), sent.Add(dir, b, datagram))
  {
    var counted := CountBytes(t, dir, |b|);
    if b != [] && !t.Stopped(dir) {
      FitIsFaithful(counted, limit, dir, b, datagram, sent);
    }
  }

  /** A smaller byte limit keeps the capture faithful. */
  lemma TrimIsFaithful(t: Tape, limit: nat, sent: Sent)
    requires Faithful(t, sent)
    ensures Faithful(TrimTape(t, limit), sent)
  {
    TrimKeepsPrefix(t.chunks, limit, In);
    TrimKeepsPrefix(t.chunks, limit, Out);
  }

  /** How a tape may change: flags stay, and a stopped direction never grows again. */
  predicate TapeEvolves(before: Tape, after: Tape) {
    && (before.truncated ==> after.truncated)
    && (before.metadataFull ==> after.metadataFull)
    && EvolvesSide(before, after, In) && EvolvesSide(before, after, Out)
  }

  predicate EvolvesSide(before: Tape, after: Tape, dir: Dir) {
    && (before.At(dir).cut ==> after.At(dir).cut)
    && (before.Stopped(dir) ==> after.Captured(dir) <= before.Captured(dir))
  }

  lemma WriteEvolves(t: Tape, limit: int, dir: Dir, b: seq<byte>, datagram: bool)
    requires TapeOk(t, limit)
    ensures TapeEvolves(t, WriteTape(t, limit, dir, b, datagram))
  {
    var counted := CountBytes(t, dir, |b|);
    if !(b == [] || t.Stopped(dir)) {
      FitCaptures(counted, limit, dir, b, datagram, In);
      FitCaptures(counted, limit, dir, b, datagram, Out);
    }
  }

  lemma TrimEvolves(t: Tape, limit: nat)
    ensures TapeEvolves(t, TrimTape(t, limit))
  {
    TrimKeepsPrefix(t.chunks, limit, In);
    TrimKeepsPrefix(t.chunks, limit, Out);
  }
}
