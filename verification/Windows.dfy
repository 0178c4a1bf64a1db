/** The sliding window of internal/proxy/detect.go: what a bounded suffix of a stream, looked
    at only between chunks, can and cannot find. */
module Windows {
  import opened Streams

  /** The buffer of one direction after these chunks: never more than the last `size` bytes. */
  function Window(chunks: seq<seq<byte>>, size: nat): seq<byte> {
    if chunks == [] then []
    else TakeLast(Window(chunks[..|chunks| - 1], size) + chunks[|chunks| - 1], size)
  }

  lemma TakeLastTwice(s: seq<byte>, b: seq<byte>, size: nat)
    ensures TakeLast(TakeLast(s, size) + b, size) == TakeLast(s + b, size)
  {
  }

  /** The buffer is exactly the last `size` bytes of the whole stream. */
  lemma {:induction false} WindowIsSuffix(chunks: seq<seq<byte>>, size: nat)
    ensures Window(chunks, size) == TakeLast(Concat(chunks), size)
  {
    if chunks == [] {
    } else {
      var front := chunks[..|chunks| - 1];
      WindowIsSuffix(front, size);
      TakeLastTwice(Concat(front), chunks[|chunks| - 1], size);
    }
  }

  /** With a size that changes on the way the buffer is still a suffix of the stream. */
  lemma SuffixStays(buffer: seq<byte>, stream: seq<byte>, data: seq<byte>, size: nat)
    requires IsSuffix(buffer, stream)
    ensures IsSuffix(TakeLast(buffer + data, size), stream + data)
    ensures |TakeLast(buffer + data, size)| == Min(|buffer| + |data|, size)
  {
  }

  // ----- looking between chunks -------------------------------------------------

  /** Some look at the buffer, after one of the chunks, found the needle. */
  predicate Seen(chunks: seq<seq<byte>>, needle: seq<byte>, size: nat) {
    chunks != []
    && (Seen(chunks[..|chunks| - 1], needle, size) || Occurs(needle, Window(chunks, size)))
  }

  /** The stream positions after each chunk. */
  function Cuts(chunks: seq<seq<byte>>): seq<nat> {
    if chunks == [] then [] else Cuts(chunks[..|chunks| - 1]) + [|Concat(chunks)|]
  }

  /** The occurrence at p lies inside the buffer when the stream has come to the cut. */
  predicate Inside(p: nat, n: nat, cut: nat, size: nat) { p + n <= cut <= p + size }

  predicate SeenAt(stream: seq<byte>, cuts: seq<nat>, needle: seq<byte>, size: nat, p: nat) {
    OccursAt(needle, stream, p) && exists cut | cut in cuts :: Inside(p, |needle|, cut, size)
  }

  predicate SeenIn(stream: seq<byte>, cuts: seq<nat>, needle: seq<byte>, size: nat) {
    exists p: nat | p <= |stream| :: SeenAt(stream, cuts, needle, size, p)
  }

  lemma OccursInSuffix(needle: seq<byte>, s: seq<byte>, size: nat)
    ensures Occurs(needle, TakeLast(s, size)) <==>
      exists p: nat | p <= |s| :: OccursAt(needle, s, p) && |s| <= p + size
  {
    var drop := if size < |s| then |s| - size else 0;
    if Occurs(needle, TakeLast(s, size)) {
      var i: nat :| i <= |TakeLast(s, size)| && OccursAt(needle, TakeLast(s, size), i);
      assert s[i + drop..i + drop + |needle|] == TakeLast(s, size)[i..i + |needle|];
      assert OccursAt(needle, s, i + drop);
    }
    if p: nat :| p <= |s| && OccursAt(needle, s, p) && |s| <= p + size {
      assert s[p..p + |needle|] == TakeLast(s, size)[p - drop..p - drop + |needle|];
      assert OccursAt(needle, TakeLast(s, size), p - drop);
    }
  }

  lemma {:induction false} CutsInStream(chunks: seq<seq<byte>>)
    ensures |Cuts(chunks)| == |chunks|
    ensures forall cut | cut in Cuts(chunks) :: cut <= |Concat(chunks)|
    ensures chunks != [] ==> Cuts(chunks)[|chunks| - 1] == |Concat(chunks)|
  {
    if chunks == [] {
    } else {
      CutsInStream(chunks[..|chunks| - 1]);
    }
  }

  lemma OccursAtLonger(needle: seq<byte>, s: seq<byte>, b: seq<byte>, p: nat)
    requires p + |needle| <= |s|
    ensures OccursAt(needle, s + b, p) <==> OccursAt(needle, s, p)
  {
    assert (s + b)[p..p + |needle|] == s[p..p + |needle|];
  }

  /** One more chunk adds one more look. */
  lemma SeenInSnoc(s: seq<byte>, b: seq<byte>, cuts: seq<nat>, needle: seq<byte>, size: nat)
    requires forall cut | cut in cuts :: cut <= |s|
    ensures SeenIn(s + b, cuts + [|s + b|], needle, size) <==>
      SeenIn(s, cuts, needle, size) || Occurs(needle, TakeLast(s + b, size))
  {
    var t, more := s + b, cuts + [|s + b|];
    OccursInSuffix(needle, t, size);
    if p: nat :| p <= |t| && SeenAt(t, more, needle, size, p) {
      var cut :| cut in more && Inside(p, |needle|, cut, size);
      if cut in cuts {
        OccursAtLonger(needle, s, b, p);
        assert SeenAt(s, cuts, needle, size, p);
      }
    }
    if p: nat :| p <= |s| && SeenAt(s, cuts, needle, size, p) {
      OccursAtLonger(needle, s, b, p);
      var cut :| cut in cuts && Inside(p, |needle|, cut, size);
      assert cut in more;
      assert SeenAt(t, more, needle, size, p);
    }
    if p: nat :| p <= |t| && OccursAt(needle, t, p) && |t| <= p + size {
      assert |t| in more && Inside(p, |needle|, |t|, size);
      assert SeenAt(t, more, needle, size, p);
    }
  }

  /** What the looks between chunks find, said of the stream alone: an occurrence is found if
      and only if it is still inside the buffer at some cut. */
  lemma {:induction false} SeenIsSeenIn(chunks: seq<seq<byte>>, needle: seq<byte>, size: nat)
    ensures Seen(chunks, needle, size) <==> SeenIn(Concat(chunks), Cuts(chunks), needle, size)
  {
    if chunks == [] {
      assert forall p: nat :: !SeenAt([], [], needle, size, p);
    } else {
      var front, last := chunks[..|chunks| - 1], chunks[|chunks| - 1];
      SeenIsSeenIn(front, needle, size);
      CutsInStream(front);
      WindowIsSuffix(chunks, size);
      SeenInSnoc(Concat(front), last, Cuts(front), needle, size);
    }
  }

  // ----- when nothing is missed -----------------------------------------------------

  function ChunkStart(cuts: seq<nat>, i: nat): nat
    requires i < |cuts|
  {
    if i == 0 then 0 else cuts[i - 1]
  }

  /** Strictly increasing cuts of a stream, the last one at its end: no chunk is empty. */
  predicate CutsOk(cuts: seq<nat>, length: nat) {
    && (forall i, j | 0 <= i < j < |cuts| :: cuts[i] < cuts[j])
    && (cuts != [] ==> cuts[0] > 0)
    && (if cuts == [] then length == 0 else cuts[|cuts| - 1] == length)
  }

  /** No chunk, together with what a needle of n bytes may need from before it, is more than the
      buffer holds; n is positive. */
  predicate NeverTooWide(cuts: seq<nat>, n: nat, size: nat) {
    forall i | 0 <= i < |cuts| :: n <= cuts[i] ==> Min(cuts[i], cuts[i] - ChunkStart(cuts, i) + n - 1) <= size
  }

  /** The first cut at or after position e. */
  lemma {:induction false} FirstCut(cuts: seq<nat>, length: nat, e: nat) returns (i: nat)
    requires CutsOk(cuts, length) && 0 < e <= length
    ensures i < |cuts| && ChunkStart(cuts, i) < e <= cuts[i]
  {
    i := 0;
    while cuts[i] < e
      invariant i < |cuts| && ChunkStart(cuts, i) < e
      decreases |cuts| - i
    {
      i := i + 1;
    }
  }

  lemma NothingIsMissed(stream: seq<byte>, cuts: seq<nat>, needle: seq<byte>, size: nat)
    requires CutsOk(cuts, |stream|) && needle != [] && NeverTooWide(cuts, |needle|, size)
    ensures SeenIn(stream, cuts, needle, size) <==> Occurs(needle, stream)
  {
    if p: nat :| p <= |stream| && OccursAt(needle, stream, p) {
      var i := FirstCut(cuts, |stream|, p + |needle|);
      assert cuts[i] in cuts && Inside(p, |needle|, cuts[i], size);
      assert SeenAt(stream, cuts, needle, size, p);
    }
  }

  /** A byte that is neither of these two. */
  function Filler(a: byte, b: byte): (f: byte)
    ensures f != a && f != b
  {
    if a != 0 && b != 0 then 0 else if a != 1 && b != 1 then 1 else 2
  }

  /** A stream of this length whose only occurrence of the needle is at p. */
  function Planted(needle: seq<byte>, p: nat, length: nat): seq<byte>
    requires needle != [] && p + |needle| <= length
  {
    var f := Filler(needle[0], needle[|needle| - 1]);
    seq(length, i requires 0 <= i < length => if p <= i < p + |needle| then needle[i - p] else f)
  }

  lemma PlantedOnce(needle: seq<byte>, p: nat, length: nat, q: nat)
    requires needle != [] && p + |needle| <= length
    ensures OccursAt(needle, Planted(needle, p, length), q) <==> q == p
  {
    var s := Planted(needle, p, length);
    if OccursAt(needle, s, q) {
      assert s[q] == needle[0] by { assert s[q..q + |needle|][0] == s[q]; }
      assert s[q + |needle| - 1] == needle[|needle| - 1] by { assert s[q..q + |needle|][|needle| - 1] == s[q + |needle| - 1]; }
    }
    assert s[p..p + |needle|] == needle;
  }

  /** Where a chunk is too wide, some stream with these cuts hides its only occurrence there. */
  lemma WideChunkHides(cuts: seq<nat>, length: nat, needle: seq<byte>, size: nat, i: nat) returns (stream: seq<byte>)
    requires CutsOk(cuts, length) && needle != [] && i < |cuts| && |needle| <= cuts[i]
    requires Min(cuts[i], cuts[i] - ChunkStart(cuts, i) + |needle| - 1) > size
    ensures |stream| == length && Occurs(needle, stream) && !SeenIn(stream, cuts, needle, size)
  {
    var n, start := |needle|, ChunkStart(cuts, i);
    var p := if start + 1 < n then 0 else start + 1 - n;
    CutsGrow(cuts, length, i);
    stream := Planted(needle, p, length);
    forall q: nat | q <= |stream| ensures !SeenAt(stream, cuts, needle, size, q) {
      PlantedOnce(needle, p, length, q);
      if q == p {
        forall cut | cut in cuts ensures !Inside(p, n, cut, size) {
          var j :| 0 <= j < |cuts| && cuts[j] == cut;
          CutsGrow(cuts, length, j);
        }
      }
    }
    PlantedOnce(needle, p, length, p);
    assert OccursAt(needle, stream, p);
  }

  lemma CutsGrow(cuts: seq<nat>, length: nat, i: nat)
    requires CutsOk(cuts, length) && i < |cuts|
    ensures ChunkStart(cuts, i) < cuts[i] <= length
    ensures forall j | 0 <= j < i :: cuts[j] <= ChunkStart(cuts, i)
    ensures forall j | i < j < |cuts| :: cuts[i] < cuts[j]
  {
    assert i < |cuts| - 1 ==> cuts[i] < cuts[|cuts| - 1];
  }

  /** For given cuts the looks between chunks find the needle in every stream that contains it,
      whatever its bytes, if and only if no chunk is too wide. */
  lemma CompleteIffNeverTooWide(cuts: seq<nat>, length: nat, needle: seq<byte>, size: nat)
    requires CutsOk(cuts, length) && needle != []
    ensures (forall stream: seq<byte> | |stream| == length :: SeenIn(stream, cuts, needle, size) <==> Occurs(needle, stream))
        <==> NeverTooWide(cuts, |needle|, size)
  {
    if NeverTooWide(cuts, |needle|, size) {
      forall stream: seq<byte> | |stream| == length
        ensures SeenIn(stream, cuts, needle, size) <==> Occurs(needle, stream)
      {
        NothingIsMissed(stream, cuts, needle, size);
      }
    } else {
      var i :| 0 <= i < |cuts| && |needle| <= cuts[i] && Min(cuts[i], cuts[i] - ChunkStart(cuts, i) + |needle| - 1) > size;
      var stream := WideChunkHides(cuts, length, needle, size, i);
      assert !(SeenIn(stream, cuts, needle, size) <==> Occurs(needle, stream));
    }
  }

  lemma NarrowEnough(cuts: seq<nat>, chunks: seq<seq<byte>>, n: nat, size: nat)
    requires CutBy(cuts, chunks) && forall i | 0 <= i < |chunks| :: |chunks[i]| + n - 1 <= size
    ensures NeverTooWide(cuts, n, size)
  {
    forall i | 0 <= i < |cuts| ensures Min(cuts[i], cuts[i] - ChunkStart(cuts, i) + n - 1) <= size {
      assert |chunks[i]| + n - 1 <= size;
    }
  }

  /** In particular nothing is missed when every chunk, with all but one byte of a needle, fits. */
  lemma SmallChunksMissNothing(chunks: seq<seq<byte>>, needle: seq<byte>, size: nat)
    requires needle != [] && forall i | 0 <= i < |chunks| :: chunks[i] != [] && |chunks[i]| + |needle| - 1 <= size
    ensures Seen(chunks, needle, size) <==> Occurs(needle, Concat(chunks))
  {
    SeenIsSeenIn(chunks, needle, size);
    CutsOfChunks(chunks);
    hide SeenIn, Occurs, Cuts, Concat, Seen, CutsOk, CutBy, NeverTooWide;
    NarrowEnough(Cuts(chunks), chunks, |needle|, size);
    NothingIsMissed(Concat(chunks), Cuts(chunks), needle, size);
  }

  /** Non-empty chunks cut their stream properly, and the cuts give back their lengths. */
  predicate CutBy(cuts: seq<nat>, chunks: seq<seq<byte>>) {
    |cuts| == |chunks| && forall i {:trigger chunks[i]} | 0 <= i < |chunks| :: cuts[i] - ChunkStart(cuts, i) == |chunks[i]|
  }

  lemma CutBySnoc(cuts: seq<nat>, length: nat, chunks: seq<seq<byte>>, b: seq<byte>)
    requires CutsOk(cuts, length) && CutBy(cuts, chunks) && b != []
    ensures CutsOk(cuts + [length + |b|], length + |b|)
    ensures CutBy(cuts + [length + |b|], chunks + [b])
  {
    var more, all := cuts + [length + |b|], chunks + [b];
    SnocGrows(cuts, length, length + |b|);
    hide CutsOk;
    forall i {:trigger all[i]} | 0 <= i < |all| ensures more[i] - ChunkStart(more, i) == |all[i]| {
      if i < |cuts| {
        assert chunks[i] == all[i] && more[i] == cuts[i] && ChunkStart(more, i) == ChunkStart(cuts, i);
      } else {
        LastCut(cuts, length);
      }
    }
  }

  lemma LastCut(cuts: seq<nat>, length: nat)
    requires CutsOk(cuts, length)
    ensures length == if cuts == [] then 0 else cuts[|cuts| - 1]
  {
  }

  lemma SnocGrows(cuts: seq<nat>, length: nat, next: nat)
    requires CutsOk(cuts, length) && length < next
    ensures CutsOk(cuts + [next], next)
  {
    var more := cuts + [next];
    forall i, j | 0 <= i < j < |more| ensures more[i] < more[j] {
      if j == |cuts| {
        assert i < |cuts| - 1 ==> cuts[i] < cuts[|cuts| - 1];
      }
    }
  }

  lemma {:induction false} CutsOfChunks(chunks: seq<seq<byte>>)
    requires forall i | 0 <= i < |chunks| :: chunks[i] != []
    ensures CutsOk(Cuts(chunks), |Concat(chunks)|) && CutBy(Cuts(chunks), chunks)
  {
    hide CutsOk, CutBy;
    if chunks == [] {
      NoCuts();
    } else {
      var front, last := chunks[..|chunks| - 1], chunks[|chunks| - 1];
      CutsOfChunks(front);
      CutBySnoc(Cuts(front), |Concat(front)|, front, last);
      assert chunks == front + [last];
    }
  }

  lemma NoCuts()
    ensures CutsOk([], 0) && CutBy([], [])
  {
  }
}
