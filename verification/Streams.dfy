/** Byte streams: prefixes, suffixes and contiguous occurrences. */
module Streams {

  newtype byte = x: int | 0 <= x < 256

  datatype Option<+T> = None | Some(value: T)

  datatype Result<+T, +E> = Ok(value: T) | Err(error: E)

  function Min(a: int, b: int): int {
    if a <= b then a else b
  }

  /** The first n elements, or everything when there are fewer. */
  function Take<T>(s: seq<T>, n: nat): seq<T> {
    if n < |s| then s[..n] else s
  }

  /** The last n elements, or everything when there are fewer. */
  function TakeLast<T>(s: seq<T>, n: nat): seq<T> {
    if n < |s| then s[|s| - n..] else s
  }

  predicate IsSuffix<T(==)>(suffix: seq<T>, s: seq<T>) {
    |suffix| <= |s| && s[|s| - |suffix|..] == suffix
  }

  predicate OccursAt<T(==)>(needle: seq<T>, hay: seq<T>, i: nat) {
    i + |needle| <= |hay| && hay[i..i + |needle|] == needle
  }

  /** What bytes.Contains and strings.Contains decide: needle is a contiguous part of hay. */
  predicate Occurs<T(==)>(needle: seq<T>, hay: seq<T>) {
    exists i: nat | i <= |hay| :: OccursAt(needle, hay, i)
  }

  lemma OccursInPrefix(needle: seq<byte>, part: seq<byte>, whole: seq<byte>)
    requires part <= whole && Occurs(needle, part)
    ensures Occurs(needle, whole)
  {
    var i: nat :| i <= |part| && OccursAt(needle, part, i);
    assert whole[i..i + |needle|] == part[i..i + |needle|];
    assert OccursAt(needle, whole, i);
  }

  function Concat(parts: seq<seq<byte>>): seq<byte> {
    if parts == [] then [] else Concat(parts[..|parts| - 1]) + parts[|parts| - 1]
  }

  lemma ConcatSnoc(parts: seq<seq<byte>>, b: seq<byte>)
    ensures Concat(parts + [b]) == Concat(parts) + b
  {
    assert (parts + [b])[..|parts|] == parts;
  }

  // ----- text ------------------------------------------------------------------

  function Lower(s: string): string {
    seq(|s|, i requires 0 <= i < |s| =>
      if 'A' <= s[i] <= 'Z' then s[i] - 'A' + 'a' else s[i])
  }

  /** unicode.IsSpace. */
  predicate IsSpace(c: char) {
    || c in " \t\n\r" || c == '\U{0B}' || c == '\U{0C}' || c == '\U{85}' || c == '\U{A0}' || c == '\U{1680}'
    || '\U{2000}' <= c <= '\U{200A}' || c == '\U{2028}' || c == '\U{2029}' || c == '\U{202F}'
    || c == '\U{205F}' || c == '\U{3000}'
  }

  function TrimSpace(s: string): string {
    if s == "" then ""
    else if IsSpace(s[0]) then TrimSpace(s[1..])
    else if IsSpace(s[|s| - 1]) then TrimSpace(s[..|s| - 1])
    else s
  }

  /** Trimming takes away all white space at both ends and nothing else. */
  lemma {:induction false} TrimSpaceTrims(s: string) returns (i: nat, j: nat)
    ensures i <= j <= |s| && TrimSpace(s) == s[i..j]
    ensures forall k | 0 <= k < i || j <= k < |s| :: IsSpace(s[k])
    ensures i < j ==> !IsSpace(s[i]) && !IsSpace(s[j - 1])
  {
    if s == "" {
      i, j := 0, 0;
    } else if IsSpace(s[0]) {
      i, j := TrimSpaceTrims(s[1..]);
      i, j := i + 1, j + 1;
    } else if IsSpace(s[|s| - 1]) {
      i, j := TrimSpaceTrims(s[..|s| - 1]);
    } else {
      i, j := 0, |s|;
    }
  }

  // ----- lists ----------------------------------------------------------------

  /** The first index whose element satisfies p, or the length when none does. */
  function FirstIndex<T>(s: seq<T>, p: T -> bool): (i: nat)
    ensures i <= |s| && (i < |s| ==> p(s[i]))
    ensures forall j | 0 <= j < i :: !p(s[j])
  {
    if s == [] || p(s[0]) then 0 else 1 + FirstIndex(s[1..], p)
  }

  function RemoveAt<T>(s: seq<T>, i: nat): seq<T>
    requires i < |s|
  {
    s[..i] + s[i + 1..]
  }

  /** The elements satisfying p, in order. */
  function Filter<T>(s: seq<T>, p: T -> bool): seq<T> {
    if s == [] then []
    else Filter(s[..|s| - 1], p) + (if p(s[|s| - 1]) then [s[|s| - 1]] else [])
  }

  lemma FilterSnoc<T>(s: seq<T>, x: T, p: T -> bool)
    ensures Filter(s + [x], p) == Filter(s, p) + (if p(x) then [x] else [])
  {
    assert (s + [x])[..|s|] == s;
  }

  lemma {:induction false} FilterConcat<T>(a: seq<T>, b: seq<T>, p: T -> bool)
    ensures Filter(a + b, p) == Filter(a, p) + Filter(b, p)
  {
    if b == [] {
      assert a + b == a;
    } else {
      FilterConcat(a, b[..|b| - 1], p);
      assert a + b == (a + b[..|b| - 1]) + [b[|b| - 1]];
      FilterSnoc(a + b[..|b| - 1], b[|b| - 1], p);
    }
  }

  lemma FilterCons<T>(x: T, s: seq<T>, p: T -> bool)
    ensures Filter([x] + s, p) == (if p(x) then [x] else []) + Filter(s, p)
  {
    FilterConcat([x], s, p);
    assert [x][..0] == [];
  }

  lemma FilterFrom<T>(s: seq<T>, i: nat, p: T -> bool)
    requires i < |s|
    ensures Filter(s[i..], p) == (if p(s[i]) then [s[i]] else []) + Filter(s[i + 1..], p)
  {
    FilterCons(s[i], s[i + 1..], p);
    assert s[i..] == [s[i]] + s[i + 1..];
  }

  lemma {:induction false} FilterMembers<T>(s: seq<T>, p: T -> bool, x: T)
    ensures x in Filter(s, p) <==> x in s && p(x)
    ensures |Filter(s, p)| <= |s|
  {
    if s == [] {
    } else {
      FilterMembers(s[..|s| - 1], p, x);
      assert s == s[..|s| - 1] + [s[|s| - 1]];
    }
  }
}
