/** Recorder.Search of internal/proxy/dump.go: query checks, filters, matching over the
    re-joined streams, order of the results and paging. */
module Search {
  import opened Streams
  import opened Capture
  import opened Store
  import StoreRuns

  datatype Mode = Text | Hex | UnknownMode

  datatype Where = Either | Only(dir: Dir) | UnknownDirection

  datatype Query = Query(
    text: seq<byte>, mode: Mode, direction: Where, remote: string,
    from: Option<int>, to: Option<int>, pinnedOnly: bool, offset: int, limit: int)

  datatype SearchError = BadPage | QueryTooLong | BadInterval | BadDirection | BadHex | BadMode

  datatype Page = Page(items: seq<Rec>, total: nat)

  // ----- the needle -----------------------------------------------------------

  /** The length of the white space that starts the text, as unicode.IsSpace sees its UTF-8 bytes;
      0 when it starts with something else. */
  function SpaceAt(s: seq<byte>): (n: nat)
    ensures n <= |s|
  {
    if |s| >= 1 && (s[0] == 32 || 9 <= s[0] <= 13) then 1
    else if |s| >= 2 && s[0] == 0xC2 && (s[1] == 0x85 || s[1] == 0xA0) then 2
    else if |s| >= 3 && (s[0], s[1], s[2]) == (0xE1, 0x9A, 0x80) then 3
    else if |s| >= 3 && s[0] == 0xE2 && s[1] == 0x80 && (0x80 <= s[2] <= 0x8A || s[2] in [0xA8, 0xA9, 0xAF]) then 3
    else if |s| >= 3 && (s[0], s[1], s[2]) == (0xE2, 0x81, 0x9F) then 3
    else if |s| >= 3 && (s[0], s[1], s[2]) == (0xE3, 0x80, 0x80) then 3
    else 0
  }

  /** strings.Join(strings.Fields(s), ""). */
  function WithoutSpaces(s: seq<byte>): seq<byte> {
    if s == [] then []
    else if SpaceAt(s) > 0 then WithoutSpaces(s[SpaceAt(s)..])
    else [s[0]] + WithoutSpaces(s[1..])
  }

  function HexDigit(b: byte): Option<int> {
    if 48 <= b <= 57 then Some(b as int - 48)
    else if 97 <= b <= 102 then Some(b as int - 87)
    else if 65 <= b <= 70 then Some(b as int - 55)
    else None
  }

  /** hex.DecodeString. */
  function DecodeHex(s: seq<byte>): Option<seq<byte>> {
    if s == [] then Some([])
    else if |s| == 1 then None
    else
      match (HexDigit(s[0]), HexDigit(s[1]), DecodeHex(s[2..]))
      case (Some(high), Some(low), Some(rest)) => Some([(16 * high + low) as byte] + rest)
      case _ => None
  }

  function EncodeDigit(n: int): byte
    requires 0 <= n < 16
  {
    if n < 10 then (48 + n) as byte else (87 + n) as byte
  }

  function EncodeHex(s: seq<byte>): seq<byte> {
    if s == [] then []
    else [EncodeDigit(s[0] as int / 16), EncodeDigit(s[0] as int % 16)] + EncodeHex(s[1..])
  }

  lemma DigitRoundTrip(n: int)
    requires 0 <= n < 16
    ensures HexDigit(EncodeDigit(n)) == Some(n) && 48 <= EncodeDigit(n) <= 102
  {
  }

  lemma EncodeHexCons(b: byte, s: seq<byte>)
    ensures EncodeHex([b] + s) == [EncodeDigit(b as int / 16)] + ([EncodeDigit(b as int % 16)] + EncodeHex(s))
  {
    assert ([b] + s)[1..] == s;
  }

  lemma {:induction false} HexRoundTrip(s: seq<byte>)
    ensures DecodeHex(EncodeHex(s)) == Some(s)
  {
    if s == [] {
    } else {
      assert s == [s[0]] + s[1..];
      EncodeHexCons(s[0], s[1..]);
      DigitRoundTrip(s[0] as int / 16);
      DigitRoundTrip(s[0] as int % 16);
      HexRoundTrip(s[1..]);
      assert EncodeHex(s)[2..] == EncodeHex(s[1..]);
    }
  }

  lemma NoSpaceCons(b: byte, s: seq<byte>)
    requires 48 <= b <= 102
    ensures WithoutSpaces([b] + s) == [b] + WithoutSpaces(s)
  {
    assert ([b] + s)[1..] == s;
  }

  lemma {:induction false} HexHasNoSpaces(s: seq<byte>)
    ensures WithoutSpaces(EncodeHex(s)) == EncodeHex(s)
  {
    if s == [] {
    } else {
      var high, low, rest := EncodeDigit(s[0] as int / 16), EncodeDigit(s[0] as int % 16), EncodeHex(s[1..]);
      assert s == [s[0]] + s[1..];
      EncodeHexCons(s[0], s[1..]);
      HexHasNoSpaces(s[1..]);
      DigitRoundTrip(s[0] as int / 16);
      DigitRoundTrip(s[0] as int % 16);
      NoSpaceCons(high, [low] + rest);
      NoSpaceCons(low, rest);
    }
  }

  function Needle(q: Query): Result<seq<byte>, SearchError> {
    match q.mode
    case Text => Ok(q.text)
    case Hex =>
      (match DecodeHex(WithoutSpaces(q.text))
       case Some(needle) => Ok(needle)
       case None => Err(BadHex))
    case UnknownMode => Err(BadMode)
  }

  /** In hex mode every byte string can be searched for. */
  lemma HexReachesEveryNeedle(q: Query, needle: seq<byte>)
    requires q.mode == Hex && q.text == EncodeHex(needle)
    ensures Needle(q) == Ok(needle)
  {
    HexRoundTrip(needle);
    HexHasNoSpaces(needle);
  }

  /** All the checks that come before the records are looked at. */
  function Check(q: Query): Result<seq<byte>, SearchError> {
    if q.offset < 0 || q.limit < 0 || q.limit > 500 then Err(BadPage)
    else if |q.text| > 4096 then Err(QueryTooLong)
    else if q.from.Some? && q.to.Some? && q.to.value < q.from.value then Err(BadInterval)
    else if q.direction == UnknownDirection then Err(BadDirection)
    else Needle(q)
  }

  function PageSize(q: Query): int { if q.limit == 0 then 100 else q.limit }

  // ----- which records are found ------------------------------------------------

  predicate Passes(d: Rec, q: Query) {
    && (q.pinnedOnly ==> d.pinned)
    && (q.from.Some? ==> q.from.value <= d.meta.startedAt)
    && (q.to.Some? ==> d.meta.startedAt <= q.to.value)
    && Occurs(Lower(TrimSpace(q.remote)), Lower(d.meta.remote))
  }

  predicate Searched(q: Query, dir: Dir) {
    q.direction == Either || q.direction == Only(dir)
  }

  predicate HitIn(d: Rec, q: Query, needle: seq<byte>, dir: Dir) {
    Searched(q, dir) && Occurs(needle, d.tape.Captured(dir))
  }

  predicate Selected(d: Rec, q: Query, needle: seq<byte>) {
    Passes(d, q) && (q.text == [] || HitIn(d, q, needle, In) || HitIn(d, q, needle, Out))
  }

  /** Metadata without the captured payload. */
  function Summary(d: Rec): Rec { d.(tape := d.tape.(chunks := [])) }

  /** The selected records at index n and later, newest first. */
  function Collect(dumps: seq<Rec>, n: nat, q: Query, needle: seq<byte>, pinned: bool): seq<Rec>
    requires n <= |dumps|
    decreases |dumps| - n
  {
    if n == |dumps| then []
    else
      Collect(dumps, n + 1, q, needle, pinned)
      + (if dumps[n].pinned == pinned && Selected(dumps[n], q, needle) then [Summary(dumps[n])] else [])
  }

  function Matches(dumps: seq<Rec>, q: Query, needle: seq<byte>): seq<Rec> {
    Collect(dumps, 0, q, needle, true) + Collect(dumps, 0, q, needle, false)
  }

  function PageOf(matches: seq<Rec>, offset: nat, limit: nat): Page {
    Page(if offset < |matches| then matches[offset..Min(offset + limit, |matches|)] else [], |matches|)
  }

  /** What Search returns on a recorder that nobody changes meanwhile. */
  function Find(dumps: seq<Rec>, q: Query): Result<Page, SearchError> {
    match Check(q)
    case Err(e) => Err(e)
    case Ok(needle) => Ok(PageOf(Matches(dumps, q, needle), q.offset, PageSize(q)))
  }

  // ----- every match exactly once, pinned first, newest first ---------------------

  lemma {:induction false} CollectMembers(dumps: seq<Rec>, n: nat, q: Query, needle: seq<byte>, pinned: bool, r: Rec)
    requires n <= |dumps|
    ensures r in Collect(dumps, n, q, needle, pinned) <==>
      exists i | n <= i < |dumps| ::
        Summary(dumps[i]) == r && dumps[i].pinned == pinned && Selected(dumps[i], q, needle)
    decreases |dumps| - n
  {
    if n == |dumps| {
    } else {
      CollectMembers(dumps, n + 1, q, needle, pinned, r);
    }
  }

  /** The listed records are exactly the selected ones. */
  lemma MatchesAreTheSelected(dumps: seq<Rec>, q: Query, needle: seq<byte>, r: Rec)
    ensures r in Matches(dumps, q, needle) <==>
      exists d | d in dumps :: Summary(d) == r && Selected(d, q, needle)
  {
    CollectMembers(dumps, 0, q, needle, true, r);
    CollectMembers(dumps, 0, q, needle, false, r);
    if r in Matches(dumps, q, needle) {
      var i :| 0 <= i < |dumps| && Summary(dumps[i]) == r && Selected(dumps[i], q, needle);
      assert dumps[i] in dumps;
    }
  }

  predicate Precedes(a: Rec, b: Rec) {
    if a.pinned == b.pinned then a.meta.token > b.meta.token else a.pinned
  }

  predicate Sorted(rs: seq<Rec>) {
    forall i, j | 0 <= i < j < |rs| :: Precedes(rs[i], rs[j])
  }

  lemma {:induction false} CollectSorted(dumps: seq<Rec>, n: nat, q: Query, needle: seq<byte>, pinned: bool)
    requires n <= |dumps| && Ordered(dumps)
    ensures forall r | r in Collect(dumps, n, q, needle, pinned) ::
      r.pinned == pinned && (n < |dumps| ==> r.meta.token >= dumps[n].meta.token)
    ensures Sorted(Collect(dumps, n, q, needle, pinned))
    decreases |dumps| - n
  {
    if n == |dumps| {
    } else {
      CollectSorted(dumps, n + 1, q, needle, pinned);
      var newer := Collect(dumps, n + 1, q, needle, pinned);
      assert forall i | 0 <= i < |newer| :: newer[i] in newer;
    }
  }

  /** Pinned records come first and each group is newest first, so no record is listed twice. */
  lemma MatchesAreSorted(s: State, q: Query, needle: seq<byte>)
    requires StoreOk(s)
    ensures Sorted(Matches(s.dumps, q, needle))
  {
    CollectSorted(s.dumps, 0, q, needle, true);
    CollectSorted(s.dumps, 0, q, needle, false);
    var pinned, rest := Collect(s.dumps, 0, q, needle, true), Collect(s.dumps, 0, q, needle, false);
    assert forall i | 0 <= i < |pinned| :: pinned[i] in pinned;
    assert forall i | 0 <= i < |rest| :: rest[i] in rest;
  }

  // ----- paging -----------------------------------------------------------------

  /** The items of the first n pages of this size. */
  function Pages(dumps: seq<Rec>, q: Query, size: nat, n: nat): seq<Rec> {
    if n == 0 then []
    else
      Pages(dumps, q, size, n - 1)
      + (match Find(dumps, q.(offset := (n - 1) * size, limit := size))
         case Ok(page) => page.items
         case Err(_) => [])
  }

  lemma PageFound(dumps: seq<Rec>, q: Query, from: nat, size: nat)
    requires 0 < size <= 500 && Check(q).Ok?
    ensures Find(dumps, q.(offset := from, limit := size))
         == Ok(PageOf(Matches(dumps, q, Check(q).value), from, size))
  {
    var needle, paged := Check(q).value, q.(offset := from, limit := size);
    SameQuery(dumps, 0, q, paged, needle, true);
    SameQuery(dumps, 0, q, paged, needle, false);
    assert Check(paged) == Ok(needle);
  }

  lemma {:induction false} PagesArePrefixes(dumps: seq<Rec>, q: Query, size: nat, n: nat)
    requires 0 < size <= 500 && Check(q).Ok?
    ensures Pages(dumps, q, size, n) == Take(Matches(dumps, q, Check(q).value), n * size)
  {
    hide Matches, Check, PageOf, Find, Take;
    if n > 0 {
      PagesArePrefixes(dumps, q, size, n - 1);
      PageFound(dumps, q, (n - 1) * size, size);
      TakePage(Matches(dumps, q, Check(q).value), (n - 1) * size, size);
      assert n * size == (n - 1) * size + size;
    } else {
      TakeNone(Matches(dumps, q, Check(q).value));
    }
  }

  lemma TakeNone(matches: seq<Rec>)
    ensures Take(matches, 0) == []
  {
  }

  lemma TakePage(matches: seq<Rec>, from: nat, size: nat)
    ensures Take(matches, from) + PageOf(matches, from, size).items == Take(matches, from + size)
  {
  }

  /** Offset and limit do not influence what is found. */
  lemma {:induction false} SameQuery(dumps: seq<Rec>, n: nat, q: Query, paged: Query, needle: seq<byte>, pinned: bool)
    requires n <= |dumps| && paged == q.(offset := paged.offset, limit := paged.limit)
    ensures Collect(dumps, n, paged, needle, pinned) == Collect(dumps, n, q, needle, pinned)
    decreases |dumps| - n
  {
    if n == |dumps| {
    } else {
      SameQuery(dumps, n + 1, q, paged, needle, pinned);
    }
  }

  /** On an unchanged recorder the pages at offsets 0, size, 2*size, ... add up to all matches. */
  lemma PagesAddUp(dumps: seq<Rec>, q: Query, size: nat, n: nat)
    requires 0 < size <= 500 && Check(q).Ok?
    requires n * size >= Find(dumps, q).value.total
    ensures Pages(dumps, q, size, n) == Matches(dumps, q, Check(q).value)
    ensures Find(dumps, q).value.total == |Matches(dumps, q, Check(q).value)|
  {
    PagesArePrefixes(dumps, q, size, n);
  }

  // ----- what a query asks for -------------------------------------------------------

  predicate IsHex(c: byte) { 48 <= c <= 57 || 65 <= c <= 70 || 97 <= c <= 102 }

  /** The character c stands for the value n. */
  predicate IsDigit(c: byte, n: int) {
    if n < 10 then c as int == '0' as int + n
    else c as int == 'a' as int + n - 10 || c as int == 'A' as int + n - 10
  }

  /** The bytes that the user meant: those of the text, or those that its hex digits spell. */
  predicate Means(q: Query, needle: seq<byte>) {
    match q.mode
    case Text => needle == q.text
    case Hex =>
      var digits := Filter(q.text, IsHex);
      && |digits| == 2 * |needle|
      && forall k | 0 <= k < |needle| ::
           IsDigit(digits[2 * k], needle[k] as int / 16) && IsDigit(digits[2 * k + 1], needle[k] as int % 16)
    case UnknownMode => false
  }

  predicate AllHex(s: seq<byte>) { forall i | 0 <= i < |s| :: IsHex(s[i]) }

  lemma {:induction false} DecodedDigits(s: seq<byte>)
    ensures DecodeHex(s).Some? <==> AllHex(s) && |s| % 2 == 0
    ensures DecodeHex(s).Some? ==>
      var needle := DecodeHex(s).value;
      && |s| == 2 * |needle|
      && forall k | 0 <= k < |needle| ::
           IsDigit(s[2 * k], needle[k] as int / 16) && IsDigit(s[2 * k + 1], needle[k] as int % 16)
  {
    if |s| >= 2 {
      DecodedDigits(s[2..]);
      assert AllHex(s) <==> IsHex(s[0]) && IsHex(s[1]) && AllHex(s[2..]);
      if DecodeHex(s).Some? {
        var needle, rest := DecodeHex(s).value, DecodeHex(s[2..]).value;
        forall k | 0 <= k < |needle|
          ensures IsDigit(s[2 * k], needle[k] as int / 16) && IsDigit(s[2 * k + 1], needle[k] as int % 16)
        {
          if k > 0 { assert needle[k] == rest[k - 1] && s[2 * k] == s[2..][2 * (k - 1)] && s[2 * k + 1] == s[2..][2 * (k - 1) + 1]; }
        }
      }
    }
  }

  lemma {:induction false} NoHex(s: seq<byte>)
    requires forall i | 0 <= i < |s| :: !IsHex(s[i])
    ensures Filter(s, IsHex) == []
  {
    if s == [] {
    } else {
      NoHex(s[..|s| - 1]);
    }
  }

  lemma FilterHead(s: seq<byte>)
    requires s != []
    ensures Filter(s, IsHex) == (if IsHex(s[0]) then [s[0]] else []) + Filter(s[1..], IsHex)
  {
    FilterCons(s[0], s[1..], IsHex);
    assert s == [s[0]] + s[1..];
  }

  lemma SpaceIsNoHex(s: seq<byte>)
    ensures Filter(s, IsHex) == Filter(s[SpaceAt(s)..], IsHex)
  {
    NoHex(s[..SpaceAt(s)]);
    FilterConcat(s[..SpaceAt(s)], s[SpaceAt(s)..], IsHex);
    assert s == s[..SpaceAt(s)] + s[SpaceAt(s)..];
  }

  lemma {:induction false} DigitsAreLeft(s: seq<byte>)
    requires AllHex(WithoutSpaces(s))
    ensures WithoutSpaces(s) == Filter(s, IsHex)
  {
    if s == [] {
    } else if SpaceAt(s) > 0 {
      SpaceIsNoHex(s);
      DigitsAreLeft(s[SpaceAt(s)..]);
    } else {
      FilterHead(s);
      assert WithoutSpaces(s)[0] == s[0] && WithoutSpaces(s)[1..] == WithoutSpaces(s[1..]);
      DigitsAreLeft(s[1..]);
    }
  }

  /** A search is for what its query means, and a query means one thing only. */
  lemma NeedleIsMeant(q: Query, needle: seq<byte>)
    requires Check(q).Ok?
    ensures Means(q, needle) <==> needle == Check(q).value
  {
    if q.mode == Hex {
      DecodedDigits(WithoutSpaces(q.text));
      DigitsAreLeft(q.text);
      if Means(q, needle) {
        forall k | 0 <= k < |needle| ensures needle[k] == Check(q).value[k] {
          SameDigits(Filter(q.text, IsHex)[2 * k], Filter(q.text, IsHex)[2 * k + 1], needle[k], Check(q).value[k]);
        }
      }
    }
  }

  lemma SameDigits(high: byte, low: byte, a: byte, b: byte)
    requires IsDigit(high, a as int / 16) && IsDigit(low, a as int % 16)
    requires IsDigit(high, b as int / 16) && IsDigit(low, b as int % 16)
    ensures a == b
  {
  }

  function Utf8(c: char): seq<byte> {
    var n := c as int;
    if n < 0x80 then [n as byte]
    else if n < 0x800 then [(0xC0 + n / 64) as byte, (0x80 + n % 64) as byte]
    else if n < 0x10000 then [(0xE0 + n / 4096) as byte, (0x80 + n / 64 % 64) as byte, (0x80 + n % 64) as byte]
    else [(0xF0 + n / 262144) as byte, (0x80 + n / 4096 % 64) as byte, (0x80 + n / 64 % 64) as byte, (0x80 + n % 64) as byte]
  }

  /** Hex digits with spaces of any kind between them. */
  ghost predicate Spelled(s: seq<byte>) {
    || s == []
    || (IsHex(s[0]) && Spelled(s[1..]))
    || exists c: char | IsSpace(c) && Utf8(c) <= s :: Spelled(s[|Utf8(c)|..])
  }

  lemma SpaceIsSpace(s: seq<byte>) returns (c: char)
    requires SpaceAt(s) > 0
    ensures IsSpace(c) && Utf8(c) <= s && |Utf8(c)| == SpaceAt(s)
  {
    var n := SpaceAt(s);
    c := if n == 1 then s[0] as int as char
         else if n == 2 then s[1] as int as char
         else if s[0] == 0xE1 then '\U{1680}'
         else if s[0] == 0xE3 then '\U{3000}'
         else ((s[1] as int - 0x80) * 64 + 0x2000 + s[2] as int - 0x80) as char;
  }

  lemma SpaceIsSeen(s: seq<byte>, c: char)
    requires IsSpace(c) && Utf8(c) <= s
    ensures SpaceAt(s) == |Utf8(c)|
  {
    var u := Utf8(c);
    assert forall i | 0 <= i < |u| :: s[i] == u[i];
  }

  lemma {:induction false} SpelledIsDigits(s: seq<byte>)
    ensures Spelled(s) <==> AllHex(WithoutSpaces(s))
  {
    if s == [] {
    } else if SpaceAt(s) > 0 {
      var space := SpaceIsSpace(s);
      SpelledIsDigits(s[SpaceAt(s)..]);
      forall c: char | IsSpace(c) && Utf8(c) <= s ensures |Utf8(c)| == SpaceAt(s) { SpaceIsSeen(s, c); }
    } else {
      SpelledIsDigits(s[1..]);
      forall c: char | IsSpace(c) && Utf8(c) <= s ensures false { SpaceIsSeen(s, c); }
      assert WithoutSpaces(s)[0] == s[0] && WithoutSpaces(s)[1..] == WithoutSpaces(s[1..]);
    }
  }

  /** Which queries are accepted. */
  lemma AcceptedQueries(q: Query)
    ensures Check(q).Ok? <==>
      && 0 <= q.offset && 0 <= q.limit <= 500 && |q.text| <= 4096 && q.direction != UnknownDirection
      && (q.from.Some? && q.to.Some? ==> q.from.value <= q.to.value)
      && (q.mode == Text || (q.mode == Hex && Spelled(q.text) && |Filter(q.text, IsHex)| % 2 == 0))
  {
    if q.mode == Hex {
      DecodedDigits(WithoutSpaces(q.text));
      SpelledIsDigits(q.text);
      if AllHex(WithoutSpaces(q.text)) { DigitsAreLeft(q.text); }
    }
  }

  // ----- found exactly when sent --------------------------------------------------------

  /** The record passes the filters of the query, and what its writer really sent in a searched
      direction contains the needle. */
  predicate Wanted(q: Query, needle: seq<byte>, d: Rec, sent: Sent) {
    && (q.pinnedOnly ==> d.pinned)
    && (q.from.Some? ==> q.from.value <= d.meta.startedAt)
    && (q.to.Some? ==> d.meta.startedAt <= q.to.value)
    && Occurs(Lower(TrimSpace(q.remote)), Lower(d.meta.remote))
    && (q.text == []
        || ((q.direction == Either || q.direction == Only(In)) && Occurs(needle, sent.inbound))
        || ((q.direction == Either || q.direction == Only(Out)) && Occurs(needle, sent.outbound)))
  }

  /** Some page of the search lists the record, without its payload. */
  ghost predicate FoundOn(dumps: seq<Rec>, q: Query, offset: nat, d: Rec) {
    var page := Find(dumps, q.(offset := offset));
    page.Ok? && d.(tape := d.tape.(chunks := [])) in page.value.items
  }

  lemma FaithfulHits(d: Rec, q: Query, needle: seq<byte>, sent: Sent)
    requires Faithful(d.tape, sent)
    ensures Selected(d, q, needle) ==> Wanted(q, needle, d, sent)
    ensures Wanted(q, needle, d, sent) && !d.tape.truncated ==> Selected(d, q, needle)
  {
    hide Occurs, Lower, TrimSpace;
    if HitIn(d, q, needle, In) { OccursInPrefix(needle, d.tape.Captured(In), sent.inbound); }
    if HitIn(d, q, needle, Out) { OccursInPrefix(needle, d.tape.Captured(Out), sent.outbound); }
  }

  lemma PageAt(dumps: seq<Rec>, q: Query, offset: nat)
    requires Check(q).Ok?
    ensures PageSize(q) > 0
    ensures Find(dumps, q.(offset := offset)) == Ok(PageOf(Matches(dumps, q, Check(q).value), offset, PageSize(q)))
  {
    var needle, paged := Check(q).value, q.(offset := offset);
    SameQuery(dumps, 0, q, paged, needle, true);
    SameQuery(dumps, 0, q, paged, needle, false);
    assert Check(paged) == Ok(needle);
  }

  /** The length of a page: as many items as asked for, 100 when the query does not say, or what is
      left of the matches. */
  lemma PagesAreFull(dumps: seq<Rec>, q: Query)
    requires Check(q).Ok?
    ensures var page := Find(dumps, q).value;
            var left := if q.offset < page.total then page.total - q.offset else 0;
            |page.items| == Min(left, if q.limit > 0 then q.limit else 100)
  {
    PageAt(dumps, q, q.offset);
  }

  lemma ListedSomewhere(matches: seq<Rec>, size: nat, r: Rec)
    requires size > 0
    ensures r in matches <==> exists offset: nat :: r in PageOf(matches, offset, size).items
  {
    if r in matches {
      var k :| 0 <= k < |matches| && matches[k] == r;
      assert PageOf(matches, k, size).items[0] == r;
    }
  }

  lemma SameSummary(dumps: seq<Rec>, d: Rec, e: Rec)
    requires Ordered(dumps) && d in dumps && e in dumps && Summary(d) == Summary(e)
    ensures d == e
  {
    StoreRuns.SameToken(dumps, d, e);
  }

  lemma FoundAreSelected(s: State, q: Query, d: Rec)
    requires StoreOk(s) && d in s.dumps && Check(q).Ok?
    ensures Selected(d, q, Check(q).value) <==> exists offset: nat :: FoundOn(s.dumps, q, offset, d)
  {
    hide Check, Selected, Matches, Find, PageOf, PageSize;
    var needle := Check(q).value;
    PageAt(s.dumps, q, 0);
    ListedSomewhere(Matches(s.dumps, q, needle), PageSize(q), Summary(d));
    forall offset: nat ensures FoundOn(s.dumps, q, offset, d)
        <==> Summary(d) in PageOf(Matches(s.dumps, q, needle), offset, PageSize(q)).items
    {
      PageAt(s.dumps, q, offset);
    }
    MatchesAreTheSelected(s.dumps, q, needle, Summary(d));
    forall e | e in s.dumps && Summary(e) == Summary(d) ensures e == d { SameSummary(s.dumps, d, e); }
  }

  /** In every run: a record that some page of a search lists passes the filters, and what the query
      means was sent to it contiguously in a searched direction, whatever the chunking, truncation
      and resizing; and an untruncated record is listed exactly when that is so. */
  lemma SearchIsTruthful(maxConns: int, maxBytesPer: int, ops: seq<Op>, q: Query, needle: seq<byte>, d: Rec)
    requires Find(StoreRuns.Run(StoreRuns.NewWorld(maxConns, maxBytesPer), ops).store.dumps, q).Ok? && Means(q, needle)
    requires d in StoreRuns.Run(StoreRuns.NewWorld(maxConns, maxBytesPer), ops).store.dumps
    ensures var w := StoreRuns.Run(StoreRuns.NewWorld(maxConns, maxBytesPer), ops);
            var wanted := Wanted(q, needle, d, StoreRuns.SentBy(w.sent, d.meta.token));
            var found := exists offset: nat :: FoundOn(w.store.dumps, q, offset, d);
            && (found ==> wanted)
            && (!d.tape.truncated ==> (found <==> wanted))
  {
    hide Check, Means, Faithful, Wanted, FoundOn, Selected, StoreRuns.Run;
    StoreRuns.ReachableRecord(maxConns, maxBytesPer, ops, d);
    var w := StoreRuns.Run(StoreRuns.NewWorld(maxConns, maxBytesPer), ops);
    ReachableStore(maxConns, maxBytesPer, ops);
    NeedleIsMeant(q, needle);
    FoundAreSelected(w.store, q, d);
    FaithfulHits(d, q, needle, StoreRuns.SentBy(w.sent, d.meta.token));
  }

  lemma ReachableStore(maxConns: int, maxBytesPer: int, ops: seq<Op>)
    ensures StoreOk(StoreRuns.Run(StoreRuns.NewWorld(maxConns, maxBytesPer), ops).store)
  {
    StoreRuns.RunKeepsWorldOk(StoreRuns.NewWorld(maxConns, maxBytesPer), ops);
  }

  /** In every run, every item of every page that a search returns stands for a retained record that
      was wanted. */
  lemma ReturnedItemsWereSent(maxConns: int, maxBytesPer: int, ops: seq<Op>, q: Query, needle: seq<byte>, r: Rec)
    requires Find(StoreRuns.Run(StoreRuns.NewWorld(maxConns, maxBytesPer), ops).store.dumps, q).Ok? && Means(q, needle)
    requires r in Find(StoreRuns.Run(StoreRuns.NewWorld(maxConns, maxBytesPer), ops).store.dumps, q).value.items
    ensures var w := StoreRuns.Run(StoreRuns.NewWorld(maxConns, maxBytesPer), ops);
            exists d | d in w.store.dumps ::
              d.(tape := d.tape.(chunks := [])) == r && Wanted(q, needle, d, StoreRuns.SentBy(w.sent, d.meta.token))
  {
    hide Check, Means, Faithful, Wanted, Selected, StoreRuns.Run, Matches, PageOf;
    CheckedPage(q);
    NeedleIsMeant(q, needle);
    var w := StoreRuns.Run(StoreRuns.NewWorld(maxConns, maxBytesPer), ops);
    PageItemsAreMatches(Matches(w.store.dumps, q, needle), q.offset, PageSize(q), r);
    MatchesAreTheSelected(w.store.dumps, q, needle, r);
    var d :| d in w.store.dumps && Summary(d) == r && Selected(d, q, needle);
    StoreRuns.ReachableRecord(maxConns, maxBytesPer, ops, d);
    FaithfulHits(d, q, needle, StoreRuns.SentBy(w.sent, d.meta.token));
  }

  lemma PageItemsAreMatches(matches: seq<Rec>, offset: nat, limit: nat, r: Rec)
    requires r in PageOf(matches, offset, limit).items
    ensures r in matches
  {
  }

  lemma CheckedPage(q: Query)
    requires Check(q).Ok?
    ensures q.offset >= 0 && PageSize(q) >= 0
  {
  }
}
