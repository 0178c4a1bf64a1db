/** The Recorder of internal/proxy/dump.go as a value: a bounded list of records,
    oldest first, its operations, and what every run of them keeps. */
module Store {
  import opened Streams
  import opened Capture

  datatype State = State(maxConns: int, maxBytesPer: int, sequence: nat, dumps: seq<Rec>)

  predicate IsPinned(d: Rec) { d.pinned }

  predicate IsUnpinned(d: Rec) { !d.pinned }

  function FindId(dumps: seq<Rec>, id: nat): nat {
    FirstIndex(dumps, (d: Rec) => d.meta.id == id)
  }

  /** The record that a writer with this token may still change, if any. */
  function FindOpen(dumps: seq<Rec>, token: nat): nat {
    FirstIndex(dumps, (d: Rec) => d.meta.token == token && !d.closed)
  }

  predicate Open(s: State, token: nat) {
    FindOpen(s.dumps, token) < |s.dumps|
  }

  lemma FindIdIs(dumps: seq<Rec>, id: nat, i: nat)
    requires i <= |dumps| && (i < |dumps| ==> dumps[i].meta.id == id)
    requires forall j | 0 <= j < i :: dumps[j].meta.id != id
    ensures FindId(dumps, id) == i
  {
  }

  lemma FindOpenIs(dumps: seq<Rec>, token: nat, i: nat)
    requires i <= |dumps| && (i < |dumps| ==> dumps[i].meta.token == token && !dumps[i].closed)
    requires forall j | 0 <= j < i :: dumps[j].meta.token != token || dumps[j].closed
    ensures FindOpen(dumps, token) == i
  {
  }

  lemma FirstUnpinnedIs(dumps: seq<Rec>, i: nat)
    requires i <= |dumps| && (i < |dumps| ==> !dumps[i].pinned)
    requires forall j | 0 <= j < i :: dumps[j].pinned
    ensures FirstUnpinned(dumps) == i
  {
  }

  function FirstUnpinned(dumps: seq<Rec>): nat {
    FirstIndex(dumps, IsUnpinned)
  }

  /** Without the n oldest unpinned records. */
  function DropOldest(dumps: seq<Rec>, n: nat): seq<Rec> {
    if dumps == [] || n == 0 then dumps
    else if dumps[0].pinned then [dumps[0]] + DropOldest(dumps[1..], n)
    else DropOldest(dumps[1..], n - 1)
  }

  function TrimAll(dumps: seq<Rec>, limit: nat): seq<Rec> {
    seq(|dumps|, i requires 0 <= i < |dumps| => dumps[i].(tape := TrimTape(dumps[i].tape, limit)))
  }

  function NewState(maxConns: int, maxBytesPer: int): State {
    State(if maxConns <= 0 then 50 else maxConns,
          if maxBytesPer <= 0 then 64 * 1024 else maxBytesPer, 0, [])
  }

  function NewRec(token: nat, id: nat, remote: string, startedAt: int): Rec {
    Rec(Meta(token, id, remote, startedAt), false, false, 0, 0,
        Tape([], false, false, Side(0, false), Side(0, false)))
  }

  // ----- operations -----------------------------------------------------------

  predicate ResizeAccepted(s: State, maxConns: int, maxBytesPer: int) {
    maxConns > 0 && maxBytesPer > 0 && |Filter(s.dumps, IsPinned)| <= maxConns
  }

  function Excess(s: State, maxConns: int): nat {
    if |s.dumps| > maxConns >= 0 then |s.dumps| - maxConns else 0
  }

  function Resize(s: State, maxConns: int, maxBytesPer: int): State {
    if !ResizeAccepted(s, maxConns, maxBytesPer) then s
    else State(maxConns, maxBytesPer, s.sequence, TrimAll(DropOldest(s.dumps, Excess(s, maxConns)), maxBytesPer))
  }

  /** Without the record of this connection, if there is one. */
  function WithoutId(dumps: seq<Rec>, id: nat): seq<Rec> {
    var i := FindId(dumps, id);
    if i < |dumps| then RemoveAt(dumps, i) else dumps
  }

  /** The records left once the slot of a new record with this id is free; None when it is refused. */
  function MakeRoom(s: State, id: nat): Option<seq<Rec>> {
    var i := FindId(s.dumps, id);
    if i < |s.dumps| && s.dumps[i].pinned then None
    else
      var others := WithoutId(s.dumps, id);
      if |others| < s.maxConns then Some(others)
      else if FirstUnpinned(others) < |others| then Some(RemoveAt(others, FirstUnpinned(others)))
      else None
  }

  function Begin(s: State, id: nat, remote: string, startedAt: int): State {
    match MakeRoom(s, id)
    case None => s
    case Some(others) =>
      s.(sequence := s.sequence + 1, dumps := others + [NewRec(s.sequence + 1, id, remote, startedAt)])
  }

  function Write(s: State, token: nat, dir: Dir, b: seq<byte>, datagram: bool): State
    requires StoreOk(s)
  {
    var i := FindOpen(s.dumps, token);
    if i == |s.dumps| then s
    else
      var d := s.dumps[i];
      assert Fits(d, s.sequence, s.maxBytesPer);
      s.(dumps := s.dumps[i := d.(tape := WriteTape(d.tape, s.maxBytesPer, dir, b, datagram))])
  }

  function SetTotals(t: Tape, bytesIn: int, bytesOut: int): Tape {
    t.(inbound := t.inbound.(total := bytesIn), outbound := t.outbound.(total := bytesOut))
  }

  function Finish(s: State, token: nat, bytesIn: int, bytesOut: int): State {
    var i := FindOpen(s.dumps, token);
    if i == |s.dumps| then s
    else
      var d := s.dumps[i];
      s.(dumps := s.dumps[i := d.(closed := true, tape := SetTotals(d.tape, bytesIn, bytesOut))])
  }

  function SetPinned(s: State, id: nat, pinned: bool): State {
    var i := FindId(s.dumps, id);
    if i == |s.dumps| then s else s.(dumps := s.dumps[i := s.dumps[i].(pinned := pinned)])
  }

  function Marked(d: Rec, score: int, pin: bool): Rec {
    d.(findings := d.findings + 1, riskScore := if score > d.riskScore then score else d.riskScore,
       pinned := d.pinned || pin)
  }

  function MarkFinding(s: State, id: nat, score: int, pin: bool): State {
    var i := FindId(s.dumps, id);
    if i == |s.dumps| then s else s.(dumps := s.dumps[i := Marked(s.dumps[i], score, pin)])
  }

  function Clear(s: State): State { s.(dumps := Filter(s.dumps, IsPinned)) }

  function ClearAll(s: State): State { s.(dumps := []) }

  datatype Op =
    | OpBegin(id: nat, remote: string, startedAt: int)
    | OpWrite(token: nat, dir: Dir, data: seq<byte>, datagram: bool)
    | OpFinish(token: nat, bytesIn: int, bytesOut: int)
    | OpResize(maxConns: int, maxBytesPer: int)
    | OpSetPinned(id: nat, pinned: bool)
    | OpMarkFinding(id: nat, score: int, pin: bool)
    | OpClear
    | OpClearAll

  function Apply(s: State, op: Op): State
    requires StoreOk(s)
  {
    match op
    case OpBegin(id, remote, at) => Begin(s, id, remote, at)
    case OpWrite(token, dir, data, datagram) => Write(s, token, dir, data, datagram)
    case OpFinish(token, bytesIn, bytesOut) => Finish(s, token, bytesIn, bytesOut)
    case OpResize(maxConns, maxBytesPer) => Resize(s, maxConns, maxBytesPer)
    case OpSetPinned(id, pinned) => SetPinned(s, id, pinned)
    case OpMarkFinding(id, score, pin) => MarkFinding(s, id, score, pin)
    case OpClear => Clear(s)
    case OpClearAll => ClearAll(s)
  }

  // ----- the invariant --------------------------------------------------------

  predicate Ordered(dumps: seq<Rec>) {
    forall i, j | 0 <= i < j < |dumps| :: dumps[i].meta.token < dumps[j].meta.token
  }

  predicate OneRecordPerId(dumps: seq<Rec>) {
    forall d, e | d in dumps && e in dumps :: d.meta.id == e.meta.id ==> d.meta.token == e.meta.token
  }

  predicate Fits(d: Rec, sequence: nat, limit: int) {
    0 < d.meta.token <= sequence && TapeOk(d.tape, limit)
  }

  predicate StoreOk(s: State) {
    && s.maxConns > 0 && s.maxBytesPer > 0
    && |s.dumps| <= s.maxConns
    && Ordered(s.dumps) && OneRecordPerId(s.dumps)
    && (forall d | d in s.dumps :: Fits(d, s.sequence, s.maxBytesPer))
  }

  /** Some records of `dumps`, in the same order. */
  predicate Part(some: seq<Rec>, dumps: seq<Rec>) {
    && |some| <= |dumps|
    && (forall d | d in some :: d in dumps)
    && (Ordered(dumps) ==> Ordered(some))
  }

  lemma OrderedSnoc(dumps: seq<Rec>, x: Rec)
    ensures Ordered(dumps + [x]) <==> Ordered(dumps) && forall d | d in dumps :: d.meta.token < x.meta.token
  {
    var all := dumps + [x];
    if Ordered(all) {
      assert forall i | 0 <= i < |dumps| :: all[i] == dumps[i];
      forall d | d in dumps ensures d.meta.token < x.meta.token {
        var i :| 0 <= i < |dumps| && dumps[i] == d;
        assert all[i].meta.token < all[|dumps|].meta.token;
      }
    }
  }

  lemma OrderedCons(x: Rec, dumps: seq<Rec>)
    ensures Ordered([x] + dumps) <==> Ordered(dumps) && forall d | d in dumps :: x.meta.token < d.meta.token
  {
    var all := [x] + dumps;
    if Ordered(all) {
      forall i, j | 0 <= i < j < |dumps| ensures dumps[i].meta.token < dumps[j].meta.token {
        assert all[i + 1].meta.token < all[j + 1].meta.token;
      }
      forall d | d in dumps ensures x.meta.token < d.meta.token {
        var i :| 0 <= i < |dumps| && dumps[i] == d;
        assert all[0].meta.token < all[i + 1].meta.token;
      }
    }
  }

  lemma RemoveAtPart(dumps: seq<Rec>, i: nat)
    requires i < |dumps|
    ensures Part(RemoveAt(dumps, i), dumps)
  {
  }

  lemma {:induction false} FilterPart(dumps: seq<Rec>, p: Rec -> bool)
    ensures Part(Filter(dumps, p), dumps)
  {
    if dumps == [] {
    } else {
      var front, last := dumps[..|dumps| - 1], dumps[|dumps| - 1];
      assert dumps == front + [last];
      FilterPart(front, p);
      OrderedSnoc(front, last);
      OrderedSnoc(Filter(front, p), last);
    }
  }

  lemma {:induction false} DropOldestPart(dumps: seq<Rec>, n: nat)
    ensures Part(DropOldest(dumps, n), dumps)
  {
    if dumps == [] || n == 0 {
    } else {
      var first, rest := dumps[0], dumps[1..];
      assert dumps == [first] + rest;
      OrderedCons(first, rest);
      DropOldestPart(rest, if first.pinned then n else n - 1);
      OrderedCons(first, DropOldest(rest, n));
    }
  }

  lemma {:induction false} PinnedOrNot(dumps: seq<Rec>)
    ensures |Filter(dumps, IsPinned)| + |Filter(dumps, IsUnpinned)| == |dumps|
  {
    if dumps == [] {
    } else {
      PinnedOrNot(dumps[..|dumps| - 1]);
    }
  }

  /** Dropping keeps every pinned record. */
  lemma {:induction false} DropOldestKeepsPins(dumps: seq<Rec>, n: nat)
    ensures Filter(DropOldest(dumps, n), IsPinned) == Filter(dumps, IsPinned)
  {
    if dumps == [] || n == 0 {
    } else {
      var first, rest := dumps[0], dumps[1..];
      assert dumps == [first] + rest;
      DropOldestKeepsPins(rest, if first.pinned then n else n - 1);
      FilterCons(first, rest, IsPinned);
      FilterCons(first, DropOldest(rest, n), IsPinned);
    }
  }

  /** Dropping keeps exactly the newest unpinned records. */
  lemma {:induction false} DropOldestKeepsNewest(dumps: seq<Rec>, n: nat)
    requires n <= |Filter(dumps, IsUnpinned)|
    ensures Filter(DropOldest(dumps, n), IsUnpinned) == Filter(dumps, IsUnpinned)[n..]
  {
    if dumps == [] || n == 0 {
    } else {
      var first, rest := dumps[0], dumps[1..];
      assert dumps == [first] + rest;
      FilterCons(first, rest, IsUnpinned);
      DropOldestKeepsNewest(rest, if first.pinned then n else n - 1);
      FilterCons(first, DropOldest(rest, n), IsUnpinned);
    }
  }

  lemma DropOldestCount(dumps: seq<Rec>, n: nat)
    requires n <= |Filter(dumps, IsUnpinned)|
    ensures |DropOldest(dumps, n)| == |dumps| - n
  {
    DropOldestKeepsPins(dumps, n);
    DropOldestKeepsNewest(dumps, n);
    PinnedOrNot(dumps);
    PinnedOrNot(DropOldest(dumps, n));
  }

  /** Evicting once more drops one record more; there is one to drop. */
  lemma {:induction false} DropOldestNext(dumps: seq<Rec>, n: nat)
    requires n < |Filter(dumps, IsUnpinned)|
    ensures var kept := DropOldest(dumps, n); var i := FirstUnpinned(kept);
            i < |kept| && RemoveAt(kept, i) == DropOldest(dumps, n + 1)
  {
    var first, rest := dumps[0], dumps[1..];
    assert dumps == [first] + rest;
    FilterCons(first, rest, IsUnpinned);
    if first.pinned {
      DropOldestNext(rest, n);
      var kept := DropOldest(rest, n);
      FirstUnpinnedIs([first] + kept, 1 + FirstUnpinned(kept));
      DropOldestZero(dumps, n);
    } else if n > 0 {
      DropOldestNext(rest, n - 1);
    } else {
      FirstUnpinnedIs(dumps, 0);
      DropOldestZero(rest, 0);
    }
  }

  lemma DropOldestZero(dumps: seq<Rec>, n: nat)
    ensures DropOldest(dumps, 0) == dumps
    ensures dumps != [] && dumps[0].pinned ==> DropOldest(dumps, n) == [dumps[0]] + DropOldest(dumps[1..], n)
  {
  }

  // ----- every operation keeps the invariant ------------------------------------

  lemma PartOk(s: State, some: seq<Rec>)
    requires StoreOk(s) && Part(some, s.dumps)
    ensures StoreOk(s.(dumps := some))
  {
  }

  lemma UpdateOk(s: State, i: nat, e: Rec)
    requires StoreOk(s) && i < |s.dumps| && e.meta == s.dumps[i].meta && TapeOk(e.tape, s.maxBytesPer)
    ensures StoreOk(s.(dumps := s.dumps[i := e]))
  {
    var dumps := s.dumps[i := e];
    forall d | d in dumps
      ensures Fits(d, s.sequence, s.maxBytesPer) && exists o | o in s.dumps :: o.meta == d.meta
    {
      var j :| 0 <= j < |dumps| && dumps[j] == d;
      assert s.dumps[j] in s.dumps && Fits(s.dumps[j], s.sequence, s.maxBytesPer);
    }
  }

  lemma WithoutIdPart(dumps: seq<Rec>, id: nat)
    requires Ordered(dumps) && OneRecordPerId(dumps)
    ensures Part(WithoutId(dumps, id), dumps)
    ensures forall d | d in WithoutId(dumps, id) :: d.meta.id != id
  {
    var i, others := FindId(dumps, id), WithoutId(dumps, id);
    if i < |dumps| {
      RemoveAtPart(dumps, i);
      forall j | 0 <= j < |others| ensures others[j].meta.id != id {
        var k := if j < i then j else j + 1;
        assert others[j] == dumps[k] && dumps[k] in dumps && dumps[i] in dumps;
      }
    }
  }

  lemma MakeRoomOk(s: State, id: nat)
    requires StoreOk(s) && MakeRoom(s, id).Some?
    ensures Part(MakeRoom(s, id).value, s.dumps)
    ensures |MakeRoom(s, id).value| < s.maxConns
    ensures forall d | d in MakeRoom(s, id).value :: d.meta.id != id
  {
    WithoutIdPart(s.dumps, id);
    var others := WithoutId(s.dumps, id);
    if |others| >= s.maxConns {
      RemoveAtPart(others, FirstUnpinned(others));
    }
  }

  lemma AppendOk(s: State, added: Rec)
    requires StoreOk(s) && |s.dumps| < s.maxConns
    requires added.meta.token == s.sequence + 1 && TapeOk(added.tape, s.maxBytesPer)
    requires forall d | d in s.dumps :: d.meta.id != added.meta.id
    ensures StoreOk(s.(sequence := s.sequence + 1, dumps := s.dumps + [added]))
  {
    forall d | d in s.dumps + [added]
      ensures Fits(d, s.sequence + 1, s.maxBytesPer) && (d in s.dumps || d == added)
    {
      if d in s.dumps { assert Fits(d, s.sequence, s.maxBytesPer); }
    }
    forall d | d in s.dumps ensures d.meta.token < added.meta.token {
      assert Fits(d, s.sequence, s.maxBytesPer);
    }
    OrderedSnoc(s.dumps, added);
  }

  lemma BeginOk(s: State, id: nat, remote: string, startedAt: int)
    requires StoreOk(s)
    ensures StoreOk(Begin(s, id, remote, startedAt))
  {
    if MakeRoom(s, id).Some? {
      MakeRoomOk(s, id);
      PartOk(s, MakeRoom(s, id).value);
      AppendOk(s.(dumps := MakeRoom(s, id).value), NewRec(s.sequence + 1, id, remote, startedAt));
    }
  }

  lemma TrimAllOk(dumps: seq<Rec>, limit: nat, sequence: nat, oldLimit: int)
    requires Ordered(dumps) && OneRecordPerId(dumps)
    requires forall d | d in dumps :: Fits(d, sequence, oldLimit)
    ensures Ordered(TrimAll(dumps, limit)) && OneRecordPerId(TrimAll(dumps, limit))
    ensures forall d | d in TrimAll(dumps, limit) :: Fits(d, sequence, limit)
  {
    var trimmed := TrimAll(dumps, limit);
    forall i | 0 <= i < |dumps|
      ensures trimmed[i].meta == dumps[i].meta && Fits(trimmed[i], sequence, limit) && dumps[i] in dumps
    {
      assert Fits(dumps[i], sequence, oldLimit);
      TrimOk(dumps[i].tape, limit);
    }
  }

  lemma ResizeOk(s: State, maxConns: int, maxBytesPer: int)
    requires StoreOk(s)
    ensures StoreOk(Resize(s, maxConns, maxBytesPer))
  {
    if ResizeAccepted(s, maxConns, maxBytesPer) {
      var excess := Excess(s, maxConns);
      var kept := DropOldest(s.dumps, excess);
      PinnedOrNot(s.dumps);
      DropOldestPart(s.dumps, excess);
      DropOldestCount(s.dumps, excess);
      assert |TrimAll(kept, maxBytesPer)| <= maxConns;
      TrimAllOk(kept, maxBytesPer, s.sequence, s.maxBytesPer);
    }
  }

  lemma WriteStateOk(s: State, token: nat, dir: Dir, b: seq<byte>, datagram: bool)
    requires StoreOk(s)
    ensures StoreOk(Write(s, token, dir, b, datagram))
  {
    var i := FindOpen(s.dumps, token);
    if i < |s.dumps| {
      var d := s.dumps[i];
      assert Fits(d, s.sequence, s.maxBytesPer);
      WriteOk(d.tape, s.maxBytesPer, dir, b, datagram);
      UpdateOk(s, i, d.(tape := WriteTape(d.tape, s.maxBytesPer, dir, b, datagram)));
    }
  }

  lemma FinishOk(s: State, token: nat, bytesIn: int, bytesOut: int)
    requires StoreOk(s)
    ensures StoreOk(Finish(s, token, bytesIn, bytesOut))
  {
    var i := FindOpen(s.dumps, token);
    if i < |s.dumps| {
      var d := s.dumps[i];
      assert Fits(d, s.sequence, s.maxBytesPer);
      UpdateOk(s, i, d.(closed := true, tape := SetTotals(d.tape, bytesIn, bytesOut)));
    }
  }

  lemma FlagsOk(s: State, id: nat, e: Rec)
    requires StoreOk(s) && FindId(s.dumps, id) < |s.dumps|
    requires e.meta == s.dumps[FindId(s.dumps, id)].meta && e.tape == s.dumps[FindId(s.dumps, id)].tape
    ensures StoreOk(s.(dumps := s.dumps[FindId(s.dumps, id) := e]))
  {
    var i := FindId(s.dumps, id);
    assert Fits(s.dumps[i], s.sequence, s.maxBytesPer);
    UpdateOk(s, i, e);
  }

  lemma SetPinnedOk(s: State, id: nat, pinned: bool)
    requires StoreOk(s)
    ensures StoreOk(SetPinned(s, id, pinned))
  {
    var i := FindId(s.dumps, id);
    if i < |s.dumps| { FlagsOk(s, id, s.dumps[i].(pinned := pinned)); }
  }

  lemma MarkFindingOk(s: State, id: nat, score: int, pin: bool)
    requires StoreOk(s)
    ensures StoreOk(MarkFinding(s, id, score, pin))
  {
    var i := FindId(s.dumps, id);
    if i < |s.dumps| { FlagsOk(s, id, Marked(s.dumps[i], score, pin)); }
  }

  lemma ClearOk(s: State)
    requires StoreOk(s)
    ensures StoreOk(Clear(s)) && StoreOk(ClearAll(s))
  {
    FilterPart(s.dumps, IsPinned);
    PartOk(s, Filter(s.dumps, IsPinned));
    PartOk(s, []);
  }

  lemma ApplyOk(s: State, op: Op)
    requires StoreOk(s)
    ensures StoreOk(Apply(s, op))
  {
    match op
    case OpBegin(id, remote, at) => BeginOk(s, id, remote, at);
    case OpWrite(token, dir, data, datagram) => WriteStateOk(s, token, dir, data, datagram);
    case OpFinish(token, bytesIn, bytesOut) => FinishOk(s, token, bytesIn, bytesOut);
    case OpResize(maxConns, maxBytesPer) => ResizeOk(s, maxConns, maxBytesPer);
    case OpSetPinned(id, pinned) => SetPinnedOk(s, id, pinned);
    case OpMarkFinding(id, score, pin) => MarkFindingOk(s, id, score, pin);
    case OpClear => ClearOk(s);
    case OpClearAll => ClearOk(s);
  }
}
