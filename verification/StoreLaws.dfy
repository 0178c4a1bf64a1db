/** What each operation of the recorder does to the list of records, said of the records. */
module StoreLaws {
  import opened Streams
  import opened Capture
  import opened Store
  import opened StoreRuns

  /** The record is there, and nothing but the pin and the marks of a finding may differ. */
  predicate SameRecord(a: Rec, b: Rec) { a.meta == b.meta && a.closed == b.closed && a.tape == b.tape }

  // ----- begin ------------------------------------------------------------------------

  /** The oldest unpinned record besides those of this connection. */
  predicate OldestFree(dumps: seq<Rec>, id: nat, d: Rec) {
    && d in dumps && d.meta.id != id && !d.pinned
    && forall e | e in dumps && e.meta.id != id && !e.pinned :: d.meta.token <= e.meta.token
  }

  /** How many records belong to other connections. */
  function Others(dumps: seq<Rec>, id: nat): nat {
    if dumps == [] then 0 else Others(dumps[..|dumps| - 1], id) + (if dumps[|dumps| - 1].meta.id != id then 1 else 0)
  }

  lemma {:induction false} OthersAre(dumps: seq<Rec>, id: nat)
    requires Ordered(dumps) && OneRecordPerId(dumps)
    ensures |WithoutId(dumps, id)| == Others(dumps, id)
  {
    var i := FindId(dumps, id);
    if i < |dumps| {
      OneRecordOnly(dumps, id, i);
    } else {
      NoRecord(dumps, id);
    }
  }

  lemma {:induction false} NoRecord(dumps: seq<Rec>, id: nat)
    requires forall k | 0 <= k < |dumps| :: dumps[k].meta.id != id
    ensures Others(dumps, id) == |dumps|
  {
    if dumps == [] {
    } else {
      NoRecord(dumps[..|dumps| - 1], id);
    }
  }

  lemma {:induction false} OneRecord(dumps: seq<Rec>, id: nat, i: nat)
    requires i < |dumps| && dumps[i].meta.id == id && forall k | 0 <= k < |dumps| && k != i :: dumps[k].meta.id != id
    ensures Others(dumps, id) == |dumps| - 1
  {
    if i == |dumps| - 1 {
      NoRecord(dumps[..|dumps| - 1], id);
    } else {
      OneRecord(dumps[..|dumps| - 1], id, i);
    }
  }

  lemma OneRecordOnly(dumps: seq<Rec>, id: nat, i: nat)
    requires Ordered(dumps) && OneRecordPerId(dumps) && i < |dumps| && dumps[i].meta.id == id
    ensures Others(dumps, id) == |dumps| - 1
  {
    forall k | 0 <= k < |dumps| && k != i ensures dumps[k].meta.id != id {
      assert dumps[k] in dumps && dumps[i] in dumps;
    }
    OneRecord(dumps, id, i);
  }

  lemma RemovedAt(dumps: seq<Rec>, i: nat, d: Rec)
    requires Ordered(dumps) && i < |dumps|
    ensures d in RemoveAt(dumps, i) <==> d in dumps && d.meta.token != dumps[i].meta.token
  {
    if d in dumps && d.meta.token != dumps[i].meta.token {
      var k :| 0 <= k < |dumps| && dumps[k] == d;
      assert RemoveAt(dumps, i)[if k < i then k else k - 1] == d;
    }
  }

  lemma WithoutIdIs(dumps: seq<Rec>, id: nat, d: Rec)
    requires Ordered(dumps) && OneRecordPerId(dumps)
    ensures d in WithoutId(dumps, id) <==> d in dumps && d.meta.id != id
  {
    var i := FindId(dumps, id);
    if i < |dumps| {
      RemovedAt(dumps, i, d);
      if d in dumps && d.meta.token == dumps[i].meta.token { SameToken(dumps, d, dumps[i]); }
    }
  }

  lemma FirstUnpinnedIsOldest(dumps: seq<Rec>)
    requires Ordered(dumps) && FirstUnpinned(dumps) < |dumps|
    ensures var d := dumps[FirstUnpinned(dumps)];
            d in dumps && !d.pinned && forall e | e in dumps && !e.pinned :: d.meta.token <= e.meta.token
  {
    var i := FirstUnpinned(dumps);
    forall e | e in dumps && !e.pinned ensures dumps[i].meta.token <= e.meta.token {
      var k :| 0 <= k < |dumps| && dumps[k] == e;
      assert k >= i;
    }
  }

  lemma FirstFree(dumps: seq<Rec>, id: nat)
    requires Ordered(dumps) && OneRecordPerId(dumps)
    requires FirstUnpinned(WithoutId(dumps, id)) < |WithoutId(dumps, id)|
    ensures OldestFree(dumps, id, WithoutId(dumps, id)[FirstUnpinned(WithoutId(dumps, id))])
  {
    hide WithoutId, FirstUnpinned, OneRecordPerId;
    var others := WithoutId(dumps, id);
    PartIsOrdered(dumps, id);
    FirstUnpinnedIsOldest(others);
    WithoutIdIs(dumps, id, others[FirstUnpinned(others)]);
    forall e | e in dumps && e.meta.id != id && !e.pinned ensures e in others {
      WithoutIdIs(dumps, id, e);
    }
  }

  lemma PartIsOrdered(dumps: seq<Rec>, id: nat)
    requires Ordered(dumps) && OneRecordPerId(dumps)
    ensures Ordered(WithoutId(dumps, id))
  {
    WithoutIdPart(dumps, id);
  }

  lemma TokensBefore(s: State, d: Rec)
    requires StoreOk(s) && d in s.dumps
    ensures d.meta.token <= s.sequence
  {
    assert Fits(d, s.sequence, s.maxBytesPer);
  }

  lemma RoomLeaves(s: State, id: nat, d: Rec)
    requires StoreOk(s) && MakeRoom(s, id).Some?
    ensures d in MakeRoom(s, id).value <==>
      d in s.dumps && d.meta.id != id && !(Others(s.dumps, id) == s.maxConns && OldestFree(s.dumps, id, d))
  {
    hide WithoutId, FirstUnpinned, OldestFree, Others, OneRecordPerId, Fits;
    OthersAre(s.dumps, id);
    WithoutIdIs(s.dumps, id, d);
    WithoutIdPart(s.dumps, id);
    var others := WithoutId(s.dumps, id);
    PartIsOrdered(s.dumps, id);
    if |others| >= s.maxConns {
      FirstFree(s.dumps, id);
      RemovedAt(others, FirstUnpinned(others), d);
      if d in s.dumps { OldestIsOne(s.dumps, id, others[FirstUnpinned(others)], d); }
      WithoutIdIs(s.dumps, id, others[FirstUnpinned(others)]);
    }
  }

  lemma OldestIsOne(dumps: seq<Rec>, id: nat, oldest: Rec, d: Rec)
    requires Ordered(dumps) && OldestFree(dumps, id, oldest) && d in dumps
    ensures OldestFree(dumps, id, d) <==> d.meta.token == oldest.meta.token
  {
    if d.meta.token == oldest.meta.token { SameToken(dumps, d, oldest); }
  }

  /** A captured connection gets an empty record with the next token at the end of the list. The
      other records stay, apart from an earlier one of the same connection, and apart from the
      oldest unpinned one when the other connections fill all slots. */
  lemma BeginMakesOneRecord(s: State, id: nat, remote: string, startedAt: int, d: Rec)
    requires StoreOk(s) && MakeRoom(s, id).Some?
    ensures var next := Begin(s, id, remote, startedAt);
            && next.sequence == s.sequence + 1 && next.dumps != []
            && next.dumps[|next.dumps| - 1] == Rec(Meta(s.sequence + 1, id, remote, startedAt), false, false, 0, 0,
                 Tape([], false, false, Side(0, false), Side(0, false)))
            && (d in next.dumps && d.meta.token <= s.sequence <==>
                  && d in s.dumps && d.meta.id != id
                  && !(Others(s.dumps, id) == s.maxConns && OldestFree(s.dumps, id, d)))
  {
    hide MakeRoom, Ordered, OneRecordPerId, Others, OldestFree, FindId;
    MakeRoomOk(s, id);
    RoomLeaves(s, id, d);
    if d in s.dumps { TokensBefore(s, d); }
  }

  // ----- pins, findings, end ------------------------------------------------------------

  /** Pinning sets the pin of the connection's record and changes nothing else. */
  lemma SetPinnedPins(s: State, id: nat, pinned: bool, i: nat)
    requires StoreOk(s) && i < |s.dumps|
    ensures var next := SetPinned(s, id, pinned);
            && |next.dumps| == |s.dumps| && SameRecord(next.dumps[i], s.dumps[i])
            && next.dumps[i].findings == s.dumps[i].findings && next.dumps[i].riskScore == s.dumps[i].riskScore
            && next.dumps[i].pinned == (if s.dumps[i].meta.id == id then pinned else s.dumps[i].pinned)
  {
    OnlyRecord(s, id, i);
  }

  lemma OnlyRecord(s: State, id: nat, i: nat)
    requires StoreOk(s) && i < |s.dumps|
    ensures s.dumps[i].meta.id == id <==> i == FindId(s.dumps, id)
  {
    var k := FindId(s.dumps, id);
    if s.dumps[i].meta.id == id {
      assert s.dumps[i] in s.dumps && s.dumps[k] in s.dumps;
    }
  }

  /** A finding is counted on the connection's record, raises its risk to the score, and pins it when
      asked to; it never lowers the risk and never unpins. */
  lemma MarkFindingMarks(s: State, id: nat, score: int, pin: bool, i: nat)
    requires StoreOk(s) && i < |s.dumps|
    ensures var next, d := MarkFinding(s, id, score, pin), s.dumps[i];
            && |next.dumps| == |s.dumps| && SameRecord(next.dumps[i], d)
            && (d.meta.id != id ==> next.dumps[i] == d)
            && (d.meta.id == id ==>
                  && next.dumps[i].findings == d.findings + 1
                  && next.dumps[i].riskScore >= d.riskScore && next.dumps[i].riskScore >= score
                  && (next.dumps[i].riskScore == d.riskScore || next.dumps[i].riskScore == score)
                  && (next.dumps[i].pinned <==> d.pinned || pin))
  {
    OnlyRecord(s, id, i);
  }

  /** Finish closes the open record of the writer, with the given totals, and no other. */
  lemma FinishCloses(s: State, token: nat, bytesIn: int, bytesOut: int, i: nat)
    requires StoreOk(s) && i < |s.dumps|
    ensures var next, d := Finish(s, token, bytesIn, bytesOut), s.dumps[i];
            && |next.dumps| == |s.dumps|
            && (d.meta.token != token || d.closed ==> next.dumps[i] == d)
            && (d.meta.token == token && !d.closed ==>
                  && next.dumps[i].closed && next.dumps[i].pinned == d.pinned && next.dumps[i].meta == d.meta
                  && next.dumps[i].tape.chunks == d.tape.chunks && next.dumps[i].tape.truncated == d.tape.truncated
                  && next.dumps[i].tape.inbound.total == bytesIn && next.dumps[i].tape.outbound.total == bytesOut)
  {
    var k := FindOpen(s.dumps, token);
    if k < |s.dumps| && s.dumps[i].meta.token == token && !s.dumps[i].closed {
      assert k == i;
    }
  }

  /** Clear leaves exactly the pinned records, in their order, and ClearAll none. */
  lemma ClearLeavesThePinned(s: State, d: Rec)
    requires StoreOk(s)
    ensures d in Clear(s).dumps <==> d in s.dumps && d.pinned
    ensures Ordered(Clear(s).dumps) && ClearAll(s).dumps == []
  {
    FilterMembers(s.dumps, IsPinned, d);
    FilterPart(s.dumps, IsPinned);
  }

  // ----- resizing ---------------------------------------------------------------------------

  /** The same record, of whose capture only the first bytes of each direction may be left. */
  predicate Trimmed(after: Rec, before: Rec, limit: nat) {
    && after.meta == before.meta && after.closed == before.closed && after.pinned == before.pinned
    && after.findings == before.findings && after.riskScore == before.riskScore
    && after.tape.Captured(In) == Take(before.tape.Captured(In), limit)
    && after.tape.Captured(Out) == Take(before.tape.Captured(Out), limit)
    && after.tape.inbound.total == before.tape.inbound.total && after.tape.outbound.total == before.tape.outbound.total
  }

  /** The record is among these, possibly with less of its capture. */
  predicate IsKept(dumps: seq<Rec>, d: Rec) { exists e | e in dumps :: e.meta == d.meta }

  function Pins(dumps: seq<Rec>): nat {
    if dumps == [] then 0 else (if dumps[0].pinned then 1 else 0) + Pins(dumps[1..])
  }

  /** How many unpinned records are newer than this token. */
  function NewerUnpinned(dumps: seq<Rec>, token: int): nat {
    if dumps == [] then 0
    else (if !dumps[0].pinned && dumps[0].meta.token > token then 1 else 0) + NewerUnpinned(dumps[1..], token)
  }

  lemma {:induction false} PinsBound(dumps: seq<Rec>)
    ensures Pins(dumps) <= |dumps| && Pins(dumps) == |Filter(dumps, IsPinned)|
  {
    if dumps == [] {
    } else {
      PinsBound(dumps[1..]);
      FilterCons(dumps[0], dumps[1..], IsPinned);
      assert dumps == [dumps[0]] + dumps[1..];
    }
  }

  lemma OrderedRest(dumps: seq<Rec>)
    requires Ordered(dumps) && dumps != []
    ensures Ordered(dumps[1..]) && forall d | d in dumps[1..] :: dumps[0].meta.token < d.meta.token
  {
    OrderedCons(dumps[0], dumps[1..]);
    assert dumps == [dumps[0]] + dumps[1..];
  }

  lemma {:induction false} AllNewer(dumps: seq<Rec>, token: int)
    requires forall d | d in dumps :: token < d.meta.token
    ensures Pins(dumps) <= |dumps| && NewerUnpinned(dumps, token) == |dumps| - Pins(dumps)
  {
    if dumps == [] {
    } else {
      AllNewer(dumps[1..], token);
    }
  }

  lemma {:induction false} FewerNewer(dumps: seq<Rec>, d: Rec)
    requires Ordered(dumps) && d in dumps && !d.pinned
    ensures Pins(dumps) <= |dumps| && NewerUnpinned(dumps, d.meta.token) < |dumps| - Pins(dumps)
  {
    OrderedRest(dumps);
    if d == dumps[0] {
      AllNewer(dumps[1..], d.meta.token);
    } else {
      FewerNewer(dumps[1..], d);
    }
  }

  /** Dropping the n oldest unpinned records leaves the pinned ones and the newest others. */
  lemma {:induction false} DropOldestLeaves(dumps: seq<Rec>, n: nat, d: Rec)
    requires Ordered(dumps) && Pins(dumps) + n <= |dumps|
    ensures d in DropOldest(dumps, n) <==>
      d in dumps && (d.pinned || NewerUnpinned(dumps, d.meta.token) < |dumps| - Pins(dumps) - n)
  {
    if dumps == [] {
    } else if n == 0 {
      if d in dumps && !d.pinned { FewerNewer(dumps, d); }
    } else {
      OrderedRest(dumps);
      assert d in dumps <==> d == dumps[0] || d in dumps[1..];
      DropOldestLeaves(dumps[1..], if dumps[0].pinned then n else n - 1, d);
      if d == dumps[0] { AllNewer(dumps[1..], d.meta.token); }
    }
  }

  lemma TrimmedTape(d: Rec, limit: nat)
    ensures Trimmed(d.(tape := TrimTape(d.tape, limit)), d, limit)
  {
    TrimKeepsPrefix(d.tape.chunks, limit, In);
    TrimKeepsPrefix(d.tape.chunks, limit, Out);
    hide Stream, TrimChunks;
  }

  /** What an accepted Resize leaves: of every record that is pinned, or has fewer newer unpinned ones
      than the pins leave room for, the first bytes of its capture, and of no other record. */
  lemma ResizeLeavesTheNewest(s: State, maxConns: int, maxBytesPer: int, d: Rec)
    requires StoreOk(s) && maxConns > 0 && maxBytesPer > 0 && Pins(s.dumps) <= maxConns && d in s.dumps
    ensures var next := Resize(s, maxConns, maxBytesPer);
            && next.maxConns == maxConns && next.maxBytesPer == maxBytesPer && next.sequence == s.sequence
            && (IsKept(next.dumps, d) <==> d.pinned || NewerUnpinned(s.dumps, d.meta.token) < maxConns - Pins(s.dumps))
            && (forall e | e in next.dumps && e.meta == d.meta :: Trimmed(e, d, maxBytesPer))
  {
    hide TrimTape, Fits;
    PinsBound(s.dumps);
    DropOldestLeaves(s.dumps, Excess(s, maxConns), d);
    if !d.pinned { FewerNewer(s.dumps, d); }
    var kept := DropOldest(s.dumps, Excess(s, maxConns));
    var next := Resize(s, maxConns, maxBytesPer);
    assert next.dumps == TrimAll(kept, maxBytesPer);
    DropOldestPart(s.dumps, Excess(s, maxConns));
    if d in kept {
      var k :| 0 <= k < |kept| && kept[k] == d;
      assert next.dumps[k].meta == d.meta && next.dumps[k] in next.dumps;
    }
    forall e | e in next.dumps && e.meta == d.meta ensures d in kept && Trimmed(e, d, maxBytesPer) {
      var k :| 0 <= k < |next.dumps| && next.dumps[k] == e;
      assert kept[k] in kept && kept[k].meta == d.meta;
      SameToken(s.dumps, kept[k], d);
      TrimmedTape(d, maxBytesPer);
    }
  }

  lemma ResizeMakesNone(s: State, maxConns: int, maxBytesPer: int, e: Rec)
    requires StoreOk(s) && maxConns > 0 && maxBytesPer > 0 && Pins(s.dumps) <= maxConns
    requires e in Resize(s, maxConns, maxBytesPer).dumps
    ensures exists d | d in s.dumps :: Trimmed(e, d, maxBytesPer)
  {
    hide TrimTape, Fits, Trimmed;
    PinsBound(s.dumps);
    var kept := DropOldest(s.dumps, Excess(s, maxConns));
    DropOldestPart(s.dumps, Excess(s, maxConns));
    var k :| 0 <= k < |kept| && TrimAll(kept, maxBytesPer)[k] == e;
    assert kept[k] in kept;
    TrimmedTape(kept[k], maxBytesPer);
  }

  /** Exactly the pinned records and the newest others are kept. */
  predicate NewestKept(before: seq<Rec>, after: seq<Rec>, maxConns: int) {
    forall d | d in before ::
      IsKept(after, d) <==> d.pinned || NewerUnpinned(before, d.meta.token) < maxConns - Pins(before)
  }

  /** The record is a trimmed one of these. */
  predicate IsTrimmed(dumps: seq<Rec>, e: Rec, limit: nat) { exists d | d in dumps :: Trimmed(e, d, limit) }

  /** What a rule's captures become when its limits become these: of the pinned records and of the
      newest others the first bytes, and with the limits of before everything. */
  predicate KeepsNewest(before: State, after: State, maxConns: int, maxBytesPer: nat) {
    && after.maxConns == maxConns && after.maxBytesPer == maxBytesPer && after.sequence == before.sequence
    && Ordered(after.dumps)
    && NewestKept(before.dumps, after.dumps, maxConns)
    && (forall e | e in after.dumps :: IsTrimmed(before.dumps, e, maxBytesPer))
    && (maxConns == before.maxConns && maxBytesPer == before.maxBytesPer ==> after == before)
  }

  lemma ResizeKeepsNewest(s: State, maxConns: int, maxBytesPer: int)
    requires StoreOk(s) && maxConns > 0 && maxBytesPer > 0 && Pins(s.dumps) <= maxConns
    ensures KeepsNewest(s, Resize(s, maxConns, maxBytesPer), maxConns, maxBytesPer)
  {
    hide Resize, Ordered, IsTrimmed, NewestKept;
    ResizeIsOrdered(s, maxConns, maxBytesPer);
    ResizeKeepsThose(s, maxConns, maxBytesPer);
    forall e | e in Resize(s, maxConns, maxBytesPer).dumps ensures IsTrimmed(s.dumps, e, maxBytesPer) {
      ResizeTrims(s, maxConns, maxBytesPer, e);
    }
    ResizeWithoutEffect(s, maxConns, maxBytesPer);
    ResizeLimits(s, maxConns, maxBytesPer);
  }

  lemma ResizeIsOrdered(s: State, maxConns: int, maxBytesPer: int)
    requires StoreOk(s)
    ensures Ordered(Resize(s, maxConns, maxBytesPer).dumps)
  {
    hide Resize, Fits, OneRecordPerId;
    ResizeOk(s, maxConns, maxBytesPer);
  }

  lemma ResizeTrims(s: State, maxConns: int, maxBytesPer: int, e: Rec)
    requires StoreOk(s) && maxConns > 0 && maxBytesPer > 0 && Pins(s.dumps) <= maxConns
    requires e in Resize(s, maxConns, maxBytesPer).dumps
    ensures IsTrimmed(s.dumps, e, maxBytesPer)
  {
    hide Resize, Trimmed, StoreOk;
    ResizeMakesNone(s, maxConns, maxBytesPer, e);
  }

  lemma ResizeKeepsThose(s: State, maxConns: int, maxBytesPer: int)
    requires StoreOk(s) && maxConns > 0 && maxBytesPer > 0 && Pins(s.dumps) <= maxConns
    ensures NewestKept(s.dumps, Resize(s, maxConns, maxBytesPer).dumps, maxConns)
  {
    hide Resize, IsKept, StoreOk;
    forall d | d in s.dumps
      ensures IsKept(Resize(s, maxConns, maxBytesPer).dumps, d)
         <==> d.pinned || NewerUnpinned(s.dumps, d.meta.token) < maxConns - Pins(s.dumps)
    {
      ResizeLeavesTheNewest(s, maxConns, maxBytesPer, d);
    }
  }

  lemma ResizeLimits(s: State, maxConns: int, maxBytesPer: int)
    requires maxConns > 0 && maxBytesPer > 0 && Pins(s.dumps) <= maxConns
    ensures var next := Resize(s, maxConns, maxBytesPer);
            next.maxConns == maxConns && next.maxBytesPer == maxBytesPer && next.sequence == s.sequence
  {
    PinsBound(s.dumps);
  }

  /** With more pins than records allowed, or limits that are not positive, Resize changes nothing;
      with the limits of before it changes nothing either. */
  lemma ResizeWithoutEffect(s: State, maxConns: int, maxBytesPer: int)
    requires StoreOk(s)
    ensures maxConns <= 0 || maxBytesPer <= 0 || Pins(s.dumps) > maxConns ==> Resize(s, maxConns, maxBytesPer) == s
    ensures Resize(s, s.maxConns, s.maxBytesPer) == s
  {
    PinsBound(s.dumps);
    DropOldestZero(s.dumps, 0);
    forall i | 0 <= i < |s.dumps| ensures s.dumps[i].(tape := TrimTape(s.dumps[i].tape, s.maxBytesPer)) == s.dumps[i] {
      assert Fits(s.dumps[i], s.sequence, s.maxBytesPer);
    }
    assert TrimAll(s.dumps, s.maxBytesPer) == s.dumps;
  }
}
