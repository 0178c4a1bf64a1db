/** internal/proxy/dump.go in its own form: records that are updated in place, shared by
    the list of captures and by the map of the records that writers may still change. */
module Recording {
  import opened Streams
  import opened Capture
  import Store
  import Search

  class RecordedConn {
    const token: nat
    const id: nat
    const remote: string
    const startedAt: int
    var closed: bool
    var pinned: bool
    var findings: nat
    var riskScore: int
    var bytesIn: int
    var bytesOut: int
    var chunks: seq<Chunk>
    var truncated: bool
    var metadataFull: bool
    var writtenIn: nat
    var writtenOut: nat
    var truncatedIn: bool
    var truncatedOut: bool

    function TapeValue(): Tape
      reads `chunks, `truncated, `metadataFull, `bytesIn, `bytesOut, `truncatedIn, `truncatedOut
    {
      Tape(chunks, truncated, metadataFull, Side(bytesIn, truncatedIn), Side(bytesOut, truncatedOut))
    }

    function Value(): Rec
      reads this
    {
      Rec(Meta(token, id, remote, startedAt), closed, pinned, findings, riskScore, TapeValue())
    }

    /** The byte counters are the lengths of the captured streams. */
    predicate Counted()
      reads `chunks, `writtenIn, `writtenOut
    {
      writtenIn == |Stream(chunks, In)| && writtenOut == |Stream(chunks, Out)|
    }

    constructor (token: nat, id: nat, remote: string, startedAt: int)
      ensures Value() == Store.NewRec(token, id, remote, startedAt) && Counted()
      ensures this.token == token && !closed
    {
      this.token, this.id, this.remote, this.startedAt := token, id, remote, startedAt;
      closed, pinned, findings, riskScore := false, false, 0, 0;
      bytesIn, bytesOut, chunks := 0, 0, [];
      truncated, metadataFull := false, false;
      writtenIn, writtenOut, truncatedIn, truncatedOut := 0, 0, false, false;
    }

    method Mark(score: int, pin: bool)
      modifies `findings, `riskScore, `pinned
      ensures Value() == Store.Marked(old(Value()), score, pin)
    {
      findings := findings + 1;
      if score > riskScore { riskScore := score; }
      if pin { pinned := true; }
    }

    method Close(bytesIn: int, bytesOut: int)
      modifies `closed, `bytesIn, `bytesOut
      ensures closed
      ensures Value() == old(Value()).(closed := true, tape := Store.SetTotals(old(TapeValue()), bytesIn, bytesOut))
    {
      closed := true;
      this.bytesIn, this.bytesOut := bytesIn, bytesOut;
    }

    /** Keep only the leading bytes of each direction. */
    method Trim(maxBytesPer: nat)
      requires Counted()
      modifies `chunks, `writtenIn, `writtenOut, `truncated, `truncatedIn, `truncatedOut
      ensures Counted()
      ensures TapeValue() == TrimTape(old(TapeValue()), maxBytesPer)
    {
      hide Stream, TrimChunks;
      if writtenIn > maxBytesPer || writtenOut > maxBytesPer {
        var kept, in_, out, cutIn, cutOut := TrimLoop(chunks, maxBytesPer);
        truncated := truncated || cutIn || cutOut;
        truncatedIn, truncatedOut := truncatedIn || cutIn, truncatedOut || cutOut;
        chunks, writtenIn, writtenOut := kept, in_, out;
      }
    }

    /** Put captured bytes into the last chunk or a new one, unless no chunk is left. */
    method StoreChunk(dir: Dir, data: seq<byte>, datagram: bool)
      requires !metadataFull
      modifies `chunks, `truncated, `metadataFull
      ensures TapeValue() == Keep(old(TapeValue()), dir, data, datagram)
    {
      var last := |chunks| - 1;
      if !datagram && last >= 0 && chunks[last].dir == dir {
        chunks := chunks[..last] + [Chunk(dir, chunks[last].data + data)];
      } else if |chunks| >= MAX_CHUNKS {
        truncated, metadataFull := true, true;
      } else {
        chunks := chunks + [Chunk(dir, data)];
      }
    }

    method KeepBytes(dir: Dir, data: seq<byte>, datagram: bool)
      requires Counted() && !metadataFull
      modifies `chunks, `writtenIn, `writtenOut, `truncated, `metadataFull
      ensures Counted()
      ensures TapeValue() == Keep(old(TapeValue()), dir, data, datagram)
    {
      KeepCaptures(TapeValue(), dir, data, datagram, In);
      KeepCaptures(TapeValue(), dir, data, datagram, Out);
      hide Stream, Keep;
      StoreChunk(dir, data, datagram);
      var n := if metadataFull then 0 else |data|;
      if dir == Out { writtenOut := writtenOut + n; } else { writtenIn := writtenIn + n; }
    }

    method CountTotal(dir: Dir, n: nat)
      modifies `bytesIn, `bytesOut
      ensures TapeValue() == CountBytes(old(TapeValue()), dir, n)
    {
      if dir == Out { bytesOut := bytesOut + n; } else { bytesIn := bytesIn + n; }
    }

    method MarkTruncated(dir: Dir)
      modifies `truncated, `truncatedIn, `truncatedOut
      ensures TapeValue() == MarkShort(old(TapeValue()), dir, true)
    {
      truncated := true;
      if dir == Out { truncatedOut := true; } else { truncatedIn := true; }
    }

    /** Capture what fits of b, and mark what does not. */
    method AppendFitting(dir: Dir, b: seq<byte>, datagram: bool, maxBytesPer: int)
      requires Counted() && TapeOk(TapeValue(), maxBytesPer) && b != [] && !TapeValue().Stopped(dir)
      modifies `chunks, `writtenIn, `writtenOut, `truncated, `truncatedIn, `truncatedOut, `metadataFull
      ensures Counted()
      ensures TapeValue() == Fit(old(TapeValue()), maxBytesPer, dir, b, datagram)
    {
      hide Stream, Keep;
      var room := maxBytesPer - (if dir == Out then writtenOut else writtenIn);
      var data := b;
      if room < |b| {
        MarkTruncated(dir);
        data := b[..room];
      }
      assert TapeValue() == MarkShort(old(TapeValue()), dir, |data| < |b|);
      if |data| > 0 {
        KeepBytes(dir, data, datagram);
      }
    }

    /** The part of connWriter.write that runs once the open record is found. */
    method Append(dir: Dir, b: seq<byte>, datagram: bool, maxBytesPer: int)
      requires Counted() && TapeOk(TapeValue(), maxBytesPer) && b != []
      modifies `chunks, `bytesIn, `bytesOut, `writtenIn, `writtenOut
      modifies `truncated, `truncatedIn, `truncatedOut, `metadataFull
      ensures Counted()
      ensures TapeValue() == WriteTape(old(TapeValue()), maxBytesPer, dir, b, datagram)
    {
      hide Stream, Fit;
      CountTotal(dir, |b|);
      if !TapeValue().Stopped(dir) {
        AppendFitting(dir, b, datagram, maxBytesPer);
      }
    }
  }

  function Objects(dumps: seq<RecordedConn>): set<RecordedConn> {
    set d | d in dumps
  }

  function Values(dumps: seq<RecordedConn>): seq<Rec>
    reads dumps
  {
    seq(|dumps|, i requires 0 <= i < |dumps| reads dumps => dumps[i].Value())
  }

  predicate TokensOrdered(dumps: seq<RecordedConn>) {
    forall i, j | 0 <= i < j < |dumps| :: dumps[i].token < dumps[j].token
  }

  /** The map of writable records holds exactly the open records, by token. */
  ghost predicate ActiveOk(dumps: seq<RecordedConn>, active: map<nat, RecordedConn>)
    reads (set d | d in dumps)`closed
  {
    && (forall t | t in active :: active[t] in dumps && active[t].token == t && !active[t].closed)
    && (forall d | d in dumps && !d.closed :: d.token in active && active[d.token] == d)
  }

  predicate AllCounted(dumps: seq<RecordedConn>)
    reads (set d | d in dumps)`chunks, (set d | d in dumps)`writtenIn, (set d | d in dumps)`writtenOut
  {
    forall d | d in dumps :: d.Counted()
  }

  ghost predicate Linked(dumps: seq<RecordedConn>, active: map<nat, RecordedConn>)
    reads dumps
  {
    TokensOrdered(dumps) && AllCounted(dumps) && ActiveOk(dumps, active)
  }

  lemma RemoveTokens(dumps: seq<RecordedConn>, i: nat)
    requires i < |dumps| && TokensOrdered(dumps)
    ensures TokensOrdered(RemoveAt(dumps, i))
    ensures forall d :: d in RemoveAt(dumps, i) <==> d in dumps && d.token != dumps[i].token
  {
    var rest := RemoveAt(dumps, i);
    forall d: RecordedConn ensures d in rest <==> d in dumps && d.token != dumps[i].token {
      if d in dumps && d.token != dumps[i].token {
        var k :| 0 <= k < |dumps| && dumps[k] == d;
        assert rest[if k < i then k else k - 1] == d;
      }
    }
  }

  lemma RemoveLinked(dumps: seq<RecordedConn>, active: map<nat, RecordedConn>, i: nat)
    requires Linked(dumps, active) && i < |dumps|
    ensures Linked(RemoveAt(dumps, i), active - {dumps[i].token})
    ensures Objects(RemoveAt(dumps, i)) <= Objects(dumps)
  {
    RemoveTokens(dumps, i);
    hide RemoveAt, TokensOrdered;
  }

  lemma AppendTokens(dumps: seq<RecordedConn>, d: RecordedConn)
    requires TokensOrdered(dumps) && forall e | e in Objects(dumps) :: e.token < d.token
    ensures TokensOrdered(dumps + [d])
    ensures Objects(dumps + [d]) == Objects(dumps) + {d}
  {
    var all := dumps + [d];
    forall i, j | 0 <= i < j < |all| ensures all[i].token < all[j].token {
      assert all[i] in Objects(dumps);
    }
  }

  lemma AppendLinked(dumps: seq<RecordedConn>, active: map<nat, RecordedConn>, d: RecordedConn)
    requires Linked(dumps, active) && d.Counted() && !d.closed
    requires forall e | e in Objects(dumps) :: e.token < d.token
    ensures Linked(dumps + [d], active[d.token := d])
    ensures Values(dumps + [d]) == Values(dumps) + [d.Value()]
    ensures Objects(dumps + [d]) == Objects(dumps) + {d}
  {
    AppendTokens(dumps, d);
    assert forall e :: e in dumps + [d] <==> e in Objects(dumps) || e == d;
  }

  /** After one record changed in place. */
  lemma UpdatedValues(dumps: seq<RecordedConn>, i: nat, was: seq<Rec>)
    requires TokensOrdered(dumps) && i < |dumps| == |was|
    requires forall j | 0 <= j < |dumps| && dumps[j] != dumps[i] :: dumps[j].Value() == was[j]
    ensures Values(dumps) == was[i := dumps[i].Value()]
  {
  }

  lemma CloseLinked(dumps: seq<RecordedConn>, active: map<nat, RecordedConn>, i: nat)
    requires TokensOrdered(dumps) && i < |dumps| && dumps[i].closed
    requires forall t | t in active ::
      active[t] in dumps && active[t].token == t && (active[t] != dumps[i] ==> !active[t].closed)
    requires forall d | d in dumps && !d.closed :: d.token in active && active[d.token] == d
    ensures ActiveOk(dumps, active - {dumps[i].token})
  {
    TokensDistinct(dumps, i);
    hide TokensOrdered;
  }

  /** Where the writable record with this token is. */
  lemma OpenIndex(dumps: seq<RecordedConn>, active: map<nat, RecordedConn>, token: nat) returns (i: nat)
    requires Linked(dumps, active)
    ensures i == Store.FindOpen(Values(dumps), token) && i <= |dumps|
    ensures token in active <==> i < |dumps|
    ensures token in active ==> dumps[i] == active[token]
  {
    if token in active {
      i :| 0 <= i < |dumps| && dumps[i] == active[token];
    } else {
      i := |dumps|;
    }
    Store.FindOpenIs(Values(dumps), token, i);
  }

  lemma TokensDistinct(dumps: seq<RecordedConn>, i: nat)
    requires TokensOrdered(dumps) && i < |dumps|
    ensures forall d | d in dumps :: d != dumps[i] ==> d.token != dumps[i].token
  {
  }

  lemma RemoveValues(dumps: seq<RecordedConn>, i: nat)
    requires i < |dumps|
    ensures Values(RemoveAt(dumps, i)) == RemoveAt(Values(dumps), i)
  {
  }

  /** The records once the loop of Clear has gone down to index i. */
  function Cleared(was: seq<Rec>, i: nat): seq<Rec>
    requires i <= |was|
  {
    was[..i] + Filter(was[i..], Store.IsPinned)
  }

  /** The records once the last loop of Resize has trimmed the first n of them. */
  function TrimmedFirst(was: seq<Rec>, n: nat, limit: nat): seq<Rec> {
    seq(|was|, i requires 0 <= i < |was| =>
      if i < n then was[i].(tape := TrimTape(was[i].tape, limit)) else was[i])
  }

  lemma ValuesOf(dumps: seq<RecordedConn>)
    ensures |Values(dumps)| == |dumps|
    ensures forall j | 0 <= j < |dumps| :: Values(dumps)[j] == dumps[j].Value()
  {
  }

  lemma ValuesLength(dumps: seq<RecordedConn>)
    ensures |Values(dumps)| == |dumps|
  {
  }

  lemma ClearedEnds(was: seq<Rec>)
    ensures Cleared(was, |was|) == was
    ensures Cleared(was, 0) == Filter(was, Store.IsPinned)
  {
    assert was[..|was|] == was && was[0..] == was;
  }

  lemma ClearedNext(was: seq<Rec>, i: nat)
    requires i < |was|
    ensures var now := Cleared(was, i + 1);
            i < |now| && Cleared(was, i) == (if now[i].pinned then now else RemoveAt(now, i))
  {
    FilterFrom(was, i, Store.IsPinned);
    hide Filter;
  }

  class Recorder {
    var maxConns: int
    var maxBytesPer: int
    var sequence: nat
    var dumps: seq<RecordedConn>
    var active: map<nat, RecordedConn>

    function Model(): Store.State
      reads this, dumps
    {
      Store.State(maxConns, maxBytesPer, sequence, Values(dumps))
    }

    ghost predicate Valid()
      reads this, dumps
    {
      Linked(dumps, active) && Store.StoreOk(Model())
    }

    constructor (maxConns: int, maxBytesPer: int)
      ensures Valid() && Model() == Store.NewState(maxConns, maxBytesPer)
    {
      this.maxConns := if maxConns <= 0 then 50 else maxConns;
      this.maxBytesPer := if maxBytesPer <= 0 then 64 * 1024 else maxBytesPer;
      sequence, dumps, active := 0, [], map[];
    }

    method Remove(i: nat)
      requires Linked(dumps, active) && i < |dumps|
      modifies `dumps, `active
      ensures Linked(dumps, active)
      ensures dumps == RemoveAt(old(dumps), i)
      ensures Values(dumps) == RemoveAt(old(Values(dumps)), i)
      ensures Objects(dumps) <= old(Objects(dumps))
    {
      RemoveLinked(dumps, active, i);
      RemoveValues(dumps, i);
      active := active - {dumps[i].token};
      dumps := dumps[..i] + dumps[i + 1..];
      assert dumps == RemoveAt(old(dumps), i);
      hide RemoveAt, Linked, Values, Objects;
    }

    method EvictOldestUnpinned() returns (evicted: bool)
      requires Linked(dumps, active)
      modifies `dumps, `active
      ensures Linked(dumps, active)
      ensures var was := old(Values(dumps)); var i := Store.FirstUnpinned(was);
              && evicted == (i < |was|)
              && Values(dumps) == (if i < |was| then RemoveAt(was, i) else was)
      ensures Objects(dumps) <= old(Objects(dumps))
    {
      for i := 0 to |dumps|
        invariant dumps == old(dumps) && active == old(active)
        invariant forall j | 0 <= j < i :: Values(dumps)[j].pinned
      {
        if !dumps[i].pinned {
          Store.FirstUnpinnedIs(Values(dumps), i);
          Remove(i);
          return true;
        }
      }
      Store.FirstUnpinnedIs(Values(dumps), |dumps|);
      return false;
    }

    /** Free the slot of a new record: drop the earlier capture of this connection, and the
        oldest unpinned one when the recorder is full. */
    method FreeSlot(id: nat) returns (ok: bool)
      requires Valid()
      modifies `dumps, `active
      ensures Linked(dumps, active) && Objects(dumps) <= old(Objects(dumps))
      ensures var room := Store.MakeRoom(old(Model()), id);
              && ok == room.Some?
              && Values(dumps) == (if ok then room.value else old(Values(dumps)))
    {
      var found := FindId(id);
      assert |dumps| == |Values(dumps)| <= maxConns;
      hide RemoveAt, Linked, Store.FindId, Store.StoreOk;
      if found < |dumps| {
        if dumps[found].pinned {
          return false;
        }
        Remove(found);
      }
      if |dumps| >= maxConns {
        ok := EvictOldestUnpinned();
      } else {
        ok := true;
      }
    }

    /** A writer is named by the token of its record; there is none when every slot is pinned
        or the pinned record of this connection is still there. */
    method BeginProtocol(id: nat, remote: string, startedAt: int) returns (writer: Option<nat>)
      requires Valid()
      modifies `sequence, `dumps, `active
      ensures Valid() && Model() == Store.Begin(old(Model()), id, remote, startedAt)
      ensures writer == (if Store.MakeRoom(old(Model()), id).Some? then Some(old(sequence) + 1) else None)
      ensures forall d | d in Objects(dumps) :: d in old(Objects(dumps)) || fresh(d)
    {
      hide Linked, Values, Objects, Store.MakeRoom, Store.StoreOk, Store.NewRec;
      Store.BeginOk(Model(), id, remote, startedAt);
      ValidParts();
      var ok := FreeSlot(id);
      if ok {
        Append(id, remote, startedAt);
        writer := Some(sequence);
      } else {
        writer := None;
      }
    }

    method Append(id: nat, remote: string, startedAt: int)
      requires Linked(dumps, active) && TokensBounded()
      modifies `sequence, `dumps, `active
      ensures Linked(dumps, active) && sequence == old(sequence) + 1
      ensures Values(dumps) == old(Values(dumps)) + [Store.NewRec(sequence, id, remote, startedAt)]
      ensures forall d | d in Objects(dumps) :: d in old(Objects(dumps)) || fresh(d)
    {
      hide Linked, Values, Objects;
      sequence := sequence + 1;
      var d := new RecordedConn(sequence, id, remote, startedAt);
      AppendLinked(dumps, active, d);
      dumps := dumps + [d];
      active := active[d.token := d];
    }

    predicate TokensBounded()
      reads this
    {
      forall d | d in Objects(dumps) :: d.token <= sequence
    }

    lemma ValidParts()
      requires Valid()
      ensures Linked(dumps, active) && TokensBounded()
    {
      forall d | d in Objects(dumps) ensures d.token <= sequence {
        var i :| 0 <= i < |dumps| && dumps[i] == d;
        assert Values(dumps)[i] in Values(dumps);
        assert Store.Fits(Values(dumps)[i], sequence, maxBytesPer);
      }
    }

    method SetPinned(id: nat, pinned: bool) returns (found: bool)
      requires Valid()
      modifies Objects(dumps)
      ensures dumps == old(dumps) && Valid()
      ensures Model() == Store.SetPinned(old(Model()), id, pinned)
      ensures found == (Store.FindId(old(Values(dumps)), id) < |dumps|)
    {
      Store.SetPinnedOk(Model(), id, pinned);
      var i := FindId(id);
      found := i < |dumps|;
      if found {
        assert dumps[i].Value() == Values(dumps)[i];
        hide Linked, Values, Store.StoreOk, Store.FindId;
        SetPin(dumps[i], i, pinned);
      }
    }

    method SetPin(d: RecordedConn, i: nat, pinned: bool)
      requires Linked(dumps, active) && i < |dumps| && dumps[i] == d
      modifies d`pinned
      ensures Linked(dumps, active)
      ensures Values(dumps) == old(Values(dumps))[i := old(d.Value()).(pinned := pinned)]
    {
      d.pinned := pinned;
      UpdatedValues(dumps, i, old(Values(dumps)));
    }

    method MarkFinding(id: nat, score: int, pin: bool) returns (found: bool)
      requires Valid()
      modifies Objects(dumps)
      ensures dumps == old(dumps) && Valid()
      ensures Model() == Store.MarkFinding(old(Model()), id, score, pin)
      ensures found == (Store.FindId(old(Values(dumps)), id) < |dumps|)
    {
      Store.MarkFindingOk(Model(), id, score, pin);
      var i := FindId(id);
      found := i < |dumps|;
      if found {
        assert dumps[i].Value() == Values(dumps)[i];
        hide Linked, Values, Store.StoreOk, Store.FindId;
        Mark(dumps[i], i, score, pin);
      }
    }

    method Mark(d: RecordedConn, i: nat, score: int, pin: bool)
      requires Linked(dumps, active) && i < |dumps| && dumps[i] == d
      modifies d`findings, d`riskScore, d`pinned
      ensures Linked(dumps, active)
      ensures Values(dumps) == old(Values(dumps))[i := Store.Marked(old(d.Value()), score, pin)]
    {
      d.Mark(score, pin);
      UpdatedValues(dumps, i, old(Values(dumps)));
    }

    /** connWriter.write, for the writer with this token. */
    method Write(token: nat, dir: Dir, b: seq<byte>, datagram: bool)
      requires Valid()
      modifies Objects(dumps)
      ensures dumps == old(dumps) && Valid()
      ensures Model() == Store.Write(old(Model()), token, dir, b, datagram)
    {
      hide Linked, Values, Store.StoreOk, Store.FindOpen, WriteTape, TapeOk;
      Store.WriteStateOk(Model(), token, dir, b, datagram);
      ghost var i := OpenParts(token);
      if b == [] {
        WriteNothing(token, dir, datagram);
        return;
      }
      if token in active {
        WriteTo(active[token], i, dir, b, datagram);
      }
    }

    /** What a writer that is looked up in the map finds. */
    lemma OpenParts(token: nat) returns (i: nat)
      requires Valid()
      ensures Linked(dumps, active)
      ensures i == Store.FindOpen(Values(dumps), token) && i <= |dumps| == |Values(dumps)|
      ensures token in active <==> i < |dumps|
      ensures token in active ==>
        && dumps[i] == active[token] && active[token] in Objects(dumps)
        && active[token].Value() == Values(dumps)[i]
        && TapeOk(active[token].TapeValue(), maxBytesPer)
    {
      i := OpenIndex(dumps, active, token);
      if token in active {
        assert Store.Fits(Values(dumps)[i], sequence, maxBytesPer);
      }
    }

    /** Counting an empty write changes nothing. */
    lemma WriteNothing(token: nat, dir: Dir, datagram: bool)
      requires Valid()
      ensures Store.Write(Model(), token, dir, [], datagram) == Model()
    {
      var i := Store.FindOpen(Values(dumps), token);
      if i < |dumps| {
        assert Values(dumps)[i := Values(dumps)[i]] == Values(dumps);
      }
    }

    method WriteTo(d: RecordedConn, ghost i: nat, dir: Dir, b: seq<byte>, datagram: bool)
      requires Linked(dumps, active) && i < |dumps| && dumps[i] == d
      requires TapeOk(d.TapeValue(), maxBytesPer) && b != []
      modifies d`chunks, d`bytesIn, d`bytesOut, d`writtenIn, d`writtenOut
      modifies d`truncated, d`truncatedIn, d`truncatedOut, d`metadataFull
      ensures Linked(dumps, active)
      ensures Values(dumps) == old(Values(dumps))[i := old(d.Value()).(tape :=
        WriteTape(old(d.TapeValue()), maxBytesPer, dir, b, datagram))]
    {
      d.Append(dir, b, datagram, maxBytesPer);
      hide WriteTape, Stream;
      UpdatedValues(dumps, i, old(Values(dumps)));
    }

    method Finish(token: nat, bytesIn: int, bytesOut: int)
      requires Valid()
      modifies `active, Objects(dumps)
      ensures dumps == old(dumps) && Valid()
      ensures Model() == Store.Finish(old(Model()), token, bytesIn, bytesOut)
    {
      hide Linked, Values, Store.StoreOk, Store.FindOpen;
      Store.FinishOk(Model(), token, bytesIn, bytesOut);
      ghost var i := OpenParts(token);
      if token in active {
        Close(active[token], i, bytesIn, bytesOut);
      }
    }

    method Close(d: RecordedConn, ghost i: nat, bytesIn: int, bytesOut: int)
      requires Linked(dumps, active) && i < |dumps| && dumps[i] == d
      modifies `active, d`closed, d`bytesIn, d`bytesOut
      ensures Linked(dumps, active)
      ensures Values(dumps) == old(Values(dumps))[i := old(d.Value()).(closed := true,
        tape := Store.SetTotals(old(d.TapeValue()), bytesIn, bytesOut))]
    {
      hide Values, TokensOrdered, AllCounted;
      ValuesOf(dumps);
      d.Close(bytesIn, bytesOut);
      CloseLinked(dumps, active, i);
      active := active - {d.token};
      UpdatedValues(dumps, i, old(Values(dumps)));
    }

    /** Resize is refused when the pinned records do not fit; `oversized` stands for the
        capacity test that decides whether the containers are rebuilt. */
    method Resize(maxConns: int, maxBytesPer: int, oversized: bool) returns (ok: bool)
      requires Valid()
      modifies this, Objects(dumps)
      ensures Valid() && Model() == Store.Resize(old(Model()), maxConns, maxBytesPer)
      ensures ok == Store.ResizeAccepted(old(Model()), maxConns, maxBytesPer)
      ensures Objects(dumps) <= old(Objects(dumps))
    {
      Store.ResizeOk(Model(), maxConns, maxBytesPer);
      var pinned := CountPinned();
      if maxConns <= 0 || maxBytesPer <= 0 || pinned > maxConns {
        return false;
      }
      hide Linked, Values, Store.StoreOk, Filter;
      ApplyLimits(maxConns, maxBytesPer, oversized);
      return true;
    }

    method ApplyLimits(maxConns: nat, maxBytesPer: nat, oversized: bool)
      requires Linked(dumps, active) && |Filter(Values(dumps), Store.IsPinned)| <= maxConns
      modifies this, Objects(dumps)
      ensures Linked(dumps, active) && Objects(dumps) <= old(Objects(dumps))
      ensures this.maxConns == maxConns && this.maxBytesPer == maxBytesPer && sequence == old(sequence)
      ensures Values(dumps) == Store.TrimAll(
        Store.DropOldest(old(Values(dumps)), Store.Excess(old(Model()), maxConns)), maxBytesPer)
    {
      hide Linked, Values, Filter, Objects, Store.DropOldest, Store.TrimAll;
      ValuesLength(dumps);
      this.maxConns, this.maxBytesPer := maxConns, maxBytesPer;
      Shrink(maxConns);
      if oversized {
        RebuildActive();
      }
      TrimAll(maxBytesPer);
    }

    method CountPinned() returns (pinned: nat)
      ensures pinned == |Filter(Values(dumps), Store.IsPinned)|
    {
      ghost var was := Values(dumps);
      pinned := 0;
      assert was[..0] == [] && was[..|was|] == was;
      for i := 0 to |dumps|
        invariant pinned == |Filter(was[..i], Store.IsPinned)|
      {
        assert was[..i + 1] == was[..i] + [was[i]];
        FilterSnoc(was[..i], was[i], Store.IsPinned);
        if dumps[i].pinned {
          pinned := pinned + 1;
        }
      }
    }

    /** Terminates because the pinned records alone fit. */
    method Shrink(maxConns: nat)
      requires Linked(dumps, active) && |Filter(Values(dumps), Store.IsPinned)| <= maxConns
      modifies `dumps, `active
      ensures Linked(dumps, active) && Objects(dumps) <= old(Objects(dumps))
      ensures var was := old(Values(dumps));
              Values(dumps) == Store.DropOldest(was, if |was| > maxConns then |was| - maxConns else 0)
    {
      hide Linked, Values, Filter, RemoveAt, Objects, Store.DropOldest, Store.FirstUnpinned;
      ghost var was := Values(dumps);
      ValuesLength(dumps);
      Store.PinnedOrNot(was);
      Store.DropOldestZero(was, 0);
      ghost var n := 0;
      while |dumps| > maxConns
        invariant 0 <= n <= |Filter(was, Store.IsUnpinned)| && n <= (if |was| > maxConns then |was| - maxConns else 0)
        invariant |dumps| == |was| - n && Linked(dumps, active)
        invariant Values(dumps) == Store.DropOldest(was, n)
        invariant Objects(dumps) <= old(Objects(dumps))
        decreases |dumps|
      {
        Store.DropOldestNext(was, n);
        EvictOne();
        n := n + 1;
      }
    }

    method EvictOne()
      requires Linked(dumps, active) && Store.FirstUnpinned(Values(dumps)) < |Values(dumps)|
      modifies `dumps, `active
      ensures Linked(dumps, active) && |dumps| == |old(dumps)| - 1
      ensures Values(dumps) == RemoveAt(old(Values(dumps)), Store.FirstUnpinned(old(Values(dumps))))
      ensures Objects(dumps) <= old(Objects(dumps))
    {
      hide Linked;
      var evicted := EvictOldestUnpinned();
      assert |Values(dumps)| == |dumps|;
    }

    /** The rebuilt map is the map that is already there. */
    method RebuildActive()
      requires Linked(dumps, active)
      modifies `active
      ensures active == old(active)
    {
      var rebuilt: map<nat, RecordedConn> := map[];
      for i := 0 to |dumps|
        invariant forall t | t in rebuilt :: t in active && rebuilt[t] == active[t]
        invariant forall j | 0 <= j < i && !dumps[j].closed :: dumps[j].token in rebuilt
      {
        if !dumps[i].closed {
          rebuilt := rebuilt[dumps[i].token := dumps[i]];
        }
      }
      assert rebuilt == active;
      active := rebuilt;
    }

    method TrimAll(maxBytesPer: nat)
      requires Linked(dumps, active)
      modifies Objects(dumps)
      ensures Linked(dumps, active)
      ensures Values(dumps) == Store.TrimAll(old(Values(dumps)), maxBytesPer)
    {
      ghost var was := Values(dumps);
      for i := 0 to |dumps|
        invariant Linked(dumps, active)
        invariant Values(dumps) == TrimmedFirst(was, i, maxBytesPer)
      {
        assert dumps[i].Value() == Values(dumps)[i] == was[i];
        hide Linked, Values;
        TrimOne(dumps[i], i, maxBytesPer);
      }
      assert TrimmedFirst(was, |was|, maxBytesPer) == Store.TrimAll(was, maxBytesPer);
    }

    method TrimOne(d: RecordedConn, ghost i: nat, maxBytesPer: nat)
      requires Linked(dumps, active) && i < |dumps| && dumps[i] == d
      modifies d`chunks, d`writtenIn, d`writtenOut, d`truncated, d`truncatedIn, d`truncatedOut
      ensures Linked(dumps, active)
      ensures Values(dumps) == old(Values(dumps))[i := old(d.Value()).(tape := TrimTape(old(d.TapeValue()), maxBytesPer))]
    {
      d.Trim(maxBytesPer);
      hide TrimTape, Stream;
      UpdatedValues(dumps, i, old(Values(dumps)));
    }

    /** Clear keeps pinned captures. */
    method Clear()
      requires Valid()
      modifies `dumps, `active
      ensures Valid() && Model() == Store.Clear(old(Model()))
      ensures Objects(dumps) <= old(Objects(dumps))
    {
      Store.ClearOk(Model());
      RemoveUnpinned();
    }

    method RemoveUnpinned()
      requires Linked(dumps, active)
      modifies `dumps, `active
      ensures Linked(dumps, active)
      ensures Values(dumps) == Filter(old(Values(dumps)), Store.IsPinned)
      ensures Objects(dumps) <= old(Objects(dumps))
    {
      ghost var was := Values(dumps);
      ClearedEnds(was);
      assert |dumps| == |was|;
      hide Linked, Cleared, RemoveAt, Filter;
      for i := |dumps| downto 0
        invariant i <= |dumps| && i <= |was| && Linked(dumps, active)
        invariant Values(dumps) == Cleared(was, i)
        invariant Objects(dumps) <= old(Objects(dumps))
      {
        ClearedNext(was, i);
        assert dumps[i].Value() == Values(dumps)[i];
        hide Values;
        if !dumps[i].pinned {
          Remove(i);
        }
      }
    }

    method ClearAll()
      requires Valid()
      modifies `dumps, `active
      ensures Valid() && Model() == Store.ClearAll(old(Model())) && dumps == []
    {
      Store.ClearOk(Model());
      dumps, active := [], map[];
    }

    /** Count reads only metadata. */
    method Count() returns (n: nat)
      ensures n == |Model().dumps|
    {
      n := |dumps|;
    }

    /** Searches the captured prefixes of each direction; pinned records first, then newest first. */
    method Find(q: Search.Query) returns (r: Result<Search.Page, Search.SearchError>)
      ensures r == Search.Find(Model().dumps, q)
    {
      var needle := Search.Check(q);
      if needle.Err? {
        return Err(needle.error);
      }
      var pinned, rest := Collect(q, needle.value);
      var matches := pinned + rest;
      var items, end := [], q.offset + Search.PageSize(q);
      if q.offset < |matches| {
        items := matches[q.offset..if end > |matches| then |matches| else end];
      }
      return Ok(Search.Page(items, |matches|));
    }

    method Collect(q: Search.Query, needle: seq<byte>) returns (pinned: seq<Rec>, rest: seq<Rec>)
      ensures pinned == Search.Collect(Values(dumps), 0, q, needle, true)
      ensures rest == Search.Collect(Values(dumps), 0, q, needle, false)
    {
      hide Values, Search.Selected;
      ghost var records := Values(dumps);
      ValuesOf(dumps);
      pinned, rest := [], [];
      for i := |dumps| downto 0
        invariant pinned == Search.Collect(records, i, q, needle, true)
        invariant rest == Search.Collect(records, i, q, needle, false)
      {
        var d := dumps[i].Value();
        var selected := IsSelected(d, q, needle);
        if selected {
          if d.pinned { pinned := pinned + [Search.Summary(d)]; } else { rest := rest + [Search.Summary(d)]; }
        }
      }
    }

    /** The loops that look a record up by connection ID. */
    method FindId(id: nat) returns (i: nat)
      ensures i <= |dumps| && i == Store.FindId(Values(dumps), id)
    {
      i := 0;
      while i < |dumps| && dumps[i].id != id
        invariant i <= |dumps|
        invariant forall j | 0 <= j < i :: Values(dumps)[j].meta.id != id
      {
        i := i + 1;
      }
      Store.FindIdIs(Values(dumps), id, i);
    }
  }

  /** One record of the search loop: the filters first, then each direction on its own. */
  method IsSelected(d: Rec, q: Search.Query, needle: seq<byte>) returns (selected: bool)
    ensures selected == Search.Selected(d, q, needle)
  {
    if !Search.Passes(d, q) {
      return false;
    }
    if q.text == [] {
      return true;
    }
    if Search.Searched(q, In) {
      var stream := Join(d.tape.chunks, In);
      if Occurs(needle, stream) {
        return true;
      }
    }
    if Search.Searched(q, Out) {
      var stream := Join(d.tape.chunks, Out);
      return Occurs(needle, stream);
    }
    return false;
  }

  method Join(chunks: seq<Chunk>, dir: Dir) returns (stream: seq<byte>)
    ensures stream == Stream(chunks, dir)
  {
    stream := [];
    for i := 0 to |chunks|
      invariant stream == Stream(chunks[..i], dir)
    {
      StreamSnoc(chunks[..i], chunks[i], dir);
      assert chunks[..i + 1] == chunks[..i] + [chunks[i]];
      if chunks[i].dir == dir {
        stream := stream + chunks[i].data;
      }
    }
    assert chunks[..|chunks|] == chunks;
  }

  method TrimLoop(chunks: seq<Chunk>, maxBytesPer: nat)
    returns (kept: seq<Chunk>, in_: nat, out: nat, cutIn: bool, cutOut: bool)
    ensures Trimmed(chunks, maxBytesPer, kept, in_, out, cutIn, cutOut)
  {
    kept, in_, out, cutIn, cutOut := [], 0, 0, false, false;
    assert Trimmed([], maxBytesPer, kept, in_, out, cutIn, cutOut);
    assert chunks[..0] == [] && chunks[..|chunks|] == chunks;
    hide Trimmed;
    for i := 0 to |chunks|
      invariant Trimmed(chunks[..i], maxBytesPer, kept, in_, out, cutIn, cutOut)
    {
      var c := chunks[i];
      TrimmedNext(chunks[..i], c, maxBytesPer, kept, in_, out, cutIn, cutOut);
      assert chunks[..i + 1] == chunks[..i] + [c];
      var room := maxBytesPer - (if c.dir == Out then out else in_);
      var n := Min(|c.data|, room);
      cutIn, cutOut := cutIn || (c.dir == In && |c.data| > room), cutOut || (c.dir == Out && |c.data| > room);
      if n > 0 {
        kept := kept + [Chunk(c.dir, c.data[..n])];
        in_, out := if c.dir == In then in_ + n else in_, if c.dir == Out then out + n else out;
      }
    }
  }

  /** What the loop of Trim has computed once it has seen these chunks. */
  predicate Trimmed(seen: seq<Chunk>, limit: nat, kept: seq<Chunk>, in_: nat, out: nat, cutIn: bool, cutOut: bool) {
    && kept == TrimChunks(seen, limit)
    && in_ == |Stream(kept, In)| && out == |Stream(kept, Out)|
    && cutIn == (|Stream(seen, In)| > limit)
    && cutOut == (|Stream(seen, Out)| > limit)
  }

  lemma TrimmedNext(seen: seq<Chunk>, c: Chunk, limit: nat,
                    kept: seq<Chunk>, in_: nat, out: nat, cutIn: bool, cutOut: bool)
    requires Trimmed(seen, limit, kept, in_, out, cutIn, cutOut)
    ensures var room := limit - (if c.dir == Out then out else in_);
            var n := Min(|c.data|, room);
            && room >= 0
            && Trimmed(seen + [c], limit,
                       if n > 0 then kept + [Chunk(c.dir, c.data[..n])] else kept,
                       if c.dir == In then in_ + n else in_, if c.dir == Out then out + n else out,
                       cutIn || (c.dir == In && |c.data| > room), cutOut || (c.dir == Out && |c.data| > room))
  {
    TrimStep(seen, c, limit);
    CutStep(seen, c, limit, In);
    CutStep(seen, c, limit, Out);
    hide Stream, TrimChunks;
  }

  /** One more chunk: what is kept of it. */
  lemma TrimStep(seen: seq<Chunk>, c: Chunk, limit: nat)
    ensures var kept, next := TrimChunks(seen, limit), TrimChunks(seen + [c], limit);
            var room := limit - (if c.dir == Out then |Stream(kept, Out)| else |Stream(kept, In)|);
            var n := Min(|c.data|, room);
            && room >= 0
            && next == (if n > 0 then kept + [Chunk(c.dir, c.data[..n])] else kept)
            && |Stream(next, In)| == (if c.dir == In then |Stream(kept, In)| + n else |Stream(kept, In)|)
            && |Stream(next, Out)| == (if c.dir == Out then |Stream(kept, Out)| + n else |Stream(kept, Out)|)
  {
    assert (seen + [c])[..|seen|] == seen;
    var kept := TrimChunks(seen, limit);
    assert |Stream(kept, c.dir)| <= limit by {
      TrimKeepsPrefix(seen, limit, c.dir);
    }
    var data := Fitting(kept, c, limit);
    assert data == c.data[..Min(|c.data|, limit - |Stream(kept, c.dir)|)];
    StreamSnoc(kept, Chunk(c.dir, data), In);
    StreamSnoc(kept, Chunk(c.dir, data), Out);
    hide Stream, Fitting;
  }

  /** One more chunk: when its direction becomes too long. */
  lemma CutStep(seen: seq<Chunk>, c: Chunk, limit: nat, dir: Dir)
    ensures var room := limit - |Stream(TrimChunks(seen, limit), c.dir)|;
            |Stream(seen + [c], dir)| > limit <==> |Stream(seen, dir)| > limit || (c.dir == dir && |c.data| > room)
  {
    StreamSnoc(seen, c, dir);
    TrimKeepsPrefix(seen, limit, c.dir);
    hide Stream, TrimChunks;
  }
}
