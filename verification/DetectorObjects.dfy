/** The detector engine in the form of internal/proxy/detect.go: sessions and findings are
    objects, the list of findings holds the very objects that sessions go on updating, and the
    burst lists are cut off in place. */
module DetectorObjects {
  import opened Streams
  import opened Detection
  import Bursts
  import Capture

  class FindingObject {
    var id: nat
    var score: int
    var signals: seq<Signal>
    var autoPinned: bool

    function Value(): Finding
      reads this
    {
      Finding(id, score, signals, autoPinned)
    }

    constructor ()
      ensures Value() == NO_FINDING
    {
      id, score, signals, autoPinned := 0, 0, [], false;
    }

    method Score(signal: Signal)
      modifies `score, `signals
      ensures Value() == Scored(old(Value()), signal)
    {
      signals := signals + [signal];
      score := score + signal.score;
      if score > 100 { score := 100; }
    }
  }

  class SessionObject {
    const ruleId: string
    const autoPin: bool
    var inbound: seq<byte>
    var outbound: seq<byte>
    var matched: set<string>
    var finding: FindingObject?

    function Value(): Session
      reads this, finding
    {
      Session(ruleId, autoPin, inbound, outbound, matched, if finding == null then None else Some(finding.Value()))
    }

    constructor (ruleId: string, autoPin: bool)
      ensures Value() == NewSession(ruleId, autoPin) && finding == null
    {
      this.ruleId, this.autoPin := ruleId, autoPin;
      inbound, outbound, matched, finding := [], [], {}, null;
    }

    method Buffer(dir: Capture.Dir, data: seq<byte>, size: nat)
      modifies `inbound, `outbound
      ensures Value() == Buffered(old(Value()), dir, data, size) && finding == old(finding)
    {
      var buffer := (if dir == Capture.In then inbound else outbound) + data;
      if |buffer| > size {
        buffer := buffer[|buffer| - size..];
      }
      if dir == Capture.In { inbound := buffer; } else { outbound := buffer; }
    }
  }

  function Ids(findings: seq<FindingObject>): (ids: seq<nat>)
    reads (set f | f in findings)`id
    ensures |ids| == |findings|
  {
    if findings == [] then [] else [findings[0].id] + Ids(findings[1..])
  }

  lemma {:induction false} IdsTake(findings: seq<FindingObject>, n: nat)
    requires n <= |findings|
    ensures Ids(findings[..n]) == Ids(findings)[..n]
  {
    if n == 0 {
    } else {
      IdsTake(findings[1..], n - 1);
      assert findings[..n][1..] == findings[1..][..n - 1];
    }
  }

  lemma IdsCons(f: FindingObject, findings: seq<FindingObject>)
    ensures Ids([f] + findings) == [f.id] + Ids(findings)
  {
    assert ([f] + findings)[1..] == findings;
  }

  /** The list cut to its limit. */
  method Cut(findings: seq<FindingObject>, limit: nat) returns (kept: seq<FindingObject>)
    ensures Ids(kept) == Take(Ids(findings), limit)
    ensures forall f | f in kept :: f in findings
  {
    kept := if |findings| > limit then findings[..limit] else findings;
    if |findings| > limit { IdsTake(findings, limit); }
  }

  method CompileDetectors(detectors: seq<Detector>) returns (compiled: seq<Detector>)
    ensures compiled == CompileEnabled(detectors)
  {
    hide CompileEnabled;
    compiled := [];
    CompileNone();
    assert detectors[..0] == [];
    for i := 0 to |detectors|
      invariant compiled == CompileEnabled(detectors[..i])
    {
      CompileNext(detectors, i);
      var d := detectors[i];
      if d.enabled {
        compiled := compiled + [d.(score := if d.score <= 0 then 25 else d.score)];
      }
    }
    assert detectors[..|detectors|] == detectors;
  }

  predicate BurstsUpTo(bursts: map<string, seq<int>>, latest: int) {
    forall host | host in bursts :: Bursts.Sorted(bursts[host]) && forall t | t in bursts[host] :: t <= latest
  }

  lemma BurstsLater(bursts: map<string, seq<int>>, latest: int, now: int)
    requires BurstsUpTo(bursts, latest) && latest <= now
    ensures BurstsUpTo(bursts, now)
  {
  }

  lemma BurstsAt(bursts: map<string, seq<int>>, host: string, latest: int)
    requires BurstsUpTo(bursts, latest)
    ensures host in bursts ==> Bursts.Sorted(bursts[host]) && forall t | t in bursts[host] :: t <= latest
  {
  }

  lemma BurstsWith(bursts: map<string, seq<int>>, host: string, times: seq<int>, latest: int)
    requires BurstsUpTo(bursts, latest) && Bursts.Sorted(times) && forall t | t in times :: t <= latest
    ensures BurstsUpTo(bursts[host := times], latest)
  {
  }

  lemma BurstsWithout(bursts: map<string, seq<int>>, host: string, latest: int)
    requires BurstsUpTo(bursts, latest)
    ensures BurstsUpTo(bursts - {host}, latest)
  {
  }

  lemma CutUpTo(times: seq<int>, first: nat, latest: int)
    requires first <= |times| && Bursts.Sorted(times) && forall t | t in times :: t <= latest
    ensures Bursts.Sorted(times[first..]) && forall t | t in times[first..] :: t <= latest
  {
    forall t | t in times[first..] ensures t <= latest {
      var i :| 0 <= i < |times[first..]| && times[first..][i] == t;
      assert times[first + i] == t && t in times;
    }
  }

  class DetectorEngine {
    var config: Config
    var compiled: seq<Detector>
    var findings: seq<FindingObject>
    var sequence: nat
    var bursts: map<string, seq<int>>
    ghost var latest: int

    function Value(): Engine
      reads this, (set f | f in findings)`id
    {
      Engine(config, compiled, Ids(findings), sequence)
    }

    /** Only numbered findings are listed. */
    predicate Numbered()
      reads this, (set f | f in findings)`id
    {
      forall f | f in findings :: f.id != 0
    }

    /** The burst lists are in order and hold no time after the latest connection. */
    ghost predicate Valid()
      reads this, (set f | f in findings)`id
    {
      Numbered() && BurstsUpTo(bursts, latest)
    }

    constructor (config: Config, ghost now: int)
      ensures Value() == Engine(config, Compiled(config), [], 0) && Valid() && bursts == map[] && latest == now
    {
      this.config, compiled, findings, sequence, bursts, latest := config, Compiled(config), [], 0, map[], now;
    }

    method Configure(raw: Config) returns (ok: bool)
      requires Valid()
      modifies `config, `compiled, `findings
      ensures Valid() && Value() == Detection.Configure(old(Value()), raw) && ok == Acceptable(WithDefaults(raw))
    {
      hide Acceptable, CompileEnabled, WithDefaults, Ids, Take;
      var c := WithDefaults(raw);
      if !Acceptable(c) { return false; }
      var enabled := CompileDetectors(c.detectors);
      config, compiled := c, (if c.builtins then BUILTINS else []) + enabled;
      findings := Cut(findings, c.maxFindings);
      return true;
    }

    method ClearFindings()
      requires Valid()
      modifies `findings
      ensures Valid() && Value() == Detection.ClearFindings(old(Value()))
    {
      findings := [];
    }

    /** Give the finding the next number and put it in front. */
    method List(f: FindingObject)
      requires Valid() && f.id == 0
      modifies `sequence, `findings, f`id
      ensures Valid() && f.id == sequence && Value() == Listed(old(Value()))
      ensures f.Value() == old(f.Value()).(id := sequence)
    {
      hide Ids;
      sequence := sequence + 1;
      f.id := sequence;
      IdsCons(f, findings);
      findings := Cut([f] + findings, config.maxFindings);
    }

    /** What follows a new score: number, pin and report. */
    method Settle(s: SessionObject, f: FindingObject) returns (report: Option<Report>)
      requires Valid() && s.finding == f
      modifies `sequence, `findings, f`id, f`autoPinned
      ensures Valid() && s.finding == f
      ensures Added(Value(), s.Value(), report) == Settled(old(Value()), old(s.Value()), old(f.Value()))
    {
      hide Listed;
      var created := f.id == 0 && f.score >= config.threshold;
      if created { List(f); }
      var autoPin := s.autoPin && f.id != 0 && f.score >= config.autoPinScore && !f.autoPinned;
      if autoPin { f.autoPinned := true; }
      report := if f.id != 0 then Some(Report(f.id, f.score, created, autoPin)) else None;
    }

    method AddSignal(s: SessionObject, signal: Signal) returns (report: Option<Report>)
      requires Valid()
      modifies `sequence, `findings, s`matched, s`finding, s.finding
      ensures Valid() && (s.finding == old(s.finding) || fresh(s.finding))
      ensures Added(Value(), s.Value(), report) == Detection.AddSignal(old(Value()), old(s.Value()), signal)
    {
      hide Creates, Listed, Scored;
      if signal.detectorId in s.matched { return None; }
      s.matched := s.matched + {signal.detectorId};
      if s.finding == null {
        s.finding := new FindingObject();
      }
      s.finding.Score(signal);
      report := Settle(s, s.finding);
    }

    /** One chunk; the reports are the calls of the hook that it causes. */
    method InspectChunk(o: Oracle, s: SessionObject, dir: Capture.Dir, data: seq<byte>) returns (reports: seq<Report>)
      requires Valid()
      modifies `sequence, `findings, s`inbound, s`outbound, s`matched, s`finding, s.finding
      ensures Valid() && (s.finding == old(s.finding) || fresh(s.finding))
      ensures Asked(Value(), s.Value(), reports) == Detection.InspectChunk(o, old(Value()), old(s.Value()), dir, data)
    {
      hide Fires, Applies, AskFirst, AskAll, Detection.AddSignal, Ids, Buffered, BurstsUpTo;
      var detectors := compiled;
      s.Buffer(dir, data, config.bufferBytes);
      ghost var e, before := Value(), s.Value();
      AskNone(o, e, before, detectors, dir);
      reports := [];
      var k := 0;
      while k < |detectors|
        invariant k <= |detectors| && detectors == compiled
        invariant Valid() && (s.finding == old(s.finding) || fresh(s.finding))
        invariant Asked(Value(), s.Value(), reports) == AskFirst(o, e, before, detectors, dir, k)
      {
        AskNext(o, e, before, detectors, dir, k);
        var d := detectors[k];
        if d.id !in s.matched && Applies(d, s.ruleId, dir) && Fires(o, d, dir, s.Value().Buffer(dir)) {
          var report := AddSignal(s, Signal(d.id, d.score));
          if report.Some? { reports := reports + [report.value]; }
        }
        k := k + 1;
      }
    }

    /** A counted connection of this host, at a time that is not before any earlier one: the list is
        cut to the last ten seconds and gets the new time; the twentieth entry is a signal. */
    method DetectBurst(s: SessionObject, host: string, now: int) returns (signalled: bool, report: Option<Report>)
      requires Valid() && latest <= now
      modifies `bursts, `latest, `sequence, `findings, s`matched, s`finding, s.finding
      ensures Valid() && latest == now
      ensures if !config.builtins then !signalled && bursts == old(bursts)
              else
                var was := if host in old(bursts) then old(bursts)[host] else [];
                && bursts == old(bursts)[host := Bursts.Step(was, Bursts.Connection(now))]
                && signalled == (|bursts[host]| == 20)
      ensures Added(Value(), s.Value(), report)
           == if signalled then Detection.AddSignal(old(Value()), old(s.Value()), BURST)
              else Added(old(Value()), old(s.Value()), None)
    {
      hide Detection.AddSignal, BurstsUpTo;
      signalled, report := false, None;
      BurstsLater(bursts, latest, now);
      latest := now;
      if config.builtins {
        var times := if host in bursts then bursts[host] else [];
        BurstsAt(bursts, host, now);
        var first := Bursts.Search(times, now - Bursts.SPAN);
        Bursts.CutIsFilter(times, now - Bursts.SPAN, first);
        CutUpTo(times, first, now);
        Bursts.SortedSnoc(times[first..], now);
        times := times[first..] + [now];
        BurstsWith(bursts, host, times, now);
        bursts := bursts[host := times];
        if |times| == 20 {
          signalled := true;
          report := AddSignal(s, BURST);
        }
      }
    }

    /** The tick of the clean-up, whose time may lie before the latest connection: every list is cut,
        and empty ones are forgotten. */
    method CleanUp(now: int)
      requires Valid()
      modifies `bursts
      ensures Valid()
      ensures forall host :: host in bursts <==>
        host in old(bursts) && Bursts.Step(old(bursts)[host], Bursts.CleanUp(now)) != []
      ensures forall host | host in bursts :: bursts[host] == Bursts.Step(old(bursts)[host], Bursts.CleanUp(now))
    {
      hide Bursts.Since, Bursts.Sorted, BurstsUpTo;
      var rest := bursts.Keys;
      while rest != {}
        invariant rest <= old(bursts).Keys && rest <= bursts.Keys && Valid()
        invariant forall host | host in rest :: bursts[host] == old(bursts)[host]
        invariant forall host | host !in rest :: host in bursts <==>
          host in old(bursts) && Bursts.Step(old(bursts)[host], Bursts.CleanUp(now)) != []
        invariant forall host | host in bursts && host !in rest ::
          bursts[host] == Bursts.Step(old(bursts)[host], Bursts.CleanUp(now))
        decreases |rest|
      {
        var host :| host in rest;
        rest := rest - {host};
        var times := bursts[host];
        BurstsAt(bursts, host, latest);
        var first := Bursts.Search(times, now - Bursts.SPAN);
        Bursts.CutIsFilter(times, now - Bursts.SPAN, first);
        CutUpTo(times, first, latest);
        BurstsWith(bursts, host, times[first..], latest);
        BurstsWithout(bursts, host, latest);
        bursts := if first == |times| then bursts - {host} else bursts[host := times[first..]];
      }
    }
  }

  /** An engine is made only with a configuration that is accepted. */
  method NewDetectorEngine(config: Config, ghost now: int) returns (engine: DetectorEngine?)
    ensures engine != null <==> Acceptable(WithDefaults(config))
    ensures engine != null ==>
      && fresh(engine) && engine.Valid() && engine.bursts == map[] && engine.latest == now
      && engine.Value() == Engine(WithDefaults(config), Compiled(WithDefaults(config)), [], 0)
  {
    hide Acceptable, CompileEnabled, WithDefaults;
    engine := null;
    if Acceptable(WithDefaults(config)) {
      engine := new DetectorEngine(WithDefaults(config), now);
    }
  }

  lemma CompileNone()
    ensures CompileEnabled([]) == []
  {
  }

  lemma CompileNext(detectors: seq<Detector>, i: nat)
    requires i < |detectors|
    ensures var before, d := CompileEnabled(detectors[..i]), detectors[i];
            CompileEnabled(detectors[..i + 1]) ==
            if d.enabled then before + [d.(score := if d.score <= 0 then 25 else d.score)] else before
  {
    assert detectors[..i + 1][..i] == detectors[..i];
  }

  /** Once the first k detectors have been asked. */
  function AskFirst(o: Oracle, e: Engine, s: Session, detectors: seq<Detector>, dir: Capture.Dir, k: nat): Asked
    requires k <= |detectors|
  {
    AskAll(o, e, s, detectors[..k], dir)
  }

  lemma AskNext(o: Oracle, e: Engine, s: Session, detectors: seq<Detector>, dir: Capture.Dir, k: nat)
    requires k < |detectors|
    ensures AskFirst(o, e, s, detectors, dir, k + 1) == Ask(o, AskFirst(o, e, s, detectors, dir, k), detectors[k], dir)
  {
    hide Ask;
    assert detectors[..k + 1][..k] == detectors[..k];
  }

  lemma AskNone(o: Oracle, e: Engine, s: Session, detectors: seq<Detector>, dir: Capture.Dir)
    ensures AskFirst(o, e, s, detectors, dir, 0) == Asked(e, s, [])
    ensures AskFirst(o, e, s, detectors, dir, |detectors|) == AskAll(o, e, s, detectors, dir)
  {
    assert detectors[..|detectors|] == detectors;
  }
}
