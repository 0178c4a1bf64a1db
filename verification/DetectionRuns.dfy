/** What every run of the detector engine keeps, and which patterns it finds in a stream. */
module DetectionRuns {
  import opened Streams
  import opened Windows
  import opened Detection
  import Capture

  // ----- signals over a run -----------------------------------------------------------

  function Sum(signals: seq<Signal>): int {
    if signals == [] then 0 else Sum(signals[..|signals| - 1]) + signals[|signals| - 1].score
  }

  function IdsOf(signals: seq<Signal>): set<string> {
    set signal | signal in signals :: signal.detectorId
  }

  predicate Distinct(signals: seq<Signal>) {
    forall i, j | 0 <= i < j < |signals| :: signals[i].detectorId != signals[j].detectorId
  }

  function Created(log: seq<Report>): nat {
    if log == [] then 0 else Created(log[..|log| - 1]) + (if log[|log| - 1].created then 1 else 0)
  }

  function Pinned(log: seq<Report>): nat {
    if log == [] then 0 else Pinned(log[..|log| - 1]) + (if log[|log| - 1].autoPin then 1 else 0)
  }

  /** The list of findings is bounded and counts down from the latest identifier. */
  predicate EngineOk(e: Engine) {
    && |e.findings| <= e.config.maxFindings && |e.findings| <= e.sequence
    && forall i | 0 <= i < |e.findings| :: e.findings[i] == e.sequence - i
  }

  /** The finding of a session adds up its distinct detectors, and the hook was told of its
      creation and of its pinning once each, if at all. */
  predicate FindingOk(f: Finding, matched: set<string>, log: seq<Report>) {
    && Distinct(f.signals) && matched == IdsOf(f.signals)
    && Sum(f.signals) >= 0 && f.score == Min(100, Sum(f.signals))
    && Created(log) == (if f.id != 0 then 1 else 0)
    && Pinned(log) == (if f.autoPinned then 1 else 0)
    && (f.autoPinned ==> f.id != 0)
    && (forall r | r in log :: r.id == f.id != 0)
  }

  predicate SessionOk(s: Session, log: seq<Report>) {
    if s.finding.None? then s.matched == {} && log == [] else FindingOk(s.finding.value, s.matched, log)
  }

  function FindingId(s: Session): nat { if s.finding.Some? then s.finding.value.id else 0 }

  lemma IdsSnoc(signals: seq<Signal>, x: Signal)
    ensures IdsOf(signals + [x]) == IdsOf(signals) + {x.detectorId}
    ensures Sum(signals + [x]) == Sum(signals) + x.score
    ensures Distinct(signals) && x.detectorId !in IdsOf(signals) ==> Distinct(signals + [x])
  {
    assert (signals + [x])[..|signals|] == signals;
    assert x in signals + [x];
    forall id | id in IdsOf(signals) ensures id in IdsOf(signals + [x]) {
      var y :| y in signals && y.detectorId == id;
      assert y in signals + [x];
    }
  }

  lemma LogSnoc(log: seq<Report>, r: Report)
    ensures Created(log + [r]) == Created(log) + (if r.created then 1 else 0)
    ensures Pinned(log + [r]) == Pinned(log) + (if r.autoPin then 1 else 0)
  {
    assert (log + [r])[..|log|] == log;
  }

  lemma ListedOk(e: Engine)
    requires EngineOk(e)
    ensures EngineOk(Listed(e))
  {
  }

  lemma ConfigureOk(e: Engine, c: Config)
    requires EngineOk(e)
    ensures EngineOk(Configure(e, c)) && EngineOk(ClearFindings(e))
  {
  }

  lemma ScoredOk(f: Finding, matched: set<string>, log: seq<Report>, signal: Signal)
    requires FindingOk(f, matched, log) && signal.score > 0 && signal.detectorId !in matched
    ensures FindingOk(Scored(f, signal), matched + {signal.detectorId}, log)
  {
    IdsSnoc(f.signals, signal);
    hide Sum, IdsOf, Distinct, Created, Pinned;
  }

  lemma SettledOk(e: Engine, s: Session, scored: Finding, log: seq<Report>)
    requires FindingOk(scored, s.matched, log)
    ensures var t := Settled(e, s, scored);
            && t.session.finding.Some? && FindingOk(t.session.finding.value, t.session.matched, Logged(log, t.report))
            && t.engine == (if Creates(e.config, scored) then Listed(e) else e)
            && FindingId(t.session) == (if Creates(e.config, scored) then e.sequence + 1 else scored.id)
  {
    hide Sum, IdsOf, Distinct, Created, Pinned;
    var t := Settled(e, s, scored);
    if t.report.Some? {
      LogSnoc(log, t.report.value);
    }
  }

  lemma NoFindingOk()
    ensures FindingOk(NO_FINDING, {}, [])
  {
  }

  lemma AddSignalOk(e: Engine, s: Session, signal: Signal, log: seq<Report>)
    requires EngineOk(e) && SessionOk(s, log) && signal.score > 0
    ensures var t := AddSignal(e, s, signal);
            && EngineOk(t.engine) && SessionOk(t.session, Logged(log, t.report))
            && (if t.engine == e then FindingId(t.session) == FindingId(s)
                else FindingId(s) == 0 && FindingId(t.session) == t.engine.sequence == e.sequence + 1)
  {
    hide EngineOk, FindingOk, Settled;
    ListedOk(e);
    NoFindingOk();
    if signal.detectorId !in s.matched {
      ScoredOk(CurrentFinding(s), s.matched, log, signal);
      SettledOk(e, s.(matched := s.matched + {signal.detectorId}), Scored(CurrentFinding(s), signal), log);
    }
  }

  // ----- many sessions, interleaved -------------------------------------------------------

  datatype Hub = Hub(engine: Engine, sessions: map<nat, Session>, logs: map<nat, seq<Report>>)

  datatype Op =
    | OpBegin(key: nat, ruleId: string, autoPin: bool)
    | OpEnd(key: nat)
    | OpSignal(key: nat, signal: Signal)
    | OpConfigure(config: Config)
    | OpClear

  function LogOf(h: Hub, key: nat): seq<Report> { if key in h.logs then h.logs[key] else [] }

  function Apply(h: Hub, op: Op): Hub {
    match op
    case OpBegin(key, ruleId, autoPin) =>
      h.(sessions := h.sessions[key := NewSession(ruleId, autoPin)], logs := h.logs[key := []])
    case OpEnd(key) => h.(sessions := h.sessions - {key}, logs := h.logs - {key})
    case OpSignal(key, signal) =>
      if key !in h.sessions then h
      else
        var t := AddSignal(h.engine, h.sessions[key], signal);
        Hub(t.engine, h.sessions[key := t.session], h.logs[key := Logged(LogOf(h, key), t.report)])
    case OpConfigure(config) => h.(engine := Configure(h.engine, config))
    case OpClear => h.(engine := ClearFindings(h.engine))
  }

  /** No two sessions share a finding, and no number is ahead of the counter. */
  predicate NumbersOk(h: Hub) {
    && (forall k | k in h.sessions :: FindingId(h.sessions[k]) <= h.engine.sequence)
    && (forall j, k | j in h.sessions && k in h.sessions && j != k && FindingId(h.sessions[j]) != 0 ::
          FindingId(h.sessions[j]) != FindingId(h.sessions[k]))
  }

  predicate HubOk(h: Hub) {
    && h.logs.Keys == h.sessions.Keys && EngineOk(h.engine)
    && (forall k | k in h.sessions :: SessionOk(h.sessions[k], h.logs[k]))
    && NumbersOk(h)
  }

  lemma SignalStep(h: Hub, key: nat, signal: Signal)
    requires HubOk(h) && signal.score > 0
    ensures HubOk(Apply(h, OpSignal(key, signal)))
  {
    hide EngineOk, SessionOk, AddSignal, FindingId;
    if key in h.sessions {
      AddSignalOk(h.engine, h.sessions[key], signal, h.logs[key]);
      SequenceGrows(h.engine, h.sessions[key], signal);
    }
  }

  lemma SequenceGrows(e: Engine, s: Session, signal: Signal)
    ensures AddSignal(e, s, signal).engine.sequence >= e.sequence
  {
  }

  lemma BeginStep(h: Hub, key: nat, ruleId: string, autoPin: bool)
    requires HubOk(h)
    ensures HubOk(Apply(h, OpBegin(key, ruleId, autoPin)))
  {
    hide EngineOk, FindingOk, AddSignal, Acceptable;
  }

  /** Steps that leave every remaining session as it is. */
  lemma QuietStep(h: Hub, op: Op)
    requires HubOk(h) && (op.OpEnd? || op.OpConfigure? || op.OpClear?)
    ensures HubOk(Apply(h, op))
  {
    hide EngineOk, SessionOk, FindingId, AddSignal, Configure, ClearFindings;
    ConfigureOk(h.engine, if op.OpConfigure? then op.config else h.engine.config);
    SameSequence(h.engine, if op.OpConfigure? then op.config else h.engine.config);
  }

  lemma SameSequence(e: Engine, c: Config)
    ensures Configure(e, c).sequence == e.sequence && ClearFindings(e).sequence == e.sequence
  {
  }

  lemma StepOk(h: Hub, op: Op)
    requires HubOk(h) && (op.OpSignal? ==> op.signal.score > 0)
    ensures HubOk(Apply(h, op))
  {
    hide HubOk, Apply;
    match op
    case OpSignal(key, signal) => SignalStep(h, key, signal);
    case OpBegin(key, ruleId, autoPin) => BeginStep(h, key, ruleId, autoPin);
    case _ => QuietStep(h, op);
  }

  function Start(config: Config): Hub { Hub(Engine(config, Compiled(config), [], 0), map[], map[]) }

  function Run(config: Config, ops: seq<Op>): Hub {
    if ops == [] then Start(config) else Apply(Run(config, ops[..|ops| - 1]), ops[|ops| - 1])
  }

  /** Every compiled detector, and the burst detector, has a positive score. */
  predicate PositiveScores(ops: seq<Op>) {
    forall op | op in ops :: op.OpSignal? ==> op.signal.score > 0
  }

  lemma {:induction false} RunOk(config: Config, ops: seq<Op>)
    requires PositiveScores(ops)
    ensures HubOk(Run(config, ops))
  {
    hide HubOk, Apply;
    if ops == [] {
      StartOk(config);
    } else {
      RunOk(config, ops[..|ops| - 1]);
      StepOk(Run(config, ops[..|ops| - 1]), ops[|ops| - 1]);
    }
  }

  lemma StartOk(config: Config)
    ensures HubOk(Start(config))
  {
  }

  /** Over any sequence of signals of any sessions, with configurations and clearing in between,
      the list of findings stays within its limit and its i-th number is the counter minus i. */
  lemma {:induction false} FindingsCountDown(config: Config, ops: seq<Op>)
    requires PositiveScores(ops)
    ensures var e := Run(config, ops).engine;
            && |e.findings| <= e.config.maxFindings
            && forall i | 0 <= i < |e.findings| :: e.findings[i] == e.sequence - i
  {
    RunOk(config, ops);
  }

  /** The score of a session is the sum over its distinct detectors, at most 100; its finding is
      reported as created once if it has a number, and as pinned once if it is. */
  lemma {:induction false} ScoresAddUp(config: Config, ops: seq<Op>, key: nat)
    requires PositiveScores(ops)
    requires key in Run(config, ops).sessions && Run(config, ops).sessions[key].finding.Some?
    ensures var s := Run(config, ops).sessions[key];
            var f, log := s.finding.value, LogOf(Run(config, ops), key);
            && f.score == Min(100, Sum(f.signals))
            && (forall i, j | 0 <= i < j < |f.signals| :: f.signals[i].detectorId != f.signals[j].detectorId)
            && s.matched == (set signal | signal in f.signals :: signal.detectorId)
            && Created(log) == (if f.id != 0 then 1 else 0)
            && Pinned(log) == (if f.autoPinned then 1 else 0)
  {
    RunOk(config, ops);
    hide Run, Sum, Created, Pinned;
    assert SessionOk(Run(config, ops).sessions[key], Run(config, ops).logs[key]);
  }

  // ----- patterns in a stream ---------------------------------------------------------------

  datatype Piece = Piece(dir: Capture.Dir, data: seq<byte>)

  /** A session and the engine after these chunks, while the configuration stays. */
  function Inspect(o: Oracle, e: Engine, s: Session, pieces: seq<Piece>): Asked {
    if pieces == [] then Asked(e, s, [])
    else
      var before := Inspect(o, e, s, pieces[..|pieces| - 1]);
      var last := pieces[|pieces| - 1];
      var t := InspectChunk(o, before.engine, before.session, last.dir, last.data);
      t.(reports := before.reports + t.reports)
  }

  // ----- what one signal does ------------------------------------------------------------------

  function SignalsOf(s: Session): seq<Signal> { if s.finding.Some? then s.finding.value.signals else [] }

  function ScoreOf(s: Session): int { if s.finding.Some? then s.finding.value.score else 0 }

  predicate PinnedBy(s: Session) { s.finding.Some? && s.finding.value.autoPinned }

  /** A detector that has matched before changes nothing. Another one adds its signal and its score, up to
      100; the session then has a numbered finding if it had one or its score has reached the
      threshold, and is pinned if it was, or if it may be and the score of its finding has reached
      the score for that; the hook is told whenever there is a finding, and what is new. */
  lemma SignalOutcome(e: Engine, s: Session, signal: Signal)
    ensures var t := AddSignal(e, s, signal);
            if signal.detectorId in s.matched then t == Added(e, s, None)
            else
              && t.session.matched == s.matched + {signal.detectorId}
              && SignalsOf(t.session) == SignalsOf(s) + [signal]
              && ScoreOf(t.session) == Min(100, ScoreOf(s) + signal.score)
              && (FindingId(t.session) != 0 <==> FindingId(s) != 0 || ScoreOf(t.session) >= e.config.threshold)
              && (PinnedBy(t.session) <==>
                    PinnedBy(s) || (s.autoPin && FindingId(t.session) != 0 && ScoreOf(t.session) >= e.config.autoPinScore))
              && (t.report.Some? <==> FindingId(t.session) != 0)
              && (t.report.Some? ==>
                    t.report.value == Report(FindingId(t.session), ScoreOf(t.session), FindingId(s) == 0, PinnedBy(t.session) && !PinnedBy(s)))
              && (FindingId(s) != 0 || FindingId(t.session) == 0 ==> t.engine == e && FindingId(t.session) == FindingId(s))
              && (FindingId(s) == 0 && FindingId(t.session) != 0 ==>
                    && FindingId(t.session) == e.sequence + 1
                    && t.engine == e.(sequence := e.sequence + 1, findings := Take([e.sequence + 1] + e.findings, e.config.maxFindings)))
  {
  }

  /** There is a finding exactly for the sessions whose score has reached the threshold, and pinned are
      exactly those that may be and whose finding has reached the score for that. */
  predicate DueIffReached(c: Config, s: Session) {
    s.finding.Some? ==>
      var f := s.finding.value;
      && (f.id != 0 <==> f.score >= c.threshold)
      && (f.autoPinned <==> s.autoPin && f.score >= c.threshold && f.score >= c.autoPinScore)
  }

  lemma SignalKeepsDue(e: Engine, s: Session, signal: Signal, log: seq<Report>)
    requires SessionOk(s, log) && DueIffReached(e.config, s) && signal.score > 0
    requires s.finding.None? ==> 0 < e.config.threshold
    ensures DueIffReached(e.config, AddSignal(e, s, signal).session)
  {
    hide Sum, Distinct, IdsOf, Created, Pinned;
    SignalOutcome(e, s, signal);
    AddSignalFrame(e, s, signal);
    hide AddSignal;
  }

  /** As long as the configuration stays, in every run: a session has a finding exactly when its score
      has reached the threshold, and is pinned exactly when it may be and the score says so. */
  lemma {:induction false} FindingsAreDue(config: Config, ops: seq<Op>)
    requires config.threshold > 0 && PositiveScores(ops) && forall op | op in ops :: !op.OpConfigure?
    ensures var h := Run(config, ops);
            h.engine.config == config && forall key | key in h.sessions :: DueIffReached(config, h.sessions[key])
  {
    hide HubOk, Apply, DueIffReached;
    if ops == [] {
    } else {
      var front, last := ops[..|ops| - 1], ops[|ops| - 1];
      FindingsAreDue(config, front);
      RunOk(config, front);
      StepKeepsDue(Run(config, front), last);
    }
  }

  lemma StepKeepsDue(h: Hub, op: Op)
    requires HubOk(h) && !op.OpConfigure? && (op.OpSignal? ==> op.signal.score > 0) && h.engine.config.threshold > 0
    requires forall key | key in h.sessions :: DueIffReached(h.engine.config, h.sessions[key])
    ensures Apply(h, op).engine.config == h.engine.config
    ensures forall key | key in Apply(h, op).sessions :: DueIffReached(h.engine.config, Apply(h, op).sessions[key])
  {
    hide DueIffReached, AddSignal, EngineOk, NumbersOk, SessionOk;
    match op
    case OpSignal(key, signal) =>
      if key in h.sessions {
        SignalKeepsDue(h.engine, h.sessions[key], signal, h.logs[key]);
        AddSignalFrame(h.engine, h.sessions[key], signal);
      }
    case OpBegin(key, ruleId, autoPin) => NewIsDue(h.engine.config, ruleId, autoPin);
    case _ =>
  }

  lemma NewIsDue(c: Config, ruleId: string, autoPin: bool)
    ensures DueIffReached(c, NewSession(ruleId, autoPin))
  {
  }

  /** A configuration that is not valid changes nothing; a valid one is in force, with its defaults, and
      of the findings the newest that it allows stay. */
  lemma ConfigureTakesEffect(e: Engine, config: Config)
    ensures var c := config.(
              threshold := if config.threshold > 0 then config.threshold else 25,
              autoPinScore := if config.autoPinScore > 0 then config.autoPinScore else 60,
              maxFindings := if config.maxFindings > 0 then config.maxFindings else 500,
              bufferBytes := if config.bufferBytes > 0 then config.bufferBytes else 131072);
            Configure(e, config) ==
              if && c.threshold <= 100 && c.autoPinScore <= 100 && c.maxFindings <= 5000 && 4096 <= c.bufferBytes <= 4194304
                 && (forall d | d in c.detectors ::
                       d.id != "" && d.score <= 100 && (d.pattern.Needle? ==> 0 < |d.pattern.bytes| <= 4096))
                 && (forall i, j | 0 <= i < j < |c.detectors| :: c.detectors[i].id != c.detectors[j].id)
              then Engine(c, Compiled(c), Take(e.findings, c.maxFindings), e.sequence)
              else e
  {
    hide Compiled;
  }

  // ----- the reports of chunks ------------------------------------------------------------------

  lemma {:induction false} AskAllOk(o: Oracle, e: Engine, s: Session, detectors: seq<Detector>, dir: Capture.Dir, log: seq<Report>)
    requires EngineOk(e) && SessionOk(s, log) && forall d | d in detectors :: d.score > 0
    ensures var t := AskAll(o, e, s, detectors, dir);
            && EngineOk(t.engine) && SessionOk(t.session, log + t.reports) && t.engine.compiled == e.compiled
  {
    hide EngineOk, SessionOk, Applies, Fires, AddSignal;
    if detectors == [] {
      assert log + [] == log;
    } else {
      var front, last := detectors[..|detectors| - 1], detectors[|detectors| - 1];
      AskAllOk(o, e, s, front, dir, log);
      var t := AskAll(o, e, s, front, dir);
      assert last in detectors;
      AddSignalOk(t.engine, t.session, Signal(last.id, last.score), log + t.reports);
      AddSignalFrame(t.engine, t.session, Signal(last.id, last.score));
      var report := AddSignal(t.engine, t.session, Signal(last.id, last.score)).report;
      assert Logged(log + t.reports, report) == log + Logged(t.reports, report);
    }
  }

  /** A signal is one that was there before, or that of a detector of the list. */
  predicate SignalOf(before: seq<Signal>, detectors: seq<Detector>, x: Signal) {
    x in before || exists d | d in detectors :: x == Signal(d.id, d.score)
  }

  lemma {:induction false} AskAllSignals(o: Oracle, e: Engine, s: Session, detectors: seq<Detector>, dir: Capture.Dir, x: Signal)
    requires x in SignalsOf(AskAll(o, e, s, detectors, dir).session)
    ensures SignalOf(SignalsOf(s), detectors, x)
  {
    hide Applies, Fires, AddSignal;
    if detectors == [] {
    } else {
      var front, last := detectors[..|detectors| - 1], detectors[|detectors| - 1];
      assert detectors == front + [last];
      var t := AskAll(o, e, s, front, dir);
      SignalOutcome(t.engine, t.session, Signal(last.id, last.score));
      if x in SignalsOf(t.session) { AskAllSignals(o, e, s, front, dir, x); }
    }
  }

  lemma BufferedSignals(s: Session, dir: Capture.Dir, data: seq<byte>, size: nat)
    ensures SignalsOf(Buffered(s, dir, data, size)) == SignalsOf(s)
  {
  }

  /** Whatever a session is sent, it gets no signal but those of the compiled detectors, each with the
      score of its detector. */
  lemma {:induction false} SignalsAreTheDetectors(o: Oracle, e: Engine, s: Session, pieces: seq<Piece>, x: Signal)
    requires x in SignalsOf(Inspect(o, e, s, pieces).session)
    ensures SignalOf(SignalsOf(s), e.compiled, x) && Inspect(o, e, s, pieces).engine.compiled == e.compiled
  {
    hide AskAll, Buffered, SignalOf, SignalsOf;
    if pieces == [] {
      SignalsStay(s, e.compiled, x);
    } else {
      var front, last := pieces[..|pieces| - 1], pieces[|pieces| - 1];
      var t := Inspect(o, e, s, front);
      InspectKeepsCompiled(o, e, s, front);
      InspectKeepsCompiled(o, e, s, pieces);
      var buffered := Buffered(t.session, last.dir, last.data, t.engine.config.bufferBytes);
      AskAllSignals(o, t.engine, buffered, e.compiled, last.dir, x);
      BufferedSignals(t.session, last.dir, last.data, t.engine.config.bufferBytes);
      if x in SignalsOf(t.session) {
        SignalsAreTheDetectors(o, e, s, front, x);
      } else {
        NewSignals(SignalsOf(t.session), SignalsOf(s), e.compiled, x);
      }
    }
  }

  lemma SignalsStay(s: Session, detectors: seq<Detector>, x: Signal)
    requires x in SignalsOf(s)
    ensures SignalOf(SignalsOf(s), detectors, x)
  {
  }

  lemma NewSignals(before: seq<Signal>, earlier: seq<Signal>, detectors: seq<Detector>, x: Signal)
    requires SignalOf(before, detectors, x) && x !in before
    ensures SignalOf(earlier, detectors, x)
  {
  }

  lemma {:induction false} AskAllKeepsCompiled(o: Oracle, e: Engine, s: Session, detectors: seq<Detector>, dir: Capture.Dir)
    ensures AskAll(o, e, s, detectors, dir).engine.compiled == e.compiled
  {
    hide Applies, Fires, AddSignal;
    if detectors == [] {
    } else {
      var front, last := detectors[..|detectors| - 1], detectors[|detectors| - 1];
      AskAllKeepsCompiled(o, e, s, front, dir);
      var t := AskAll(o, e, s, front, dir);
      AddSignalFrame(t.engine, t.session, Signal(last.id, last.score));
    }
  }

  lemma {:induction false} InspectKeepsCompiled(o: Oracle, e: Engine, s: Session, pieces: seq<Piece>)
    ensures Inspect(o, e, s, pieces).engine.compiled == e.compiled
  {
    hide AskAll, Buffered;
    if pieces == [] {
    } else {
      var front, last := pieces[..|pieces| - 1], pieces[|pieces| - 1];
      InspectKeepsCompiled(o, e, s, front);
      var t := Inspect(o, e, s, front);
      AskAllKeepsCompiled(o, t.engine, Buffered(t.session, last.dir, last.data, t.engine.config.bufferBytes), t.engine.compiled, last.dir);
    }
  }

  lemma BufferedOk(s: Session, dir: Capture.Dir, data: seq<byte>, size: nat, log: seq<Report>)
    requires SessionOk(s, log)
    ensures SessionOk(Buffered(s, dir, data, size), log)
  {
  }

  /** Whatever a session is sent, the score stays the sum over its distinct detectors, and with the
      reports of the chunks its creation and its pinning are still reported once each, if at all. */
  lemma {:induction false} ChunksAddUp(o: Oracle, e: Engine, s: Session, pieces: seq<Piece>, log: seq<Report>)
    requires EngineOk(e) && SessionOk(s, log) && forall d | d in e.compiled :: d.score > 0
    ensures var t := Inspect(o, e, s, pieces);
            && EngineOk(t.engine) && SessionOk(t.session, log + t.reports) && t.engine.compiled == e.compiled
  {
    hide EngineOk, SessionOk, AskAll, Buffered;
    if pieces == [] {
      assert log + [] == log;
    } else {
      var front, last := pieces[..|pieces| - 1], pieces[|pieces| - 1];
      ChunksAddUp(o, e, s, front, log);
      var t := Inspect(o, e, s, front);
      BufferedOk(t.session, last.dir, last.data, t.engine.config.bufferBytes, log + t.reports);
      var after := InspectChunk(o, t.engine, t.session, last.dir, last.data);
      AskAllOk(o, t.engine, Buffered(t.session, last.dir, last.data, t.engine.config.bufferBytes),
               t.engine.compiled, last.dir, log + t.reports);
      assert (log + t.reports) + after.reports == log + (t.reports + after.reports);
    }
  }

  // ----- what is found ----------------------------------------------------------------------------

  /** The chunks of one direction. */
  function Fed(pieces: seq<Piece>, dir: Capture.Dir): seq<seq<byte>> {
    if pieces == [] then []
    else
      var before := Fed(pieces[..|pieces| - 1], dir);
      if pieces[|pieces| - 1].dir == dir then before + [pieces[|pieces| - 1].data] else before
  }

  /** The detector looks at this direction of the connections of this rule. */
  predicate Watches(d: Detector, ruleId: string, dir: Capture.Dir) {
    && (d.direction == None || d.direction == Some(dir))
    && (d.ruleIds == [] || exists i | 0 <= i < |d.ruleIds| :: d.ruleIds[i] == ruleId)
  }

  lemma AppliesWhereItWatches(d: Detector, ruleId: string, dir: Capture.Dir)
    ensures Applies(d, ruleId, dir) <==> Watches(d, ruleId, dir)
  {
  }

  /** The detector found its pattern after one of the chunks. */
  predicate Fired(o: Oracle, d: Detector, ruleId: string, pieces: seq<Piece>, size: nat) {
    pieces != []
    && (var dir := pieces[|pieces| - 1].dir;
        || Fired(o, d, ruleId, pieces[..|pieces| - 1], size)
        || (Watches(d, ruleId, dir) && Fires(o, d, dir, Window(Fed(pieces, dir), size))))
  }

  /** It found it only in what the buffer decodes to. */
  predicate FiredDecoded(o: Oracle, d: Detector, ruleId: string, pieces: seq<Piece>, size: nat) {
    pieces != []
    && (var dir := pieces[|pieces| - 1].dir;
        var decoded := o.decode(Window(Fed(pieces, dir), size));
        || FiredDecoded(o, d, ruleId, pieces[..|pieces| - 1], size)
        || (Watches(d, ruleId, dir) && decoded.Some? && d.pattern.Needle? && Occurs(d.pattern.bytes, decoded.value)))
  }

  /** No other detector of the list has this one's identifier. */
  predicate OwnId(detectors: seq<Detector>, d: Detector) {
    forall other | other in detectors :: other.id == d.id ==> other == d
  }

  lemma {:induction false} AskAllMatches(o: Oracle, e: Engine, s: Session, detectors: seq<Detector>, dir: Capture.Dir, d: Detector)
    requires OwnId(detectors, d)
    ensures var t := AskAll(o, e, s, detectors, dir);
            && t.session == s.(matched := t.session.matched, finding := t.session.finding)
            && t.engine.config == e.config && t.engine.compiled == e.compiled
            && (d.id in t.session.matched <==>
                d.id in s.matched || (d in detectors && Watches(d, s.ruleId, dir) && Fires(o, d, dir, s.Buffer(dir))))
  {
    hide Watches, Applies, Fires, AddSignal;
    if detectors == [] {
    } else {
      var front, last := detectors[..|detectors| - 1], detectors[|detectors| - 1];
      assert detectors == front + [last];
      AskAllMatches(o, e, s, front, dir, d);
      var t := AskAll(o, e, s, front, dir);
      AppliesWhereItWatches(last, s.ruleId, dir);
      AddSignalFrame(t.engine, t.session, Signal(last.id, last.score));
    }
  }

  lemma AddSignalFrame(e: Engine, s: Session, signal: Signal)
    ensures var t := AddSignal(e, s, signal);
            && t.session == s.(matched := s.matched + {signal.detectorId}, finding := t.session.finding)
            && t.engine.config == e.config && t.engine.compiled == e.compiled
  {
  }

  /** A session that has seen no data yet; it may already carry the signal of a burst. */
  predicate Untouched(s: Session) { s.inbound == [] && s.outbound == [] }

  /** After any chunks a session has matched, besides what it had matched before, exactly the
      detectors that fired at one of them, and its buffers are the windows of the two streams. */
  lemma {:induction false} MatchedAreTheFired(o: Oracle, e: Engine, s: Session, pieces: seq<Piece>, d: Detector)
    requires Untouched(s) && d in e.compiled && OwnId(e.compiled, d)
    ensures var t := Inspect(o, e, s, pieces);
            && t.engine.config == e.config && t.engine.compiled == e.compiled && t.session.ruleId == s.ruleId
            && (forall dir :: t.session.Buffer(dir) == Window(Fed(pieces, dir), e.config.bufferBytes))
            && (d.id in t.session.matched <==> d.id in s.matched || Fired(o, d, s.ruleId, pieces, e.config.bufferBytes))
  {
    hide Watches, Fires, AskAll, OwnId;
    if pieces == [] {
    } else {
      var front, last := pieces[..|pieces| - 1], pieces[|pieces| - 1];
      MatchedAreTheFired(o, e, s, front, d);
      var t := Inspect(o, e, s, front);
      var buffered := Buffered(t.session, last.dir, last.data, e.config.bufferBytes);
      AskAllMatches(o, t.engine, buffered, e.compiled, last.dir, d);
      WindowSnoc(Fed(front, last.dir), last.data, e.config.bufferBytes);
    }
  }

  lemma WindowSnoc(chunks: seq<seq<byte>>, b: seq<byte>, size: nat)
    ensures Window(chunks + [b], size) == TakeLast(Window(chunks, size) + b, size)
  {
    assert (chunks + [b])[..|chunks|] == chunks;
  }

  lemma SeenSnoc(chunks: seq<seq<byte>>, b: seq<byte>, needle: seq<byte>, size: nat)
    ensures Seen(chunks + [b], needle, size) <==> Seen(chunks, needle, size) || Occurs(needle, Window(chunks + [b], size))
  {
    assert (chunks + [b])[..|chunks|] == chunks;
  }

  predicate RawOnStream(d: Detector) { d.scope == "stream" && d.pattern.Needle? && d.pattern.bytes != [] }

  lemma OccursNonEmpty(needle: seq<byte>, s: seq<byte>)
    requires needle != [] && Occurs(needle, s)
    ensures s != []
  {
  }

  /** For a plain pattern on the raw stream, firing is being seen in one of the directions the
      detector looks at, or being found after decoding. */
  lemma {:induction false} FiredIsSeen(o: Oracle, d: Detector, ruleId: string, pieces: seq<Piece>, size: nat)
    requires RawOnStream(d)
    ensures Fired(o, d, ruleId, pieces, size) <==>
      || (exists dir | Watches(d, ruleId, dir) :: Seen(Fed(pieces, dir), d.pattern.bytes, size))
      || FiredDecoded(o, d, ruleId, pieces, size)
  {
    hide Watches, Occurs, Window, Seen;
    if pieces == [] {
      NothingSeen(d.pattern.bytes, size);
    } else {
      var front, last := pieces[..|pieces| - 1], pieces[|pieces| - 1];
      FiredIsSeen(o, d, ruleId, front, size);
      SeenSnoc(Fed(front, last.dir), last.data, d.pattern.bytes, size);
      var window := Window(Fed(pieces, last.dir), size);
      if Occurs(d.pattern.bytes, window) { OccursNonEmpty(d.pattern.bytes, window); }
      var decoded := o.decode(window);
      if decoded.Some? && Occurs(d.pattern.bytes, decoded.value) { OccursNonEmpty(d.pattern.bytes, decoded.value); }
    }
  }

  lemma NothingSeen(needle: seq<byte>, size: nat)
    ensures !Seen([], needle, size)
  {
  }

  /** What was sent one way. */
  function Sent(pieces: seq<Piece>, dir: Capture.Dir): seq<byte> { Concat(Fed(pieces, dir)) }

  /** The ends of the chunks that came one way. */
  function CutsOf(pieces: seq<Piece>, dir: Capture.Dir): seq<nat> { Cuts(Fed(pieces, dir)) }

  predicate NoEmptyPiece(pieces: seq<Piece>) {
    forall i | 0 <= i < |pieces| :: pieces[i].data != []
  }

  lemma {:induction false} FedNotEmpty(pieces: seq<Piece>, dir: Capture.Dir)
    requires NoEmptyPiece(pieces)
    ensures forall i | 0 <= i < |Fed(pieces, dir)| :: Fed(pieces, dir)[i] != []
  {
    if pieces == [] {
    } else {
      FedNotEmpty(pieces[..|pieces| - 1], dir);
    }
  }

  /** In every direction that the detector looks at, no chunk with all but one byte of its pattern
      is more than the buffer holds. */
  predicate WideEnough(e: Engine, d: Detector, ruleId: string, pieces: seq<Piece>)
    requires d.pattern.Needle?
  {
    forall dir | Watches(d, ruleId, dir) :: NeverTooWide(CutsOf(pieces, dir), |d.pattern.bytes|, e.config.bufferBytes)
  }

  /** It is enough that every chunk, with all but one byte of the pattern, fits into the buffer. */
  lemma SmallPiecesAreWideEnough(e: Engine, d: Detector, ruleId: string, pieces: seq<Piece>)
    requires NoEmptyPiece(pieces) && RawOnStream(d)
    requires forall i | 0 <= i < |pieces| :: |pieces[i].data| + |d.pattern.bytes| - 1 <= e.config.bufferBytes
    ensures WideEnough(e, d, ruleId, pieces)
  {
    hide CutBy, CutsOk, NeverTooWide, Watches, Cuts, Fed;
    forall dir: Capture.Dir ensures NeverTooWide(CutsOf(pieces, dir), |d.pattern.bytes|, e.config.bufferBytes) {
      FedNotEmpty(pieces, dir);
      FedIsNarrow(pieces, dir, |d.pattern.bytes|, e.config.bufferBytes);
      CutsOfChunks(Fed(pieces, dir));
      NarrowEnough(CutsOf(pieces, dir), Fed(pieces, dir), |d.pattern.bytes|, e.config.bufferBytes);
    }
  }

  lemma {:induction false} FedIsNarrow(pieces: seq<Piece>, dir: Capture.Dir, n: nat, size: nat)
    requires forall i | 0 <= i < |pieces| :: |pieces[i].data| + n - 1 <= size
    ensures forall i | 0 <= i < |Fed(pieces, dir)| :: |Fed(pieces, dir)[i]| + n - 1 <= size
  {
    if pieces == [] {
    } else {
      FedIsNarrow(pieces[..|pieces| - 1], dir, n, size);
    }
  }

  /** The pattern occurs in what was sent in one of the directions that the detector looks at. */
  predicate InStream(d: Detector, ruleId: string, pieces: seq<Piece>)
    requires d.pattern.Needle?
  {
    exists dir | Watches(d, ruleId, dir) :: Occurs(d.pattern.bytes, Sent(pieces, dir))
  }

  lemma SeenIffSent(pieces: seq<Piece>, dir: Capture.Dir, needle: seq<byte>, size: nat)
    requires NoEmptyPiece(pieces) && needle != []
    ensures CutsOk(CutsOf(pieces, dir), |Sent(pieces, dir)|)
    ensures Seen(Fed(pieces, dir), needle, size) <==> SeenIn(Sent(pieces, dir), CutsOf(pieces, dir), needle, size)
    ensures NeverTooWide(CutsOf(pieces, dir), |needle|, size)
      ==> (Seen(Fed(pieces, dir), needle, size) <==> Occurs(needle, Sent(pieces, dir)))
  {
    hide SeenIn, Seen, Occurs, NeverTooWide, CutsOk, CutBy, Cuts, Concat, Fed, NoEmptyPiece;
    FedNotEmpty(pieces, dir);
    CutsOfChunks(Fed(pieces, dir));
    SeenIsSeenIn(Fed(pieces, dir), needle, size);
    if NeverTooWide(CutsOf(pieces, dir), |needle|, size) {
      NothingIsMissed(Sent(pieces, dir), CutsOf(pieces, dir), needle, size);
    }
  }

  /** Windowed detection is whole-stream detection: when no chunk in a watched direction is too wide
      for the buffer, a session has matched a plain pattern exactly when the pattern occurs
      somewhere in what was sent in such a direction, or when it was found in a decoded buffer. */
  lemma MatchedIffInStream(o: Oracle, e: Engine, s: Session, pieces: seq<Piece>, d: Detector)
    requires Untouched(s) && d.id !in s.matched
    requires d in e.compiled && OwnId(e.compiled, d) && RawOnStream(d)
    requires NoEmptyPiece(pieces) && WideEnough(e, d, s.ruleId, pieces)
    ensures d.id in Inspect(o, e, s, pieces).session.matched <==>
      InStream(d, s.ruleId, pieces) || FiredDecoded(o, d, s.ruleId, pieces, e.config.bufferBytes)
  {
    var size := e.config.bufferBytes;
    MatchedAreTheFired(o, e, s, pieces, d);
    FiredIsSeen(o, d, s.ruleId, pieces, size);
    hide Watches, Occurs, Seen, FiredDecoded, Fired, Inspect, NeverTooWide;
    forall dir: Capture.Dir | Watches(d, s.ruleId, dir)
      ensures Seen(Fed(pieces, dir), d.pattern.bytes, size) <==> Occurs(d.pattern.bytes, Sent(pieces, dir))
    {
      SeenIffSent(pieces, dir, d.pattern.bytes, size);
    }
  }

  // ----- exactly when nothing is missed -----------------------------------------------------------

  /** The same chunks, as far as directions and lengths go. */
  predicate SameShape(a: seq<Piece>, b: seq<Piece>) {
    |a| == |b| && forall i | 0 <= i < |a| :: a[i].dir == b[i].dir && |a[i].data| == |b[i].data|
  }

  lemma OneMorePiece(pieces: seq<Piece>, p: Piece, dir: Capture.Dir)
    ensures Sent(pieces + [p], dir) == if p.dir == dir then Sent(pieces, dir) + p.data else Sent(pieces, dir)
    ensures CutsOf(pieces + [p], dir) ==
      if p.dir == dir then CutsOf(pieces, dir) + [|Sent(pieces, dir)| + |p.data|] else CutsOf(pieces, dir)
  {
    assert (pieces + [p])[..|pieces|] == pieces;
    if p.dir == dir {
      var chunks := Fed(pieces, dir);
      ConcatSnoc(chunks, p.data);
      assert (chunks + [p.data])[..|chunks|] == chunks;
    }
  }

  lemma {:induction false} SameCuts(a: seq<Piece>, b: seq<Piece>, dir: Capture.Dir)
    requires SameShape(a, b)
    ensures CutsOf(a, dir) == CutsOf(b, dir) && |Sent(a, dir)| == |Sent(b, dir)|
  {
    if a == [] {
      assert a == b;
    } else {
      hide CutsOf, Sent;
      var n := |a| - 1;
      assert |b| == n + 1 && a[n].dir == b[n].dir && |a[n].data| == |b[n].data|;
      assert a == a[..n] + [a[n]];
      assert b == b[..n] + [b[n]];
      SameCuts(a[..n], b[..n], dir);
      OneMorePiece(a[..n], a[n], dir);
      OneMorePiece(b[..n], b[n], dir);
    }
  }

  function Filled(n: nat, filler: byte): seq<byte> { seq(n, _ => filler) }

  predicate AllFiller(s: seq<byte>, filler: byte) { forall b | b in s :: b == filler }

  lemma MoreFiller(s: seq<byte>, n: nat, filler: byte)
    requires AllFiller(s, filler)
    ensures AllFiller(s + Filled(n, filler), filler) && |Filled(n, filler)| == n
  {
  }

  /** Chunks of this shape: one direction carries the stream, the other only the filler. */
  function Refilled(shape: seq<Piece>, dir: Capture.Dir, stream: seq<byte>, filler: byte): seq<Piece>
    requires |stream| == |Sent(shape, dir)|
  {
    if shape == [] then []
    else
      var front, last := shape[..|shape| - 1], shape[|shape| - 1];
      var start := if last.dir == dir then |stream| - |last.data| else |stream|;
      OneMorePiece(front, last, dir);
      assert shape == front + [last];
      Refilled(front, dir, stream[..start], filler)
      + [Piece(last.dir, if last.dir == dir then stream[start..] else Filled(|last.data|, filler))]
  }

  predicate RefilledOk(pieces: seq<Piece>, shape: seq<Piece>, dir: Capture.Dir, stream: seq<byte>, filler: byte) {
    && SameShape(pieces, shape) && Sent(pieces, dir) == stream
    && forall other: Capture.Dir | other != dir :: AllFiller(Sent(pieces, other), filler)
  }

  lemma RefillOne(pieces: seq<Piece>, front: seq<Piece>, dir: Capture.Dir, stream: seq<byte>, filler: byte, last: Piece, data: seq<byte>)
    requires RefilledOk(pieces, front, dir, stream, filler) && |data| == |last.data|
    requires last.dir != dir ==> data == Filled(|last.data|, filler)
    ensures RefilledOk(pieces + [Piece(last.dir, data)], front + [last], dir,
                       if last.dir == dir then stream + data else stream, filler)
  {
    hide Sent, Filled, AllFiller;
    var piece := Piece(last.dir, data);
    forall other: Capture.Dir | other != dir ensures AllFiller(Sent(pieces + [piece], other), filler) {
      OneMorePiece(pieces, piece, other);
      MoreFiller(Sent(pieces, other), |last.data|, filler);
    }
    OneMorePiece(pieces, piece, dir);
  }

  lemma {:induction false} RefilledIs(shape: seq<Piece>, dir: Capture.Dir, stream: seq<byte>, filler: byte)
    requires |stream| == |Sent(shape, dir)|
    ensures RefilledOk(Refilled(shape, dir, stream, filler), shape, dir, stream, filler)
  {
    hide Sent, RefilledOk, Filled;
    if shape == [] {
      NothingRefilled(dir, stream, filler);
    } else {
      var front, last := shape[..|shape| - 1], shape[|shape| - 1];
      var start := if last.dir == dir then |stream| - |last.data| else |stream|;
      assert shape == front + [last];
      OneMorePiece(front, last, dir);
      RefilledIs(front, dir, stream[..start], filler);
      MoreFiller([], |last.data|, filler);
      assert (if last.dir == dir then stream[..start] + stream[start..] else stream[..start]) == stream;
      RefillOne(Refilled(front, dir, stream[..start], filler), front, dir, stream[..start], filler, last,
                if last.dir == dir then stream[start..] else Filled(|last.data|, filler));
    }
  }

  lemma NothingRefilled(dir: Capture.Dir, stream: seq<byte>, filler: byte)
    requires |stream| == |Sent([], dir)|
    ensures RefilledOk([], [], dir, stream, filler)
  {
  }

  /** A stream for one watched direction that hides its only occurrence of the pattern there, in
      chunks of the given shape; the other direction does not contain the pattern. */
  lemma HiddenPieces(e: Engine, d: Detector, ruleId: string, shape: seq<Piece>, dir: Capture.Dir) returns (pieces: seq<Piece>)
    requires RawOnStream(d) && NoEmptyPiece(shape) && Watches(d, ruleId, dir)
    requires !NeverTooWide(CutsOf(shape, dir), |d.pattern.bytes|, e.config.bufferBytes)
    ensures SameShape(pieces, shape) && InStream(d, ruleId, pieces)
    ensures forall other: Capture.Dir :: !Seen(Fed(pieces, other), d.pattern.bytes, e.config.bufferBytes)
  {
    hide Watches, Occurs, Seen, SeenIn, CutsOk, NoEmptyPiece, Fed;
    var needle, size, cuts := d.pattern.bytes, e.config.bufferBytes, CutsOf(shape, dir);
    SeenIffSent(shape, dir, needle, size);
    var i :| 0 <= i < |cuts| && |needle| <= cuts[i] && Min(cuts[i], cuts[i] - ChunkStart(cuts, i) + |needle| - 1) > size;
    var stream := WideChunkHides(cuts, |Sent(shape, dir)|, needle, size, i);
    var filler := Filler(needle[0], needle[0]);
    pieces := Refilled(shape, dir, stream, filler);
    RefilledIs(shape, dir, stream, filler);
    ShapeNotEmpty(pieces, shape);
    SameCuts(pieces, shape, dir);
    forall other: Capture.Dir ensures !Seen(Fed(pieces, other), needle, size) {
      SeenIffSent(pieces, other, needle, size);
      if other != dir { FillerHidesNothing(Sent(pieces, other), CutsOf(pieces, other), filler, needle, size); }
    }
  }

  lemma ShapeNotEmpty(a: seq<Piece>, b: seq<Piece>)
    requires SameShape(a, b) && NoEmptyPiece(b)
    ensures NoEmptyPiece(a)
  {
  }

  lemma FillerHidesNothing(s: seq<byte>, cuts: seq<nat>, filler: byte, needle: seq<byte>, size: nat)
    requires AllFiller(s, filler) && needle != [] && filler != needle[0]
    ensures !SeenIn(s, cuts, needle, size)
  {
    forall p: nat | p <= |s| ensures !OccursAt(needle, s, p) {
      if p + |needle| <= |s| {
        assert s[p..p + |needle|][0] == s[p] && s[p] in s;
      }
    }
  }

  lemma {:induction false} NeverDecoded(o: Oracle, d: Detector, ruleId: string, pieces: seq<Piece>, size: nat)
    requires forall b :: o.decode(b).None?
    ensures !FiredDecoded(o, d, ruleId, pieces, size)
  {
    if pieces == [] {
    } else {
      NeverDecoded(o, d, ruleId, pieces[..|pieces| - 1], size);
    }
  }

  /** For chunks of a given shape, whatever their bytes, and nothing to decode: a session has
      matched a plain pattern exactly when it occurs in a watched direction, if and only if no
      chunk of such a direction is too wide. */
  lemma DetectionIsCompleteIffWideEnough(o: Oracle, e: Engine, s: Session, shape: seq<Piece>, d: Detector)
    requires Untouched(s) && d.id !in s.matched
    requires d in e.compiled && OwnId(e.compiled, d) && RawOnStream(d)
    requires NoEmptyPiece(shape) && forall b :: o.decode(b).None?
    ensures (forall pieces | SameShape(pieces, shape) ::
               d.id in Inspect(o, e, s, pieces).session.matched <==> InStream(d, s.ruleId, pieces))
        <==> WideEnough(e, d, s.ruleId, shape)
  {
    hide Watches, Inspect, InStream, FiredDecoded, NeverTooWide, NoEmptyPiece, SameShape, RawOnStream, Seen, Fed, CutsOf, OwnId, Fired;
    NeedleIsRaw(d);
    if WideEnough(e, d, s.ruleId, shape) {
      forall pieces | SameShape(pieces, shape)
        ensures d.id in Inspect(o, e, s, pieces).session.matched <==> InStream(d, s.ruleId, pieces)
      {
        ShapeNotEmpty(pieces, shape);
        SameWidth(e, d, s.ruleId, pieces, shape);
        MatchedIffInStream(o, e, s, pieces, d);
        NeverDecoded(o, d, s.ruleId, pieces, e.config.bufferBytes);
      }
    } else {
      var dir :| Watches(d, s.ruleId, dir) && !NeverTooWide(CutsOf(shape, dir), |d.pattern.bytes|, e.config.bufferBytes);
      var pieces := HiddenPieces(e, d, s.ruleId, shape, dir);
      MatchedAreTheFired(o, e, s, pieces, d);
      FiredIsSeen(o, d, s.ruleId, pieces, e.config.bufferBytes);
      NeverDecoded(o, d, s.ruleId, pieces, e.config.bufferBytes);
      assert !(d.id in Inspect(o, e, s, pieces).session.matched <==> InStream(d, s.ruleId, pieces));
    }
  }

  lemma SameWidth(e: Engine, d: Detector, ruleId: string, a: seq<Piece>, b: seq<Piece>)
    requires SameShape(a, b) && d.pattern.Needle? && WideEnough(e, d, ruleId, b)
    ensures WideEnough(e, d, ruleId, a)
  {
    hide SameShape, CutsOf, NeverTooWide, Watches;
    forall dir: Capture.Dir ensures CutsOf(a, dir) == CutsOf(b, dir) {
      SameCuts(a, b, dir);
    }
  }

  lemma NeedleIsRaw(d: Detector)
    requires RawOnStream(d)
    ensures d.pattern.Needle?
  {
  }

  /** With the default buffer no chunk that a connection can deliver is too long for any pattern
      that a configuration can hold. */
  lemma DefaultBufferIsWideEnough(chunks: seq<seq<byte>>, d: Detector)
    requires DetectorOk(d) && d.pattern.Needle?
    requires forall i | 0 <= i < |chunks| :: 0 < |chunks[i]| <= 64 * 1024
    ensures Seen(chunks, d.pattern.bytes, 128 * 1024) <==> Occurs(d.pattern.bytes, Concat(chunks))
  {
    SmallChunksMissNothing(chunks, d.pattern.bytes, 128 * 1024);
  }

  lemma {:induction false} EnabledAreCompiled(detectors: seq<Detector>, d: Detector)
    ensures d in CompileEnabled(detectors) ==>
      exists raw | raw in detectors :: raw.enabled && d == raw.(score := d.score) && d.score == (if raw.score <= 0 then 25 else raw.score)
  {
    if detectors == [] {
    } else {
      EnabledAreCompiled(detectors[..|detectors| - 1], d);
      assert detectors[|detectors| - 1] in detectors;
    }
  }

  lemma {:induction false} EnabledIsCompiled(detectors: seq<Detector>, raw: Detector)
    requires raw in detectors && raw.enabled
    ensures raw.(score := if raw.score > 0 then raw.score else 25) in CompileEnabled(detectors)
  {
    if raw != detectors[|detectors| - 1] { EnabledIsCompiled(detectors[..|detectors| - 1], raw); }
  }

  /** Compiled are exactly the enabled detectors of the configuration, and the built-in ones when they are
      asked for; a detector without a score counts 25. */
  lemma CompiledAreTheEnabled(c: Config, d: Detector)
    ensures d in Compiled(c) <==>
      || (c.builtins && d in BUILTINS)
      || exists raw | raw in c.detectors :: raw.enabled && d == raw.(score := if raw.score > 0 then raw.score else 25)
  {
    hide CompileEnabled;
    EnabledAreCompiled(c.detectors, d);
    forall raw | raw in c.detectors && raw.enabled && d == raw.(score := if raw.score > 0 then raw.score else 25)
      ensures d in CompileEnabled(c.detectors)
    {
      EnabledIsCompiled(c.detectors, raw);
    }
  }

  /** In a valid configuration every compiled detector has a score from 1 to 100, and those that
      were configured have an identifier of their own unless it is one that the program uses. */
  lemma CompiledDetectors(c: Config, d: Detector)
    requires Acceptable(c) && d in Compiled(c)
    ensures 0 < d.score <= 100
    ensures !IsBuiltinId(d.id) ==> OwnId(Compiled(c), d) && d.id != BURST.detectorId
  {
    hide CompileEnabled;
    EnabledAreCompiled(c.detectors, d);
    if !IsBuiltinId(d.id) {
      forall other | other in Compiled(c) && other.id == d.id ensures other == d {
        EnabledAreCompiled(c.detectors, other);
      }
    }
  }
}
