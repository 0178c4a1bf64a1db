/** The detector engine of internal/proxy/detect.go as a value: signals that count once for
    each session, a saturating score, and a bounded list of findings, newest first. */
module Detection {
  import opened Streams
  import opened Windows
  import Capture

  datatype Pattern = Needle(bytes: seq<byte>) | Other(name: string)

  datatype Detector = Detector(
    id: string, enabled: bool, direction: Option<Capture.Dir>, scope: string, ruleIds: seq<string>, score: int,
    pattern: Pattern)

  /** Limits that are not positive stand for their defaults. */
  datatype Config = Config(
    threshold: int, autoPinScore: int, maxFindings: nat, bufferBytes: nat, builtins: bool, detectors: seq<Detector>)

  /** What is not modelled byte by byte: URL decoding, the parts of an HTTP message, and patterns
      other than plain bytes. */
  datatype Oracle = Oracle(
    decode: seq<byte> -> Option<seq<byte>>,
    section: (string, Capture.Dir, seq<byte>) -> seq<byte>,
    matches: (string, seq<byte>) -> bool)

  datatype Signal = Signal(detectorId: string, score: int)

  datatype Finding = Finding(id: nat, score: int, signals: seq<Signal>, autoPinned: bool)

  datatype Session = Session(
    ruleId: string, autoPin: bool, inbound: seq<byte>, outbound: seq<byte>, matched: set<string>, finding: Option<Finding>)
  {
    function Buffer(dir: Capture.Dir): seq<byte> { if dir.In? then inbound else outbound }
  }

  /** The findings are listed by identifier; a finding itself belongs to its session. */
  datatype Engine = Engine(config: Config, compiled: seq<Detector>, findings: seq<nat>, sequence: nat)

  /** One call of the hook. */
  datatype Report = Report(id: nat, score: int, created: bool, autoPin: bool)

  function NewSession(ruleId: string, autoPin: bool): Session { Session(ruleId, autoPin, [], [], {}, None) }

  const NO_FINDING := Finding(0, 0, [], false)

  // ----- configuration ------------------------------------------------------------

  function WithDefaults(c: Config): Config {
    c.(threshold := if c.threshold <= 0 then 25 else c.threshold,
       autoPinScore := if c.autoPinScore <= 0 then 60 else c.autoPinScore,
       maxFindings := if c.maxFindings == 0 then 500 else c.maxFindings,
       bufferBytes := if c.bufferBytes == 0 then 128 * 1024 else c.bufferBytes)
  }

  /** What compileDetector accepts: a score of at most 100, and a pattern that is not empty. */
  predicate DetectorOk(d: Detector) {
    d.score <= 100 && (d.pattern.Needle? ==> 0 < |d.pattern.bytes| <= 4096)
  }

  predicate DistinctIds(detectors: seq<Detector>) {
    forall i, j | 0 <= i < j < |detectors| :: detectors[i].id != detectors[j].id
  }

  /** What Validate accepts, once defaults are applied. */
  predicate Acceptable(c: Config) {
    && 1 <= c.threshold <= 100 && 1 <= c.autoPinScore <= 100
    && 1 <= c.maxFindings <= 5000 && 4096 <= c.bufferBytes <= 4 * 1024 * 1024
    && (forall d | d in c.detectors :: d.id != "" && DetectorOk(d))
    && DistinctIds(c.detectors)
  }

  const AUTOMATION := Detector("builtin-automation", true, Some(Capture.In), "http_headers", [], 45, Other("automation"))
  const TRAVERSAL := Detector("builtin-traversal", true, Some(Capture.In), "stream", [], 35, Other("traversal"))
  const INJECTION := Detector("builtin-injection", true, Some(Capture.In), "stream", [], 40, Other("injection"))

  const BUILTINS := [AUTOMATION, TRAVERSAL, INJECTION]

  /** The signal that a burst of connections gives to the session of the last one. */
  const BURST := Signal("builtin-burst", 25)

  /** Identifiers that the program itself uses. */
  predicate IsBuiltinId(id: string) { id == BURST.detectorId || exists b | b in BUILTINS :: b.id == id }

  /** The enabled detectors in order; a score that is not positive stands for 25. */
  function CompileEnabled(detectors: seq<Detector>): seq<Detector> {
    if detectors == [] then []
    else
      var before, d := CompileEnabled(detectors[..|detectors| - 1]), detectors[|detectors| - 1];
      if d.enabled then before + [d.(score := if d.score <= 0 then 25 else d.score)] else before
  }

  function Compiled(c: Config): seq<Detector> {
    (if c.builtins then BUILTINS else []) + CompileEnabled(c.detectors)
  }

  /** Configure; a configuration that is not valid changes nothing. */
  function Configure(e: Engine, config: Config): Engine {
    var c := WithDefaults(config);
    if !Acceptable(c) then e
    else e.(config := c, compiled := Compiled(c), findings := Take(e.findings, c.maxFindings))
  }

  function ClearFindings(e: Engine): Engine { e.(findings := []) }

  // ----- signals --------------------------------------------------------------------

  function Scored(f: Finding, signal: Signal): Finding {
    f.(signals := f.signals + [signal], score := Min(f.score + signal.score, 100))
  }

  predicate Creates(c: Config, f: Finding) { f.id == 0 && f.score >= c.threshold }

  function Listed(e: Engine): Engine {
    e.(sequence := e.sequence + 1, findings := Take([e.sequence + 1] + e.findings, e.config.maxFindings))
  }

  predicate Pins(c: Config, s: Session, f: Finding) {
    s.autoPin && f.id != 0 && f.score >= c.autoPinScore && !f.autoPinned
  }

  datatype Added = Added(engine: Engine, session: Session, report: Option<Report>)

  /** The finding with its new score gets its number, and its pin, when it is due. */
  function Settled(e: Engine, s: Session, scored: Finding): Added {
    var created := Creates(e.config, scored);
    var engine := if created then Listed(e) else e;
    var named := if created then scored.(id := engine.sequence) else scored;
    var autoPin := Pins(e.config, s, named);
    var final := named.(autoPinned := named.autoPinned || autoPin);
    Added(engine, s.(finding := Some(final)),
          if final.id != 0 then Some(Report(final.id, final.score, created, autoPin)) else None)
  }

  function CurrentFinding(s: Session): Finding { if s.finding.Some? then s.finding.value else NO_FINDING }

  function AddSignal(e: Engine, s: Session, signal: Signal): Added {
    if signal.detectorId in s.matched then Added(e, s, None)
    else Settled(e, s.(matched := s.matched + {signal.detectorId}), Scored(CurrentFinding(s), signal))
  }

  // ----- chunks -----------------------------------------------------------------------

  predicate Applies(d: Detector, ruleId: string, dir: Capture.Dir) {
    (d.direction.None? || d.direction.value == dir) && (d.ruleIds == [] || ruleId in d.ruleIds)
  }

  predicate Matches(o: Oracle, d: Detector, data: seq<byte>) {
    data != [] && (if d.pattern.Needle? then Occurs(d.pattern.bytes, data) else o.matches(d.pattern.name, data))
  }

  function Scoped(o: Oracle, d: Detector, dir: Capture.Dir, buffer: seq<byte>): seq<byte> {
    if d.scope == "stream" then buffer else o.section(d.scope, dir, buffer)
  }

  /** The detector finds its pattern in the buffer, as it is or decoded. */
  predicate Fires(o: Oracle, d: Detector, dir: Capture.Dir, buffer: seq<byte>) {
    var scoped := Scoped(o, d, dir, buffer);
    Matches(o, d, scoped) || (o.decode(scoped).Some? && Matches(o, d, o.decode(scoped).value))
  }

  /** The reports so far, and one more if there is one. */
  function Logged(log: seq<Report>, report: Option<Report>): seq<Report> {
    if report.Some? then log + [report.value] else log
  }

  datatype Asked = Asked(engine: Engine, session: Session, reports: seq<Report>)

  /** The next detector of the list is asked, unless it has matched before. */
  function Ask(o: Oracle, t: Asked, d: Detector, dir: Capture.Dir): Asked {
    if d.id !in t.session.matched && Applies(d, t.session.ruleId, dir) && Fires(o, d, dir, t.session.Buffer(dir)) then
      var added := AddSignal(t.engine, t.session, Signal(d.id, d.score));
      Asked(added.engine, added.session, Logged(t.reports, added.report))
    else t
  }

  function AskAll(o: Oracle, e: Engine, s: Session, detectors: seq<Detector>, dir: Capture.Dir): Asked {
    if detectors == [] then Asked(e, s, [])
    else Ask(o, AskAll(o, e, s, detectors[..|detectors| - 1], dir), detectors[|detectors| - 1], dir)
  }

  function Buffered(s: Session, dir: Capture.Dir, data: seq<byte>, size: nat): Session {
    var buffer := TakeLast(s.Buffer(dir) + data, size);
    if dir.In? then s.(inbound := buffer) else s.(outbound := buffer)
  }

  /** One chunk, with the calls of the hook that it causes. */
  function InspectChunk(o: Oracle, e: Engine, s: Session, dir: Capture.Dir, data: seq<byte>): Asked {
    AskAll(o, e, Buffered(s, dir, data, e.config.bufferBytes), e.compiled, dir)
  }
}
