/** One rule of internal/proxy/rule.go as a value: its listener, its recorder and its route,
    and the steps that start, stop, reconfigure and restore it. */
module Rules {
  import opened Streams
  import opened Specs
  import Health
  import Store
  import StoreLaws

  /** Generated identifiers are never empty. */
  type Id = s: string | s != "" witness "r"

  /** What the program cannot decide: the interface addresses, which bind calls fail, and the
      identifiers that are generated. Calls are numbered. */
  datatype Env = Env(locals: set<IP>, refuses: nat -> bool, ids: nat -> Id)

  /** The sockets the program holds open, and how many calls it has made. */
  datatype Sys = Sys(open: map<nat, Binding>, binds: nat, ids: nat)

  datatype RuleState = RuleState(
    spec: RuleSpec, acl: seq<nat>, running: bool, socket: Option<nat>, rec: Store.State, route: Health.Route)

  datatype Failure =
    | BadSpec(reason: SpecError) | UnknownRule | IdTaken | PortTaken | CannotBind | TooManyPins
    | BadMode | NoBackup | DuplicateId
    | Import(cause: Failure) | ImportAndRollback(cause: Failure, rollback: Failure)

  function NewRule(spec: RuleSpec): RuleState {
    RuleState(spec, ParseAcl(spec.allow), false, None,
              Store.NewState(spec.dump.maxConns, spec.dump.maxBytesPer), Health.NewRoute(spec))
  }

  // ----- sockets --------------------------------------------------------------

  /** The next bind call. */
  function Bind(env: Env, sys: Sys, b: Binding): Sys {
    sys.(binds := sys.binds + 1, open := if env.refuses(sys.binds) then sys.open else sys.open[sys.binds := b])
  }

  /** The socket that the next bind call returns, or None for an error. */
  function Bound(env: Env, sys: Sys): Option<nat> {
    if env.refuses(sys.binds) then None else Some(sys.binds)
  }

  function Close(sys: Sys, socket: Option<nat>): Sys {
    if socket.None? then sys else sys.(open := sys.open - {socket.value})
  }

  // ----- life cycle -----------------------------------------------------------

  datatype Running = Running(sys: Sys, rule: RuleState)

  /** startLocked; it has failed when the rule is still not running. */
  function Start(env: Env, sys: Sys, r: RuleState, bound: Option<nat>): Running {
    if r.running then Running(Close(sys, bound), r)
    else if bound.Some? then Running(sys, r.(running := true, socket := bound))
    else
      var socket := Bound(env, sys);
      Running(Bind(env, sys, BindingOf(r.spec)), if socket.Some? then r.(running := true, socket := socket) else r)
  }

  function Stop(sys: Sys, r: RuleState): Running {
    if r.running then Running(Close(sys, r.socket), r.(running := false, socket := None)) else Running(sys, r)
  }

  /** A rule that could not be started is switched off. */
  function StartOrDisable(env: Env, sys: Sys, r: RuleState): Running {
    var started := Start(env, sys, r, None);
    if started.rule.running then started else started.(rule := r.(spec := r.spec.(enabled := false)))
  }

  function Routed(r: RuleState, mode: string): RuleState {
    var s := r.spec.(routingMode := mode);
    r.(spec := s, route := Health.DecideFailover(s, r.route))
  }

  // ----- reconfiguration --------------------------------------------------------

  predicate NeedsListener(r: RuleState, s: RuleSpec) {
    s.enabled && (!r.running || BindingOf(r.spec) != BindingOf(s))
  }

  /** How far an update has come before it changes any setting. */
  datatype Prepared = Prepared(sys: Sys, rule: RuleState, candidate: Option<nat>, stoppedOld: bool)

  /** Bind the new listener while the old one still runs; when they may overlap, try again
      without the old one. */
  function Prepare(env: Env, sys: Sys, r: RuleState, s: RuleSpec): Prepared {
    if !NeedsListener(r, s) then Prepared(sys, r, None, false)
    else
      var candidate, after := Bound(env, sys), Bind(env, sys, BindingOf(s));
      if candidate.None? && r.running && r.spec.listenPort == s.listenPort && r.spec.protocol == s.protocol then
        var stopped := Stop(after, r);
        Prepared(Bind(env, stopped.sys, BindingOf(s)), stopped.rule, Bound(env, stopped.sys), true)
      else
        Prepared(after, r, candidate, false)
  }

  function Restore(env: Env, p: Prepared): Running {
    var sys := Close(p.sys, p.candidate);
    if p.stoppedOld then StartOrDisable(env, sys, p.rule) else Running(sys, p.rule)
  }

  /** An endpoint that changes starts again as up. */
  function Rerouted(route: Health.Route, was: RuleSpec, s: RuleSpec): Health.Route {
    Health.DecideFailover(s, Health.Route(
      if was.target != s.target then Health.FRESH else route.target,
      if was.backup != s.backup then Health.FRESH else route.backup, route.usingBackup))
  }

  function Configured(r: RuleState, s: RuleSpec): RuleState {
    r.(spec := s, acl := ParseAcl(s.allow), rec := Store.Resize(r.rec, s.dump.maxConns, s.dump.maxBytesPer),
       route := Rerouted(r.route, r.spec, s))
  }

  function Commit(env: Env, p: Prepared, r: RuleState, s: RuleSpec): Running {
    var stopped :=
      if r.running && (!s.enabled || NeedsListener(r, s)) && !p.stoppedOld then Stop(p.sys, p.rule)
      else Running(p.sys, p.rule);
    if NeedsListener(r, s) then Start(env, stopped.sys, Configured(stopped.rule, s), p.candidate)
    else stopped.(rule := Configured(stopped.rule, s))
  }

  /** What stops an update of rule r to the settings s, once they are known to be valid. */
  function Obstacle(p: Prepared, r: RuleState, s: RuleSpec): Option<Failure> {
    if NeedsListener(r, s) && p.candidate.None? then Some(CannotBind)
    else if !Store.ResizeAccepted(r.rec, s.dump.maxConns, s.dump.maxBytesPer) then Some(TooManyPins)
    else None
  }

  function Reconfigure(env: Env, sys: Sys, r: RuleState, s: RuleSpec): Running {
    var p := Prepare(env, sys, r, s);
    if Obstacle(p, r, s).Some? then Restore(env, p) else Commit(env, p, r, s)
  }

  // ----- what one rule keeps ----------------------------------------------------

  /** The rule's own socket, with the address it must be bound to. */
  function Own(r: RuleState): map<nat, Binding> {
    if r.socket.Some? then map[r.socket.value := BindingOf(r.spec)] else map[]
  }

  predicate RecOk(r: RuleState) {
    && Store.StoreOk(r.rec)
    && r.rec.maxConns == r.spec.dump.maxConns && r.rec.maxBytesPer == r.spec.dump.maxBytesPer
  }

  ghost predicate RuleOk(locals: set<IP>, id: string, r: RuleState) {
    && Normal(r.spec, locals) && r.spec.id == id
    && r.acl == ParseAcl(r.spec.allow)
    && RecOk(r)
    && (r.running <==> r.socket.Some?)
    && (r.running ==> r.spec.enabled)
  }

  /** The rule's own socket is open, and was returned by an earlier call. */
  predicate Holds(sys: Sys, r: RuleState) {
    r.socket.Some? ==>
      r.socket.value < sys.binds && r.socket.value in sys.open && sys.open[r.socket.value] == BindingOf(r.spec)
  }

  /** From (sys, r) to (next, s), the rule's own socket is all that was exchanged, for none or
      for one that no earlier call returned. */
  ghost predicate Swaps(sys: Sys, r: RuleState, next: Sys, s: RuleState) {
    && sys.binds <= next.binds
    && next.open == (sys.open - Own(r).Keys) + Own(s)
    && (s.socket == r.socket || s.socket.None? || sys.binds <= s.socket.value < next.binds)
  }

  predicate Below(sys: Sys) { forall k | k in sys.open :: k < sys.binds }

  lemma StartSwaps(env: Env, sys: Sys, r: RuleState)
    requires Below(sys) && Holds(sys, r) && (r.running <==> r.socket.Some?)
    ensures var t := Start(env, sys, r, None);
            Swaps(sys, r, t.sys, t.rule) && Below(t.sys) && Holds(t.sys, t.rule)
            && (t.rule.running <==> t.rule.socket.Some?)
            && t.rule == r.(running := t.rule.running, socket := t.rule.socket)
            && (r.running ==> t.rule.running)
  {
  }

  lemma StopSwaps(sys: Sys, r: RuleState)
    requires Below(sys) && Holds(sys, r) && (r.running <==> r.socket.Some?)
    ensures var t := Stop(sys, r);
            Swaps(sys, r, t.sys, t.rule) && Below(t.sys)
            && t.rule == r.(running := false, socket := None)
  {
  }

  /** The rule is as the invariant of the whole program has it. */
  predicate Steady(sys: Sys, r: RuleState) {
    Below(sys) && Holds(sys, r) && (r.running <==> r.socket.Some?)
  }

  function CandidateMap(p: Prepared, s: RuleSpec): map<nat, Binding> {
    if p.candidate.Some? then map[p.candidate.value := BindingOf(s)] else map[]
  }

  /** Preparing takes at most the rule's own socket away and adds at most the new one. */
  lemma PrepareFrame(env: Env, sys: Sys, r: RuleState, s: RuleSpec)
    requires Steady(sys, r)
    ensures var p := Prepare(env, sys, r, s);
            && sys.binds <= p.sys.binds && Below(p.sys)
            && p.sys.open == (sys.open - (if p.stoppedOld then Own(r).Keys else {})) + CandidateMap(p, s)
            && (p.candidate.Some? ==> NeedsListener(r, s) && sys.binds <= p.candidate.value < p.sys.binds)
            && p.rule == (if p.stoppedOld then r.(running := false, socket := None) else r)
            && (p.stoppedOld <==>
                NeedsListener(r, s) && r.running && env.refuses(sys.binds)
                && r.spec.listenPort == s.listenPort && r.spec.protocol == s.protocol)
            && (p.stoppedOld ==> p.sys.binds == sys.binds + 2)
  {
  }

  /** An update that is refused leaves every setting, the allow list, the captures and the
      route as they were, and a running rule running; only when the old address cannot be bound
      again is the rule switched off. No socket of the attempt stays open. */
  lemma RefusedUpdateChangesNothing(env: Env, sys: Sys, r: RuleState, s: RuleSpec)
    requires Steady(sys, r)
    requires Obstacle(Prepare(env, sys, r, s), r, s).Some?
    ensures var t := Reconfigure(env, sys, r, s);
            && Swaps(sys, r, t.sys, t.rule) && Steady(t.sys, t.rule)
            && t.rule == (if Prepare(env, sys, r, s).stoppedOld && env.refuses(sys.binds + 2)
                          then r.(spec := r.spec.(enabled := false), running := false, socket := None)
                          else r.(socket := t.rule.socket))
  {
    PrepareFrame(env, sys, r, s);
    hide Prepare, Obstacle;
    RestoreFrame(env, sys, r, s, Prepare(env, sys, r, s));
  }

  lemma RestoreFrame(env: Env, sys: Sys, r: RuleState, s: RuleSpec, p: Prepared)
    requires Steady(sys, r)
    requires sys.binds <= p.sys.binds && Below(p.sys)
    requires p.sys.open == (sys.open - (if p.stoppedOld then Own(r).Keys else {})) + CandidateMap(p, s)
    requires p.candidate.Some? ==> sys.binds <= p.candidate.value < p.sys.binds
    requires p.rule == (if p.stoppedOld then r.(running := false, socket := None) else r)
    requires p.stoppedOld ==> r.running && p.sys.binds == sys.binds + 2
    ensures var t := Restore(env, p);
            && Swaps(sys, r, t.sys, t.rule) && Steady(t.sys, t.rule)
            && t.rule == (if p.stoppedOld && env.refuses(sys.binds + 2)
                          then r.(spec := r.spec.(enabled := false), running := false, socket := None)
                          else r.(socket := t.rule.socket))
  {
    assert Close(p.sys, p.candidate).open == sys.open - (if p.stoppedOld then Own(r).Keys else {});
  }

  lemma UpdateConfigures(env: Env, sys: Sys, r: RuleState, s: RuleSpec)
    requires Steady(sys, r)
    requires Obstacle(Prepare(env, sys, r, s), r, s).None?
    ensures var t := Reconfigure(env, sys, r, s);
            && Swaps(sys, r, t.sys, t.rule) && Steady(t.sys, t.rule)
            && t.rule == Configured(r, s).(running := s.enabled, socket := t.rule.socket)
  {
    PrepareFrame(env, sys, r, s);
    hide Prepare;
    CommitFrame(env, sys, r, s, Prepare(env, sys, r, s));
  }

  lemma CommitFrame(env: Env, sys: Sys, r: RuleState, s: RuleSpec, p: Prepared)
    requires Steady(sys, r)
    requires sys.binds <= p.sys.binds && Below(p.sys)
    requires p.sys.open == (sys.open - (if p.stoppedOld then Own(r).Keys else {})) + CandidateMap(p, s)
    requires p.candidate.Some? ==> sys.binds <= p.candidate.value < p.sys.binds
    requires p.candidate.Some? <==> NeedsListener(r, s)
    requires p.stoppedOld ==> NeedsListener(r, s) && r.running
    requires p.rule == (if p.stoppedOld then r.(running := false, socket := None) else r)
    ensures var t := Commit(env, p, r, s);
            && Swaps(sys, r, t.sys, t.rule) && Steady(t.sys, t.rule)
            && t.rule == Configured(r, s).(running := s.enabled, socket := t.rule.socket)
  {
    hide Rerouted, ParseAcl, Store.Resize;
  }

  /** The settings s are in force in the rule that was `was`: the whole specification and its allow
      list; the captures within the new limits; the verdict and the streaks of an endpoint that stays,
      and a fresh start for one that changes; and a route that has been decided anew. */
  predicate InForce(was: RuleState, s: RuleSpec, r: RuleState) {
    && r.spec == s && r.running == s.enabled
    && r.acl == ParseAcl(s.allow)
    && s.dump.maxBytesPer > 0
    && StoreLaws.KeepsNewest(was.rec, r.rec, s.dump.maxConns, s.dump.maxBytesPer)
    && r.route.target == (if was.spec.target == s.target then was.route.target else Health.Probe(true, 0, 0))
    && r.route.backup == (if was.spec.backup == s.backup then was.route.backup else Health.Probe(true, 0, 0))
    && Health.Settled(s, was.route.usingBackup, r.route)
  }

  lemma ConfiguredIsInForce(was: RuleState, s: RuleSpec, r: RuleState)
    requires Store.StoreOk(was.rec) && Store.ResizeAccepted(was.rec, s.dump.maxConns, s.dump.maxBytesPer)
    requires r == Configured(was, s).(running := s.enabled, socket := r.socket)
    ensures InForce(was, s, r)
  {
    StoreLaws.PinsBound(was.rec.dumps);
    StoreLaws.ResizeKeepsNewest(was.rec, s.dump.maxConns, s.dump.maxBytesPer);
    RouteIsDecided(was.route, was.spec, s);
    hide StoreLaws.KeepsNewest, Store.StoreOk, Store.Resize, Rerouted, Health.Settled, ParseAcl;
  }

  lemma RouteIsDecided(route: Health.Route, was: RuleSpec, s: RuleSpec)
    ensures var r := Rerouted(route, was, s);
            && r.target == (if was.target == s.target then route.target else Health.Probe(true, 0, 0))
            && r.backup == (if was.backup == s.backup then route.backup else Health.Probe(true, 0, 0))
            && Health.Settled(s, route.usingBackup, r)
  {
    hide Health.Settled, Health.DecideFailover;
    Health.DecisionSettles(s, Health.Route(
      if was.target != s.target then Health.FRESH else route.target,
      if was.backup != s.backup then Health.FRESH else route.backup, route.usingBackup));
  }

  /** An update that is not refused takes effect as a whole. */
  lemma UpdateTakesEffect(env: Env, sys: Sys, r: RuleState, s: RuleSpec)
    requires Steady(sys, r) && Store.StoreOk(r.rec)
    requires Obstacle(Prepare(env, sys, r, s), r, s).None?
    ensures var t := Reconfigure(env, sys, r, s);
            && Swaps(sys, r, t.sys, t.rule) && Steady(t.sys, t.rule)
            && InForce(r, s, t.rule)
  {
    UpdateConfigures(env, sys, r, s);
    ConfiguredIsInForce(r, s, Reconfigure(env, sys, r, s).rule);
    hide Prepare, Reconfigure, Configured, InForce, Swaps, Steady, Store.StoreOk;
  }

  function EndpointOf(s: RuleSpec, primary: bool): Option<Endpoint> { if primary then Some(s.target) else s.backup }

  /** Across an update an endpoint that stays keeps its history, as long as the thresholds stay
      too, and an endpoint that changes starts again with none. */
  lemma UpdateKeepsOrRestartsHistory(r: RuleState, s: RuleSpec, earlier: seq<bool>, outcomes: seq<Health.Outcome>, primary: bool)
    requires Health.Threshold(s.health.failAfter) == Health.Threshold(r.spec.health.failAfter)
    requires Health.Threshold(s.health.riseAfter) == Health.Threshold(r.spec.health.riseAfter)
    requires Health.ProbeOf(r.route, primary) == Health.Summarised(
      earlier, Health.Threshold(r.spec.health.failAfter), Health.Threshold(r.spec.health.riseAfter))
    ensures var kept := if EndpointOf(r.spec, primary) == EndpointOf(s, primary) then earlier else [];
            Health.ProbeOf(Health.After(s, Configured(r, s).route, outcomes), primary) == Health.Summarised(
              kept + Health.History(s, outcomes, primary),
              Health.Threshold(s.health.failAfter), Health.Threshold(s.health.riseAfter))
  {
    hide Health.After, Health.Summarised, Health.Decide, Health.Threshold;
    Health.FreshIsSummary(Health.Threshold(s.health.failAfter), Health.Threshold(s.health.riseAfter));
    var kept := if EndpointOf(r.spec, primary) == EndpointOf(s, primary) then earlier else [];
    Health.StreaksContinue(s, Configured(r, s).route, kept, outcomes, primary);
  }
}
