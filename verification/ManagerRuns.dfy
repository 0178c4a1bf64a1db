/** What every run of the rule manager keeps, and what its two transactions promise: Update
    and ReplaceSpecs, under any pattern of refused binds. */
module ManagerRuns {
  import opened Streams
  import opened Specs
  import opened Rules
  import opened Managers
  import Health
  import Store

  /** Operations of the manager, and what connections and probes do to a rule meanwhile. */
  datatype Op =
    | OpAdd(spec: RuleSpec)
    | OpUpdate(id: string, spec: RuleSpec)
    | OpSetEnabled(id: string, enabled: bool)
    | OpSetRoutingMode(id: string, mode: string)
    | OpDelete(id: string)
    | OpReplaceSpecs(specs: seq<RuleSpec>)
    | OpLoadSpecs(specs: seq<RuleSpec>)
    | OpStopAll
    | OpProbe(id: string, outcome: Health.Outcome)
    | OpCapture(id: string, op: Store.Op)

  /** Only the manager resizes a recorder; and a recorder is always well-formed, see RunOk. */
  function Captured(r: RuleState, op: Store.Op): RuleState {
    if op.OpResize? || !Store.StoreOk(r.rec) then r else r.(rec := Store.Apply(r.rec, op))
  }

  function Probed(r: RuleState, o: Health.Outcome): RuleState {
    r.(route := Health.NoteEndpointProbe(r.spec, r.route, o))
  }

  function Touch(w: World, id: string, r: RuleState): World { With(w, id, Running(w.sys, r)) }

  function Apply(env: Env, w: World, op: Op): World {
    match op
    case OpAdd(spec) => Add(env, w, spec).world
    case OpUpdate(id, spec) => Update(env, w, id, spec).world
    case OpSetEnabled(id, enabled) => SetEnabled(env, w, id, enabled).world
    case OpSetRoutingMode(id, mode) => SetRoutingMode(w, id, mode).world
    case OpDelete(id) => Delete(w, id).world
    case OpReplaceSpecs(specs) => ReplaceSpecs(env, w, specs).world
    case OpLoadSpecs(specs) => LoadSpecs(env, w, specs).0
    case OpStopAll => StopAll(w)
    case OpProbe(id, outcome) => if id in w.rules then Touch(w, id, Probed(w.rules[id], outcome)) else w
    case OpCapture(id, op) => if id in w.rules then Touch(w, id, Captured(w.rules[id], op)) else w
  }

  /** A rule changed in nothing that the manager looks at. */
  lemma TouchOk(locals: set<IP>, w: World, id: string, r: RuleState)
    requires WorldOk(locals, w) && id in w.rules
    requires r == w.rules[id].(rec := r.rec, route := r.route) && RecOk(r)
    ensures WorldOk(locals, Touch(w, id, r))
  {
    hide Normal, NoConflicts, SocketsOk, Taken, RecOk;
    IsSteady(locals, w, id);
    StaysUntaken(w.rules, id, r.spec);
    ChangeOk(locals, w, id, Running(w.sys, r));
  }

  lemma CapturedOk(r: RuleState, op: Store.Op)
    requires RecOk(r)
    ensures RecOk(Captured(r, op))
  {
    Store.ApplyOk(r.rec, op);
    hide Store.StoreOk;
  }

  lemma StepOk(env: Env, w: World, op: Op)
    requires WorldOk(env.locals, w)
    ensures WorldOk(env.locals, Apply(env, w, op))
  {
    hide WorldOk, Add, Update, SetRoutingMode, Delete, ReplaceSpecs, LoadSpecs, StopAll, Touch;
    match op
    case OpAdd(spec) => AddOk(env, w, spec);
    case OpUpdate(id, spec) => UpdateOk(env, w, id, spec);
    case OpSetEnabled(id, enabled) => if id in w.rules { UpdateOk(env, w, id, w.rules[id].spec.(enabled := enabled)); }
    case OpSetRoutingMode(id, mode) => ModeOk(env.locals, w, id, mode);
    case OpDelete(id) => DeleteOk(env.locals, w, id);
    case OpReplaceSpecs(specs) => ReplaceSpecsOk(env, w, specs);
    case OpLoadSpecs(specs) => LoadSpecsOk(env, w, specs);
    case OpStopAll => StopAllStops(env.locals, w);
    case OpProbe(id, outcome) =>
      if id in w.rules {
        IsSteady(env.locals, w, id);
        TouchOk(env.locals, w, id, Probed(w.rules[id], outcome));
      }
    case OpCapture(id, op) =>
      if id in w.rules {
        IsSteady(env.locals, w, id);
        CapturedOk(w.rules[id], op);
        TouchOk(env.locals, w, id, Captured(w.rules[id], op));
      }
  }

  const EMPTY := World(map[], [], Sys(map[], 0, 0))

  /** The state after a whole list of operations, the last one latest. */
  function Run(env: Env, ops: seq<Op>): World {
    if ops == [] then EMPTY else Apply(env, Run(env, ops[..|ops| - 1]), ops[|ops| - 1])
  }

  /** Every reachable state satisfies the invariant, whatever bind calls failed on the way. */
  lemma {:induction false} RunOk(env: Env, ops: seq<Op>)
    ensures WorldOk(env.locals, Run(env, ops))
  {
    hide WorldOk, Apply;
    if ops == [] {
      EmptyOk(env.locals, EMPTY.sys);
    } else {
      RunOk(env, ops[..|ops| - 1]);
      StepOk(env, Run(env, ops[..|ops| - 1]), ops[|ops| - 1]);
    }
  }

  /** In every reachable state, whatever bind calls failed on the way, the open sockets are
      exactly one per running rule, bound to that rule's present address and protocol. */
  lemma OpenSocketsAreTheRunningRules(env: Env, ops: seq<Op>)
    ensures var w := Run(env, ops);
            && (forall id | id in w.rules && w.rules[id].running ::
                  && w.rules[id].socket.Some?
                  && w.rules[id].socket.value in w.sys.open
                  && w.sys.open[w.rules[id].socket.value] == BindingOf(w.rules[id].spec))
            && (forall k | k in w.sys.open :: exists id | id in w.rules && w.rules[id].running :: w.rules[id].socket == Some(k))
            && (forall a, b | a in w.rules && b in w.rules && a != b && w.rules[a].running ::
                  w.rules[a].socket != w.rules[b].socket)
  {
    hide Normal, NoConflicts, RecOk, Lists, Run;
    var w := Run(env, ops);
    RunOk(env, ops);
    assert forall id | id in w.rules :: RuleOk(env.locals, id, w.rules[id]);
    forall k | k in w.sys.open ensures exists id | id in w.rules && w.rules[id].running :: w.rules[id].socket == Some(k) {
      assert Owned(w.rules, k);
    }
  }

  /** In every reachable state no two rules want the same address, every stored specification is
      valid and stored under its own identifier, only enabled rules run, and the order lists
      each rule once. */
  lemma {:induction false} StoredRulesAreValid(env: Env, ops: seq<Op>)
    ensures var w := Run(env, ops);
            && (forall a, b | a in w.rules && b in w.rules && a != b :: !Conflict(w.rules[a].spec, w.rules[b].spec))
            && (forall id | id in w.rules ::
                  && w.rules[id].spec.id == id && Validate(w.rules[id].spec, env.locals) == None
                  && (w.rules[id].running ==> w.rules[id].spec.enabled))
            && (forall i, j | 0 <= i < j < |w.order| :: w.order[i] != w.order[j])
            && (forall id :: id in w.order <==> id in w.rules)
  {
    hide Validate, ApplyDefaults, Conflict, RecOk, SocketsOk, Run;
    var w := Run(env, ops);
    RunOk(env, ops);
    assert forall id | id in w.rules :: RuleOk(env.locals, id, w.rules[id]);
  }

  // ----- enabled means running ----------------------------------------------------

  predicate EnabledRun(rules: map<string, RuleState>) {
    forall id | id in rules && rules[id].spec.enabled :: rules[id].running
  }

  lemma ChangeKeepsEnabled(rules: map<string, RuleState>, id: string, r: RuleState)
    requires EnabledRun(rules) && (r.spec.enabled ==> r.running)
    ensures EnabledRun(rules[id := r])
  {
  }

  lemma AddKeepsEnabled(env: Env, w: World, spec: RuleSpec)
    requires EnabledRun(w.rules)
    ensures EnabledRun(Add(env, w, spec).world.rules)
  {
    hide Validate, ApplyDefaults, Taken, EnabledRun;
    var s := Clean(spec, env.ids(w.sys.ids));
    var drawn := w.(sys := DrawId(w.sys, spec));
    var t := if s.enabled then StartOrDisable(env, drawn.sys, NewRule(s)) else Running(drawn.sys, NewRule(s));
    ChangeKeepsEnabled(w.rules, s.id, t.rule);
  }

  lemma UpdateKeepsEnabled(env: Env, w: World, id: string, spec: RuleSpec)
    requires WorldOk(env.locals, w) && EnabledRun(w.rules)
    ensures EnabledRun(Update(env, w, id, spec).world.rules)
  {
    hide Validate, ApplyDefaults, Taken, Prepare, Reconfigure, Configured, RuleOk;
    if id in w.rules {
      var r, s := w.rules[id], ApplyDefaults(spec.(id := id));
      IsSteady(env.locals, w, id);
      if Obstacle(Prepare(env, w.sys, r, s), r, s).Some? {
        RefusedUpdateChangesNothing(env, w.sys, r, s);
      } else {
        UpdateConfigures(env, w.sys, r, s);
        ConfiguredSpec(r, s);
      }
    }
  }

  lemma {:induction false} AddEachKeepsEnabled(env: Env, w: World, specs: seq<RuleSpec>)
    requires EnabledRun(w.rules)
    ensures EnabledRun(AddEach(env, w, specs).world.rules)
    ensures EnabledRun(LoadSpecs(env, w, specs).0.rules)
  {
    hide Add, EnabledRun;
    if specs == [] {
    } else {
      AddEachKeepsEnabled(env, w, specs[..|specs| - 1]);
      AddKeepsEnabled(env, AddEach(env, w, specs[..|specs| - 1]).world, specs[|specs| - 1]);
      AddKeepsEnabled(env, LoadSpecs(env, w, specs[..|specs| - 1]).0, specs[|specs| - 1]);
    }
  }

  lemma StepKeepsEnabled(env: Env, w: World, op: Op)
    requires WorldOk(env.locals, w) && EnabledRun(w.rules) && !op.OpStopAll?
    ensures EnabledRun(Apply(env, w, op).rules)
  {
    hide WorldOk, Add, Update, AddEach, LoadSpecs, StopAll, Normalize;
    match op
    case OpAdd(spec) => AddKeepsEnabled(env, w, spec);
    case OpUpdate(id, spec) => UpdateKeepsEnabled(env, w, id, spec);
    case OpSetEnabled(id, enabled) =>
      if id in w.rules { UpdateKeepsEnabled(env, w, id, w.rules[id].spec.(enabled := enabled)); }
    case OpReplaceSpecs(specs) => ReplaceKeepsEnabled(env, w, specs);
    case OpLoadSpecs(specs) => AddEachKeepsEnabled(env, w, specs);
    case _ =>
  }

  lemma ReplaceKeepsEnabled(env: Env, w: World, specs: seq<RuleSpec>)
    requires EnabledRun(w.rules)
    ensures EnabledRun(ReplaceSpecs(env, w, specs).world.rules)
  {
    hide AddEach, StopAll, Normalize;
    var checked := Normalize(env, w.sys.ids, specs);
    var drawn := w.(sys := w.sys.(ids := checked.ids));
    AddEachKeepsEnabled(env, World(map[], [], StopAll(drawn).sys), checked.specs);
    AddEachKeepsEnabled(env, World(map[], [], StopAll(Replace(env, drawn, checked.specs).world).sys), SpecsOf(w));
  }

  /** As long as StopAll is not used, a rule is enabled exactly when it runs. */
  lemma {:induction false} EnabledIffRunning(env: Env, ops: seq<Op>)
    requires OpStopAll !in ops
    ensures forall id | id in Run(env, ops).rules :: Run(env, ops).rules[id].spec.enabled <==> Run(env, ops).rules[id].running
  {
    hide WorldOk, Apply, Validate;
    StoredRulesAreValid(env, ops);
    EnabledInRun(env, ops);
  }

  lemma {:induction false} EnabledInRun(env: Env, ops: seq<Op>)
    requires OpStopAll !in ops
    ensures EnabledRun(Run(env, ops).rules)
  {
    hide WorldOk, Apply;
    if ops == [] {
    } else {
      EnabledInRun(env, ops[..|ops| - 1]);
      RunOk(env, ops[..|ops| - 1]);
      StepKeepsEnabled(env, Run(env, ops[..|ops| - 1]), ops[|ops| - 1]);
    }
  }
}
