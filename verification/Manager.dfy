/** The rule manager of internal/proxy/manager.go as a value: every operation, and the
    invariant that each of them keeps whatever bind calls fail. */
module Managers {
  import opened Streams
  import opened Specs
  import opened Rules
  import Health
  import Store

  datatype World = World(rules: map<string, RuleState>, order: seq<string>, sys: Sys)

  datatype Step = Step(world: World, error: Option<Failure>)

  // ----- operations -----------------------------------------------------------

  /** Some other rule than `exclude` listens where s would. */
  predicate Taken(rules: map<string, RuleState>, s: RuleSpec, exclude: string) {
    exists id | id in rules && id != exclude :: Conflict(rules[id].spec, s)
  }

  /** An identifier is generated only for a specification without one. */
  function DrawId(sys: Sys, s: RuleSpec): Sys {
    if s.id == "" then sys.(ids := sys.ids + 1) else sys
  }

  function With(w: World, id: string, t: Running): World {
    w.(rules := w.rules[id := t.rule], sys := t.sys)
  }

  function Install(env: Env, w: World, s: RuleSpec): Step {
    var made := NewRule(s);
    var t := if s.enabled then StartOrDisable(env, w.sys, made) else Running(w.sys, made);
    Step(With(w, s.id, t).(order := w.order + [s.id]),
         if s.enabled && !t.rule.running then Some(CannotBind) else None)
  }

  function AddError(env: Env, rules: map<string, RuleState>, s: RuleSpec): Option<Failure> {
    if Validate(s, env.locals).Some? then Some(BadSpec(Validate(s, env.locals).value))
    else if s.id in rules then Some(IdTaken)
    else if Taken(rules, s, "") then Some(PortTaken)
    else None
  }

  function Add(env: Env, w: World, spec: RuleSpec): Step {
    var s := Clean(spec, env.ids(w.sys.ids));
    var drawn := w.(sys := DrawId(w.sys, spec));
    if AddError(env, w.rules, s).Some? then Step(drawn, AddError(env, w.rules, s)) else Install(env, drawn, s)
  }

  function UpdateError(env: Env, w: World, id: string, s: RuleSpec): Option<Failure> {
    if id !in w.rules then Some(UnknownRule)
    else if Validate(s, env.locals).Some? then Some(BadSpec(Validate(s, env.locals).value))
    else if Taken(w.rules, s, id) then Some(PortTaken)
    else Obstacle(Prepare(env, w.sys, w.rules[id], s), w.rules[id], s)
  }

  function Update(env: Env, w: World, id: string, spec: RuleSpec): Step {
    var s := ApplyDefaults(spec.(id := id));
    if id !in w.rules || Validate(s, env.locals).Some? || Taken(w.rules, s, id) then
      Step(w, UpdateError(env, w, id, s))
    else
      Step(With(w, id, Reconfigure(env, w.sys, w.rules[id], s)), UpdateError(env, w, id, s))
  }

  function SetEnabled(env: Env, w: World, id: string, enabled: bool): Step {
    if id !in w.rules then Step(w, Some(UnknownRule))
    else Update(env, w, id, w.rules[id].spec.(enabled := enabled))
  }

  function SetRoutingMode(w: World, id: string, mode: string): Step {
    if id !in w.rules then Step(w, Some(UnknownRule))
    else if !Health.IsMode(mode) then Step(w, Some(BadMode))
    else if !Health.ModeAccepted(w.rules[id].spec, mode) then Step(w, Some(NoBackup))
    else Step(w.(rules := w.rules[id := Routed(w.rules[id], mode)]), None)
  }

  function IndexOf(order: seq<string>, id: string): nat { FirstIndex(order, (x: string) => x == id) }

  function Delete(w: World, id: string): Step {
    if id !in w.rules then Step(w, Some(UnknownRule))
    else
      var i := IndexOf(w.order, id);
      Step(World(w.rules - {id}, if i < |w.order| then RemoveAt(w.order, i) else w.order,
                 Rules.Stop(w.sys, w.rules[id]).sys), None)
  }

  /** Stop the listed rules, one after the other. */
  function StopEach(w: World, ids: seq<string>): World {
    if ids == [] then w
    else
      var before := StopEach(w, ids[..|ids| - 1]);
      var id := ids[|ids| - 1];
      if id in before.rules then With(before, id, Rules.Stop(before.sys, before.rules[id])) else before
  }

  function StopAll(w: World): World { StopEach(w, w.order) }

  /** The rules with these identifiers, in this order, as Manager.List gives them. */
  function Listed(rules: map<string, RuleState>, order: seq<string>): seq<RuleSpec> {
    if order == [] then []
    else
      var id := order[|order| - 1];
      var before := Listed(rules, order[..|order| - 1]);
      if id in rules then before + [rules[id].spec] else before
  }

  function SpecsOf(w: World): seq<RuleSpec> { Listed(w.rules, w.order) }

  /** Add the specifications in turn and stop at the first error. */
  function AddEach(env: Env, w: World, specs: seq<RuleSpec>): Step {
    if specs == [] then Step(w, None)
    else
      var before := AddEach(env, w, specs[..|specs| - 1]);
      if before.error.Some? then before else Add(env, before.world, specs[|specs| - 1])
  }

  /** Add the specifications in turn and collect the errors. */
  function LoadSpecs(env: Env, w: World, specs: seq<RuleSpec>): (World, seq<Failure>) {
    if specs == [] then (w, [])
    else
      var before := LoadSpecs(env, w, specs[..|specs| - 1]);
      var last := Add(env, before.0, specs[|specs| - 1]);
      (last.world, if last.error.Some? then before.1 + [last.error.value] else before.1)
  }

  // ----- whole profiles ---------------------------------------------------------

  datatype Checked = Checked(specs: seq<RuleSpec>, ids: nat, error: Option<Failure>)

  /** What is wrong with s after the specifications accepted so far. */
  function SetError(locals: set<IP>, accepted: seq<RuleSpec>, s: RuleSpec): Option<Failure> {
    if exists d | d in accepted :: d.id == s.id then Some(DuplicateId)
    else if Validate(s, locals).Some? then Some(BadSpec(Validate(s, locals).value))
    else if exists d | d in accepted :: Conflict(d, s) then Some(PortTaken)
    else None
  }

  function Normalize(env: Env, ids: nat, specs: seq<RuleSpec>): Checked {
    if specs == [] then Checked([], ids, None)
    else
      var before := Normalize(env, ids, specs[..|specs| - 1]);
      if before.error.Some? then before
      else
        var last := specs[|specs| - 1];
        var s := Clean(last, env.ids(before.ids));
        var next := if last.id == "" then before.ids + 1 else before.ids;
        var error := SetError(env.locals, before.specs, s);
        if error.Some? then Checked([], next, error) else Checked(before.specs + [s], next, None)
  }

  function Replace(env: Env, w: World, next: seq<RuleSpec>): Step {
    AddEach(env, World(map[], [], StopAll(w).sys), next)
  }

  function ReplaceSpecs(env: Env, w: World, specs: seq<RuleSpec>): Step {
    var checked := Normalize(env, w.sys.ids, specs);
    var drawn := w.(sys := w.sys.(ids := checked.ids));
    if checked.error.Some? then Step(drawn, checked.error)
    else
      var replaced := Replace(env, drawn, checked.specs);
      if replaced.error.None? then replaced
      else
        var restored := Replace(env, replaced.world, SpecsOf(w));
        Step(restored.world,
             Some(if restored.error.None? then Import(replaced.error.value)
                  else ImportAndRollback(replaced.error.value, restored.error.value)))
  }

  // ----- the invariant ----------------------------------------------------------

  /** `order` lists the keys, each once. */
  ghost predicate Lists(order: seq<string>, keys: set<string>) {
    && (forall i, j | 0 <= i < j < |order| :: order[i] != order[j])
    && (forall id :: id in order <==> id in keys)
  }

  predicate NoConflicts(rules: map<string, RuleState>) {
    forall a, b | a in rules && b in rules && a != b :: !Conflict(rules[a].spec, rules[b].spec)
  }

  predicate Owned(rules: map<string, RuleState>, k: nat) {
    exists id | id in rules :: rules[id].socket == Some(k)
  }

  /** The open sockets are exactly one per rule that has one, bound to that rule's address. */
  predicate SocketsOk(rules: map<string, RuleState>, sys: Sys) {
    && Below(sys)
    && (forall id | id in rules :: Holds(sys, rules[id]))
    && (forall a, b | a in rules && b in rules && a != b ::
          rules[a].socket.None? || rules[a].socket != rules[b].socket)
    && (forall k | k in sys.open :: Owned(rules, k))
  }

  ghost predicate RulesOk(locals: set<IP>, rules: map<string, RuleState>) {
    forall id | id in rules :: RuleOk(locals, id, rules[id])
  }

  ghost predicate WorldOk(locals: set<IP>, w: World) {
    && Lists(w.order, w.rules.Keys)
    && RulesOk(locals, w.rules)
    && NoConflicts(w.rules)
    && SocketsOk(w.rules, w.sys)
  }

  lemma SwapSparesOthers(sys: Sys, r: RuleState, t: Running, other: RuleState)
    requires Below(sys) && Swaps(sys, r, t.sys, t.rule)
    requires Holds(sys, other) && (other.socket.None? || other.socket != r.socket)
    ensures Holds(t.sys, other) && (other.socket.None? || other.socket != t.rule.socket)
  {
  }

  lemma SwapOpens(sys: Sys, r: RuleState, t: Running, k: nat)
    requires Swaps(sys, r, t.sys, t.rule) && k in t.sys.open && t.rule.socket != Some(k)
    ensures k in sys.open && r.socket != Some(k)
  {
  }

  lemma SwapKeepsSockets(rules: map<string, RuleState>, sys: Sys, id: string, t: Running)
    requires SocketsOk(rules, sys) && id in rules
    requires Swaps(sys, rules[id], t.sys, t.rule) && Below(t.sys) && Holds(t.sys, t.rule)
    ensures SocketsOk(rules[id := t.rule], t.sys)
  {
    hide Swaps, Holds, Below;
    var after := rules[id := t.rule];
    forall other | other in rules && other != id
      ensures Holds(t.sys, rules[other]) && (rules[other].socket.None? || rules[other].socket != t.rule.socket)
    {
      SwapSparesOthers(sys, rules[id], t, rules[other]);
    }
    forall k | k in t.sys.open ensures Owned(after, k) {
      if t.rule.socket == Some(k) {
        assert after[id].socket == Some(k);
      } else {
        SwapOpens(sys, rules[id], t, k);
        var other :| other in rules && rules[other].socket == Some(k);
        assert after[other].socket == Some(k);
      }
    }
  }

  // ----- one rule changes -----------------------------------------------------

  lemma ConflictIsSymmetric(a: RuleSpec, b: RuleSpec)
    ensures Conflict(a, b) <==> Conflict(b, a)
  {
  }

  /** Only the listener fields of a specification matter for conflicts. */
  predicate SameListener(a: RuleSpec, b: RuleSpec) {
    a.listenHost == b.listenHost && a.listenPort == b.listenPort && a.protocol == b.protocol
  }

  lemma StaysUntaken(rules: map<string, RuleState>, id: string, s: RuleSpec)
    requires NoConflicts(rules) && id in rules && SameListener(rules[id].spec, s)
    ensures !Taken(rules, s, id)
  {
    forall other | other in rules && other != id ensures !Conflict(rules[other].spec, s) {
      assert Conflict(rules[other].spec, s) == Conflict(rules[other].spec, rules[id].spec);
    }
  }

  lemma ChangeKeepsPeace(rules: map<string, RuleState>, id: string, r: RuleState)
    requires NoConflicts(rules) && !Taken(rules, r.spec, id)
    ensures NoConflicts(rules[id := r])
  {
    var after := rules[id := r];
    forall a, b | a in after && b in after && a != b ensures !Conflict(after[a].spec, after[b].spec) {
      ConflictIsSymmetric(after[a].spec, after[b].spec);
      hide Conflict;
    }
  }

  lemma ChangeOk(locals: set<IP>, w: World, id: string, t: Running)
    requires WorldOk(locals, w) && id in w.rules
    requires Swaps(w.sys, w.rules[id], t.sys, t.rule) && Steady(t.sys, t.rule)
    requires RuleOk(locals, id, t.rule) && !Taken(w.rules, t.rule.spec, id)
    ensures WorldOk(locals, With(w, id, t))
  {
    hide RuleOk, NoConflicts, SocketsOk, Swaps, Taken;
    ChangeKeepsPeace(w.rules, id, t.rule);
    SwapKeepsSockets(w.rules, w.sys, id, t);
    assert With(w, id, t).rules.Keys == w.rules.Keys;
  }

  lemma IsSteady(locals: set<IP>, w: World, id: string)
    requires WorldOk(locals, w) && id in w.rules
    ensures Steady(w.sys, w.rules[id]) && RuleOk(locals, id, w.rules[id])
  {
  }

  /** Switched off, or with another socket, a rule is still well-formed. */
  lemma SwitchedOk(locals: set<IP>, id: string, r: RuleState, t: RuleState)
    requires RuleOk(locals, id, r)
    requires || (t == r.(socket := t.socket, running := t.running) && (t.running ==> r.spec.enabled))
             || t == r.(spec := r.spec.(enabled := false), running := false, socket := None)
    requires t.running <==> t.socket.Some?
    ensures RuleOk(locals, id, t)
  {
    NormalUnderSwitches(r.spec, locals, false, r.spec.routingMode);
  }

  // ----- every operation keeps the invariant --------------------------------------

  lemma ConfiguredOk(locals: set<IP>, id: string, r: RuleState, s: RuleSpec, t: RuleState)
    requires RuleOk(locals, id, r) && s.id == id && ApplyDefaults(s) == s && Validate(s, locals).None?
    requires Store.ResizeAccepted(r.rec, s.dump.maxConns, s.dump.maxBytesPer)
    requires t == Configured(r, s).(running := s.enabled, socket := t.socket)
    requires t.running <==> t.socket.Some?
    ensures RuleOk(locals, id, t)
  {
    Store.ResizeOk(r.rec, s.dump.maxConns, s.dump.maxBytesPer);
    hide Store.StoreOk, Validate, ApplyDefaults, Rerouted;
  }

  lemma ReconfigureOk(env: Env, w: World, id: string, s: RuleSpec)
    requires WorldOk(env.locals, w) && id in w.rules
    requires s.id == id && ApplyDefaults(s) == s && Validate(s, env.locals).None? && !Taken(w.rules, s, id)
    ensures WorldOk(env.locals, With(w, id, Reconfigure(env, w.sys, w.rules[id], s)))
  {
    hide Prepare, Reconfigure, Taken, Validate, ApplyDefaults, Configured, Swaps, NoConflicts, SocketsOk, Normal;
    var r := w.rules[id];
    IsSteady(env.locals, w, id);
    StaysUntaken(w.rules, id, r.spec.(enabled := false));
    StaysUntaken(w.rules, id, r.spec);
    var t := Reconfigure(env, w.sys, r, s);
    if Obstacle(Prepare(env, w.sys, r, s), r, s).Some? {
      RefusedUpdateChangesNothing(env, w.sys, r, s);
      SwitchedOk(env.locals, id, r, t.rule);
    } else {
      UpdateConfigures(env, w.sys, r, s);
      ConfiguredSpec(r, s);
      ConfiguredOk(env.locals, id, r, s, t.rule);
    }
    ChangeOk(env.locals, w, id, t);
  }

  lemma ConfiguredSpec(r: RuleState, s: RuleSpec)
    ensures Configured(r, s).spec == s
  {
  }

  lemma CleanIs(s: RuleSpec, id: string)
    requires id != ""
    ensures ApplyDefaults(Clean(s, id)) == Clean(s, id) && Clean(s, id).id != ""
    ensures ApplyDefaults(s.(id := id)).id == id
    ensures ApplyDefaults(ApplyDefaults(s.(id := id))) == ApplyDefaults(s.(id := id))
  {
    DefaultsAreIdempotent(s);
    DefaultsAreIdempotent(s.(id := id));
    hide ApplyDefaults;
  }

  lemma KeyIsNotEmpty(locals: set<IP>, w: World, id: string)
    requires WorldOk(locals, w) && id in w.rules
    ensures id != ""
  {
  }

  lemma UpdateOk(env: Env, w: World, id: string, spec: RuleSpec)
    requires WorldOk(env.locals, w)
    ensures WorldOk(env.locals, Update(env, w, id, spec).world)
  {
    hide WorldOk, Reconfigure, UpdateError, Taken, Validate, ApplyDefaults;
    var s := ApplyDefaults(spec.(id := id));
    if id in w.rules && Validate(s, env.locals).None? && !Taken(w.rules, s, id) {
      KeyIsNotEmpty(env.locals, w, id);
      CleanIs(spec, id);
      ReconfigureOk(env, w, id, s);
    }
  }

  lemma NewRuleOk(locals: set<IP>, s: RuleSpec)
    requires Normal(s, locals)
    ensures RuleOk(locals, s.id, NewRule(s))
  {
    hide Validate;
    assert s.dump.maxConns > 0 && s.dump.maxBytesPer > 0;
    hide Normal;
  }

  /** A rule that has no socket yet is added. */
  lemma InsertIdle(locals: set<IP>, w: World, s: RuleSpec)
    requires WorldOk(locals, w) && Normal(s, locals) && s.id !in w.rules && !Taken(w.rules, s, "")
    ensures WorldOk(locals, World(w.rules[s.id := NewRule(s)], w.order + [s.id], w.sys))
  {
    NewRuleOk(locals, s);
    InsertPeace(locals, w.rules, s);
    InsertSockets(w.rules, s, w.sys);
    hide RuleOk, NoConflicts, SocketsOk, Taken, Normal;
  }

  lemma InsertPeace(locals: set<IP>, rules: map<string, RuleState>, s: RuleSpec)
    requires RulesOk(locals, rules) && NoConflicts(rules) && s.id !in rules && !Taken(rules, s, "")
    ensures NoConflicts(rules[s.id := NewRule(s)])
  {
    hide Conflict, Validate, ApplyDefaults, RecOk;
    var after := rules[s.id := NewRule(s)];
    assert after[s.id].spec == s;
    forall a, b | a in after && b in after && a != b ensures !Conflict(after[a].spec, after[b].spec) {
      ConflictIsSymmetric(after[a].spec, after[b].spec);
      assert a in rules ==> RuleOk(locals, a, rules[a]);
      assert b in rules ==> RuleOk(locals, b, rules[b]);
    }
  }

  lemma InsertSockets(rules: map<string, RuleState>, s: RuleSpec, sys: Sys)
    requires SocketsOk(rules, sys) && s.id !in rules
    ensures SocketsOk(rules[s.id := NewRule(s)], sys)
  {
    var after := rules[s.id := NewRule(s)];
    assert after[s.id].socket == None;
    forall k | k in sys.open ensures Owned(after, k) {
      var other :| other in rules && rules[other].socket == Some(k);
      assert after[other].socket == Some(k);
    }
  }

  lemma StartedOk(env: Env, w: World, id: string)
    requires WorldOk(env.locals, w) && id in w.rules && w.rules[id].spec.enabled
    ensures WorldOk(env.locals, With(w, id, StartOrDisable(env, w.sys, w.rules[id])))
  {
    var r := w.rules[id];
    IsSteady(env.locals, w, id);
    StartSwaps(env, w.sys, r);
    StaysUntaken(w.rules, id, r.spec.(enabled := false));
    StaysUntaken(w.rules, id, r.spec);
    hide WorldOk, RuleOk, Taken, Swaps, Start, BindingOf;
    var t := StartOrDisable(env, w.sys, r);
    SwitchedOk(env.locals, id, r, t.rule);
    ChangeOk(env.locals, w, id, t);
  }

  lemma InstallOk(env: Env, w: World, s: RuleSpec)
    requires WorldOk(env.locals, w) && Normal(s, env.locals) && s.id !in w.rules && !Taken(w.rules, s, "")
    ensures WorldOk(env.locals, Install(env, w, s).world)
  {
    hide WorldOk, Normal, Taken, StartOrDisable, NewRule;
    InsertIdle(env.locals, w, s);
    var idle := World(w.rules[s.id := NewRule(s)], w.order + [s.id], w.sys);
    if s.enabled {
      NewRuleSpec(s);
      StartedOk(env, idle, s.id);
      var t := StartOrDisable(env, w.sys, NewRule(s));
      assert idle.rules[s.id := t.rule] == w.rules[s.id := t.rule];
    }
  }

  lemma NewRuleSpec(s: RuleSpec)
    ensures NewRule(s).spec == s && !NewRule(s).running
  {
  }

  /** A generated identifier moves only the counter of identifiers. */
  lemma DrawOk(locals: set<IP>, w: World, ids: nat)
    requires WorldOk(locals, w)
    ensures WorldOk(locals, w.(sys := w.sys.(ids := ids)))
  {
    hide RulesOk, NoConflicts;
  }

  lemma AddOk(env: Env, w: World, spec: RuleSpec)
    requires WorldOk(env.locals, w)
    ensures WorldOk(env.locals, Add(env, w, spec).world)
  {
    hide WorldOk, Install, Validate, ApplyDefaults, Clean, Taken;
    var s := Clean(spec, env.ids(w.sys.ids));
    DrawOk(env.locals, w, w.sys.ids);
    DrawOk(env.locals, w, w.sys.ids + 1);
    CleanIs(spec, env.ids(w.sys.ids));
    if AddError(env, w.rules, s).None? {
      InstallOk(env, w.(sys := DrawId(w.sys, spec)), s);
    }
  }

  lemma StoppedOk(locals: set<IP>, w: World, id: string)
    requires WorldOk(locals, w) && id in w.rules
    ensures WorldOk(locals, With(w, id, Rules.Stop(w.sys, w.rules[id])))
  {
    var r := w.rules[id];
    IsSteady(locals, w, id);
    StopSwaps(w.sys, r);
    StaysUntaken(w.rules, id, r.spec);
    hide WorldOk, RuleOk, Taken, Swaps, Rules.Stop, BindingOf;
    var t := Rules.Stop(w.sys, r);
    SwitchedOk(locals, id, r, t.rule);
    ChangeOk(locals, w, id, t);
  }

  lemma {:induction false} RemovedLists(order: seq<string>, keys: set<string>, id: string)
    requires Lists(order, keys) && id in keys
    ensures IndexOf(order, id) < |order|
    ensures Lists(RemoveAt(order, IndexOf(order, id)), keys - {id})
  {
    var i := IndexOf(order, id);
    var rest := RemoveAt(order, i);
    forall x ensures x in rest <==> x in keys - {id} {
      if x in order && x != id {
        var k :| 0 <= k < |order| && order[k] == x;
        assert rest[if k < i then k else k - 1] == x;
      }
    }
  }

  lemma RemoveIdle(locals: set<IP>, w: World, id: string, order: seq<string>)
    requires WorldOk(locals, w) && id in w.rules && w.rules[id].socket.None?
    requires Lists(order, w.rules.Keys - {id})
    ensures WorldOk(locals, World(w.rules - {id}, order, w.sys))
  {
    hide RuleOk, Conflict, Holds, Below, Lists;
    var after := w.rules - {id};
    assert after.Keys == w.rules.Keys - {id};
    forall k | k in w.sys.open ensures Owned(after, k) {
      var other :| other in w.rules && w.rules[other].socket == Some(k);
      assert after[other].socket == Some(k);
    }
  }

  lemma StoppedIdle(locals: set<IP>, w: World, id: string)
    requires WorldOk(locals, w) && id in w.rules
    ensures Rules.Stop(w.sys, w.rules[id]).rule.socket.None?
    ensures Lists(w.order, w.rules.Keys)
  {
    IsSteady(locals, w, id);
  }

  lemma DeleteOk(locals: set<IP>, w: World, id: string)
    requires WorldOk(locals, w)
    ensures WorldOk(locals, Delete(w, id).world)
  {
    hide WorldOk, Rules.Stop, Lists, IndexOf, RemoveAt;
    if id in w.rules {
      StoppedOk(locals, w, id);
      StoppedIdle(locals, w, id);
      RemovedLists(w.order, w.rules.Keys, id);
      var stopped := With(w, id, Rules.Stop(w.sys, w.rules[id]));
      assert stopped.rules.Keys == w.rules.Keys;
      RemoveIdle(locals, stopped, id, RemoveAt(w.order, IndexOf(w.order, id)));
      assert stopped.rules - {id} == w.rules - {id};
    }
  }

  lemma ModeOk(locals: set<IP>, w: World, id: string, mode: string)
    requires WorldOk(locals, w)
    ensures WorldOk(locals, SetRoutingMode(w, id, mode).world)
  {
    if id in w.rules && Health.ModeAccepted(w.rules[id].spec, mode) {
      var r := w.rules[id];
      IsSteady(locals, w, id);
      StaysUntaken(w.rules, id, r.spec.(routingMode := mode));
      RoutedOk(locals, id, r, mode);
      RoutedSteady(w.sys, r, mode);
      hide WorldOk, RuleOk, Taken, Swaps, Steady, Routed;
      RoutedSpec(r, mode);
      ChangeOk(locals, w, id, Running(w.sys, Routed(r, mode)));
    }
  }

  lemma RoutedSpec(r: RuleState, mode: string)
    ensures Routed(r, mode).spec == r.spec.(routingMode := mode)
  {
  }

  lemma RoutedOk(locals: set<IP>, id: string, r: RuleState, mode: string)
    requires RuleOk(locals, id, r) && Health.ModeAccepted(r.spec, mode)
    ensures RuleOk(locals, id, Routed(r, mode))
  {
    NormalUnderSwitches(r.spec, locals, r.spec.enabled, mode);
    hide Normal, Health.DecideFailover;
  }

  lemma RoutedSteady(sys: Sys, r: RuleState, mode: string)
    requires Steady(sys, r)
    ensures Steady(sys, Routed(r, mode)) && Swaps(sys, r, sys, Routed(r, mode))
  {
    hide Health.DecideFailover;
  }

  function Stopped(r: RuleState): RuleState { r.(running := false, socket := None) }

  /** Stopping the listed rules closes their sockets and changes nothing else. */
  lemma {:induction false} StopEachStops(locals: set<IP>, w: World, ids: seq<string>)
    requires WorldOk(locals, w)
    ensures var v := StopEach(w, ids);
            && WorldOk(locals, v) && v.order == w.order && v.rules.Keys == w.rules.Keys
            && v.sys.ids == w.sys.ids && v.sys.binds == w.sys.binds
            && forall id | id in w.rules :: v.rules[id] == if id in ids then Stopped(w.rules[id]) else w.rules[id]
  {
    hide WorldOk, Rules.Stop;
    if ids == [] {
    } else {
      var n := |ids| - 1;
      var before := StopEach(w, ids[..n]);
      StopEachStops(locals, w, ids[..n]);
      assert ids == ids[..n] + [ids[n]];
      if ids[n] in before.rules {
        StoppedOk(locals, before, ids[n]);
        StopStops(locals, before, ids[n]);
      }
    }
  }

  lemma StopStops(locals: set<IP>, w: World, id: string)
    requires WorldOk(locals, w) && id in w.rules
    ensures var t := Rules.Stop(w.sys, w.rules[id]);
            t.rule == Stopped(w.rules[id]) && t.sys.ids == w.sys.ids && t.sys.binds == w.sys.binds
  {
    IsSteady(locals, w, id);
  }

  /** After StopAll no socket is open; nothing but the listeners has changed. */
  lemma StopAllStops(locals: set<IP>, w: World)
    requires WorldOk(locals, w)
    ensures var v := StopAll(w);
            && WorldOk(locals, v) && v.order == w.order && v.rules.Keys == w.rules.Keys
            && v.sys == w.sys.(open := map[])
            && forall id | id in w.rules :: v.rules[id] == Stopped(w.rules[id])
  {
    hide StopEach, RulesOk, NoConflicts, Holds, Below;
    StopEachStops(locals, w, w.order);
    var v := StopAll(w);
    assert forall k | k in v.sys.open :: Owned(v.rules, k);
    assert forall k: nat :: !Owned(v.rules, k);
    assert v.sys.open.Keys == {};
  }

  lemma EmptyOk(locals: set<IP>, sys: Sys)
    requires sys.open == map[]
    ensures WorldOk(locals, World(map[], [], sys))
  {
  }

  lemma {:induction false} AddEachOk(env: Env, w: World, specs: seq<RuleSpec>)
    requires WorldOk(env.locals, w)
    ensures WorldOk(env.locals, AddEach(env, w, specs).world)
  {
    hide WorldOk, Add;
    if specs == [] {
    } else {
      AddEachOk(env, w, specs[..|specs| - 1]);
      AddOk(env, AddEach(env, w, specs[..|specs| - 1]).world, specs[|specs| - 1]);
    }
  }

  lemma {:induction false} LoadSpecsOk(env: Env, w: World, specs: seq<RuleSpec>)
    requires WorldOk(env.locals, w)
    ensures WorldOk(env.locals, LoadSpecs(env, w, specs).0)
  {
    hide WorldOk, Add;
    if specs == [] {
    } else {
      LoadSpecsOk(env, w, specs[..|specs| - 1]);
      AddOk(env, LoadSpecs(env, w, specs[..|specs| - 1]).0, specs[|specs| - 1]);
    }
  }

  lemma ReplaceOk(env: Env, w: World, next: seq<RuleSpec>)
    requires WorldOk(env.locals, w)
    ensures WorldOk(env.locals, Replace(env, w, next).world)
  {
    hide WorldOk, AddEach, StopAll;
    StopAllStops(env.locals, w);
    EmptyOk(env.locals, StopAll(w).sys);
    AddEachOk(env, World(map[], [], StopAll(w).sys), next);
  }

  lemma ReplaceSpecsOk(env: Env, w: World, specs: seq<RuleSpec>)
    requires WorldOk(env.locals, w)
    ensures WorldOk(env.locals, ReplaceSpecs(env, w, specs).world)
  {
    hide WorldOk, Replace, Normalize, SpecsOf;
    var checked := Normalize(env, w.sys.ids, specs);
    DrawOk(env.locals, w, checked.ids);
    var drawn := w.(sys := w.sys.(ids := checked.ids));
    ReplaceOk(env, drawn, checked.specs);
    ReplaceOk(env, Replace(env, drawn, checked.specs).world, SpecsOf(w));
  }
}
