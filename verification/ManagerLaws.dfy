/** When each operation of the rule manager succeeds and what it does, said of the rules, the order
    and the sockets. */
module ManagerLaws {
  import opened Streams
  import opened Specs
  import opened Rules
  import opened Managers
  import Transactions
  import ManagerRuns
  import Health
  import Store
  import StoreLaws

  // ----- update -----------------------------------------------------------------------

  /** The rule is running where s would have it. */
  predicate AlreadyThere(r: RuleState, s: RuleSpec) {
    && r.running && r.spec.listenHost.text == s.listenHost.text
    && r.spec.listenPort == s.listenPort && r.spec.protocol == s.protocol
  }

  /** The system grants the address: at once, or after the rule has given up its own listener, which
      is tried when that has the same port and protocol. */
  predicate Granted(env: Env, sys: Sys, r: RuleState, s: RuleSpec) {
    || !env.refuses(sys.binds)
    || (r.running && r.spec.listenPort == s.listenPort && r.spec.protocol == s.protocol && !env.refuses(sys.binds + 1))
  }

  /** No other rule has the address. */
  ghost predicate AddressFree(rules: map<string, RuleState>, s: RuleSpec, except: string) {
    forall id | id in rules && id != except :: !Conflict(rules[id].spec, s)
  }

  lemma ObstacleIs(env: Env, sys: Sys, r: RuleState, s: RuleSpec)
    requires s.dump.maxConns > 0 && s.dump.maxBytesPer > 0
    ensures Obstacle(Prepare(env, sys, r, s), r, s) == None <==>
      && (s.enabled && !AlreadyThere(r, s) ==> Granted(env, sys, r, s))
      && StoreLaws.Pins(r.rec.dumps) <= s.dump.maxConns
  {
    StoreLaws.PinsBound(r.rec.dumps);
  }

  lemma DefaultsArePositive(s: RuleSpec)
    ensures ApplyDefaults(s).dump.maxConns > 0 && ApplyDefaults(s).dump.maxBytesPer > 0
  {
  }

  lemma TakenIs(rules: map<string, RuleState>, s: RuleSpec, exclude: string)
    ensures Taken(rules, s, exclude) <==> !AddressFree(rules, s, exclude)
  {
    hide Conflict;
  }

  /** Update succeeds exactly for a known rule, valid settings, an address that no other rule has, a
      limit that the pinned captures fit, and a listener that is there or granted. */
  lemma UpdateSucceedsExactly(env: Env, w: World, id: string, spec: RuleSpec)
    ensures var s := ApplyDefaults(spec.(id := id));
            Update(env, w, id, spec).error == None <==>
              && id in w.rules
              && Validate(s, env.locals) == None
              && AddressFree(w.rules, s, id)
              && StoreLaws.Pins(w.rules[id].rec.dumps) <= s.dump.maxConns
              && (s.enabled && !AlreadyThere(w.rules[id], s) ==> Granted(env, w.sys, w.rules[id], s))
  {
    hide Validate, ApplyDefaults, Taken, Obstacle, Prepare, Reconfigure, AlreadyThere, Granted, AddressFree, StoreLaws.Pins;
    var s := ApplyDefaults(spec.(id := id));
    DefaultsArePositive(spec.(id := id));
    TakenIs(w.rules, s, id);
    if id in w.rules { ObstacleIs(env, w.sys, w.rules[id], s); }
  }

  /** A rule that stays where it is keeps its listener, and no bind is tried. */
  lemma UpdateKeepsTheListener(env: Env, w: World, id: string, spec: RuleSpec)
    requires WorldOk(env.locals, w) && id in w.rules
    requires spec.enabled ==> AlreadyThere(w.rules[id], ApplyDefaults(spec.(id := id)))
    ensures var t := Update(env, w, id, spec);
            && t.world.sys.binds == w.sys.binds
            && (t.error.None? && spec.enabled ==>
                  t.world.rules[id].socket == w.rules[id].socket && t.world.sys == w.sys)
  {
    hide WorldOk, Validate, Taken, Rerouted, ParseAcl, Store.Resize, Store.ResizeAccepted, HealthDefaults, Positive, NonEmpty;
  }

  // ----- switches -----------------------------------------------------------------------

  lemma StoredIsNormal(locals: set<IP>, w: World, id: string)
    requires WorldOk(locals, w) && id in w.rules
    ensures Normal(w.rules[id].spec, locals) && w.rules[id].spec.id == id
    ensures StoreLaws.Pins(w.rules[id].rec.dumps) <= w.rules[id].spec.dump.maxConns
    ensures Store.StoreOk(w.rules[id].rec) && w.rules[id].acl == ParseAcl(w.rules[id].spec.allow)
    ensures w.rules[id].rec.maxConns == w.rules[id].spec.dump.maxConns
    ensures w.rules[id].rec.maxBytesPer == w.rules[id].spec.dump.maxBytesPer
    ensures w.rules[id].running ==> w.rules[id].spec.enabled
    ensures w.rules[id].running <==> w.rules[id].socket.Some?
  {
    IsSteady(locals, w, id);
    StoreLaws.PinsBound(w.rules[id].rec.dumps);
    hide Normal;
  }

  lemma SwitchedIsNormal(locals: set<IP>, w: World, id: string, enabled: bool)
    requires WorldOk(locals, w) && id in w.rules
    ensures var s := w.rules[id].spec.(enabled := enabled);
            ApplyDefaults(s.(id := id)) == s && Validate(s, locals) == None && AddressFree(w.rules, s, id)
  {
    hide WorldOk;
    StoredIsNormal(locals, w, id);
    var s := w.rules[id].spec.(enabled := enabled);
    NormalUnderSwitches(w.rules[id].spec, locals, enabled, w.rules[id].spec.routingMode);
    KeepsAddress(locals, w, id, s);
    hide Validate, AddressFree, ApplyDefaults;
    assert s.(id := id) == s;
  }

  lemma KeepsAddress(locals: set<IP>, w: World, id: string, s: RuleSpec)
    requires WorldOk(locals, w) && id in w.rules && SameListener(w.rules[id].spec, s)
    ensures AddressFree(w.rules, s, id)
  {
    StaysUntaken(w.rules, id, s);
    TakenIs(w.rules, s, id);
    hide AddressFree, Taken;
  }

  /** Switching a rule on fails exactly when it is unknown, or is not running and the system refuses its
      address; it is then left as it was. Otherwise it runs exactly when enabled, with its other
      settings, its captures, its probes and its allow list as they were. */
  lemma SetEnabledTakesEffect(env: Env, w: World, id: string, enabled: bool)
    requires WorldOk(env.locals, w)
    ensures var t := SetEnabled(env, w, id, enabled);
            && (t.error == None <==> id in w.rules && (enabled && !w.rules[id].running ==> !env.refuses(w.sys.binds)))
            && (id !in w.rules ==> t.world == w)
            && (id in w.rules ==>
                  && Transactions.OnlyRule(w, t.world, id)
                  && (t.error.Some? ==> t.world.rules[id] == w.rules[id])
                  && (t.error.None? ==>
                        var was, r := w.rules[id], t.world.rules[id];
                        && r.spec == was.spec.(enabled := enabled) && r.running == enabled && r.acl == was.acl
                        && r.rec == was.rec
                        && r.route.target == was.route.target && r.route.backup == was.route.backup
                        && Health.Settled(was.spec, was.route.usingBackup, r.route)))
  {
    hide WorldOk, Update, Validate, ApplyDefaults, AddressFree, StoreLaws.Pins, Normal, StoreLaws.KeepsNewest, Health.Settled;
    if id in w.rules {
      var was := w.rules[id];
      var s := was.spec.(enabled := enabled);
      StoredIsNormal(env.locals, w, id);
      SwitchedIsNormal(env.locals, w, id, enabled);
      UpdateSucceedsExactly(env, w, id, s);
      Transactions.UpdateIsAllOrNothing(env, w, id, s);
      UpdateOk(env, w, id, s);
      StoredIsNormal(env.locals, Update(env, w, id, s).world, id);
      if Update(env, w, id, s).error.None? { SameLimits(was.rec, Update(env, w, id, s).world.rules[id].rec, s.dump.maxConns, s.dump.maxBytesPer); }
      SameSettled(was.spec, enabled, was.route.usingBackup, Update(env, w, id, s).world.rules[id].route);
    }
  }

  lemma SameSettled(s: RuleSpec, enabled: bool, before: bool, r: Health.Route)
    ensures Health.Settled(s.(enabled := enabled), before, r) == Health.Settled(s, before, r)
  {
  }

  lemma SameLimits(was: Store.State, after: Store.State, maxConns: int, maxBytesPer: nat)
    requires was.maxConns == maxConns && was.maxBytesPer == maxBytesPer && StoreLaws.KeepsNewest(was, after, maxConns, maxBytesPer)
    ensures after == was
  {
  }

  /** A change of routing mode is refused exactly for an unknown rule, an unknown mode, and a backup
      that is not set; it changes the mode and decides the route anew, and nothing else. */
  lemma SetRoutingModeTakesEffect(w: World, id: string, mode: string)
    ensures var t := SetRoutingMode(w, id, mode);
            && (t.error == None <==>
                  && id in w.rules && mode in {"auto", "primary", "backup"}
                  && (mode == "backup" ==>
                        var backup := w.rules[id].spec.backup;
                        backup.Some? && backup.value.host.text != "" && backup.value.port != 0))
            && (t.error.Some? ==> t.world == w)
            && (t.error.None? ==>
                  var was := w.rules[id];
                  var r := was.(spec := was.spec.(routingMode := mode), route := t.world.rules[id].route);
                  && t.world == w.(rules := w.rules[id := r])
                  && r.route.target == was.route.target && r.route.backup == was.route.backup
                  && Health.Settled(r.spec, was.route.usingBackup, r.route))
  {
    hide Health.Settled, Health.DecideFailover;
    if id in w.rules { Health.DecisionSettles(w.rules[id].spec.(routingMode := mode), w.rules[id].route); }
  }

  // ----- add and delete --------------------------------------------------------------------

  /** The settings under which a new rule is stored. */
  function Stored(env: Env, w: World, spec: RuleSpec): RuleSpec {
    ApplyDefaults(if spec.id == "" then spec.(id := env.ids(w.sys.ids)) else spec)
  }

  /** The rule may be added: its settings are valid, and its name and its address are free. */
  ghost predicate Addable(env: Env, w: World, s: RuleSpec) {
    Validate(s, env.locals) == None && s.id !in w.rules && AddressFree(w.rules, s, "")
  }

  /** A rule that has just been made: no captures, both addresses taken to be up. */
  predicate IsNew(r: RuleState, s: RuleSpec, runs: bool) {
    && r.spec == s.(enabled := runs) && r.running == runs && (r.running <==> r.socket.Some?)
    && r.acl == ParseAcl(s.allow)
    && r.rec == Store.State(s.dump.maxConns, s.dump.maxBytesPer, 0, [])
    && r.route == Health.Route(Health.Probe(true, 0, 0), Health.Probe(true, 0, 0), s.routingMode == "backup")
  }

  lemma NewRuleIsNew(env: Env, sys: Sys, s: RuleSpec)
    requires s.dump.maxConns > 0 && s.dump.maxBytesPer > 0
    ensures IsNew(NewRule(s), s.(enabled := false), false) || s.enabled
    ensures s.enabled ==> IsNew(StartOrDisable(env, sys, NewRule(s)).rule, s, !env.refuses(sys.binds))
    ensures !s.enabled ==> IsNew(NewRule(s), s, false)
  {
    hide ParseAcl;
  }

  /** A rule that may be added is added at the end, runs if it is enabled and its address is granted,
      and is switched off and reported otherwise; a rule that may not is refused without effect. */
  lemma AddTakesEffect(env: Env, w: World, spec: RuleSpec)
    ensures var s, t := Stored(env, w, spec), Add(env, w, spec);
            var granted := !env.refuses(w.sys.binds);
            && (t.error == None <==> Addable(env, w, s) && (s.enabled ==> granted))
            && (!Addable(env, w, s) ==> t.world == w.(sys := w.sys.(ids := t.world.sys.ids)))
            && (Addable(env, w, s) ==>
                  && t.world.order == w.order + [s.id]
                  && t.world.rules.Keys == w.rules.Keys + {s.id}
                  && (forall id | id in w.rules :: t.world.rules[id] == w.rules[id])
                  && IsNew(t.world.rules[s.id], s, s.enabled && granted))
  {
    hide Validate, ApplyDefaults, Taken, AddressFree, NewRule, StartOrDisable, IsNew;
    var s := Stored(env, w, spec);
    DefaultsArePositive(if spec.id == "" then spec.(id := env.ids(w.sys.ids)) else spec);
    TakenIs(w.rules, s, "");
    NewRuleIsNew(env, DrawId(w.sys, spec), s);
    NewRuns(env, DrawId(w.sys, spec), s);
  }

  lemma NewRuns(env: Env, sys: Sys, s: RuleSpec)
    ensures s.enabled ==> StartOrDisable(env, sys, NewRule(s)).rule.running == !env.refuses(sys.binds)
  {
  }

  /** The order without this one entry. */
  predicate IsWithout(order: seq<string>, after: seq<string>, id: string) {
    exists i | 0 <= i < |order| :: order[i] == id && after == order[..i] + order[i + 1..]
  }

  lemma IsListed(locals: set<IP>, w: World, id: string)
    requires WorldOk(locals, w) && id in w.rules
    ensures IndexOf(w.order, id) < |w.order| && IsWithout(w.order, RemoveAt(w.order, IndexOf(w.order, id)), id)
  {
    RemovedLists(w.order, w.rules.Keys, id);
    hide RulesOk, NoConflicts, SocketsOk;
    assert w.order[IndexOf(w.order, id)] == id;
  }

  /** The deleted rule is gone and its listener is closed; the others stay, in their order. */
  lemma DeleteTakesEffect(locals: set<IP>, w: World, id: string)
    requires WorldOk(locals, w)
    ensures var t := Delete(w, id);
            && (t.error == None <==> id in w.rules)
            && (id !in w.rules ==> t.world == w)
            && (id in w.rules ==>
                  && t.world.rules == w.rules - {id}
                  && IsWithout(w.order, t.world.order, id)
                  && t.world.sys.open ==
                       (if w.rules[id].running then w.sys.open - {w.rules[id].socket.value} else w.sys.open))
  {
    hide WorldOk, Normal, Store.StoreOk, RemoveAt, IndexOf, IsWithout, BindingOf;
    if id in w.rules {
      StoredIsNormal(locals, w, id);
      IsListed(locals, w, id);
    }
  }

  // ----- loading ---------------------------------------------------------------------------

  /** Loading changes no rule that is there already, appends at most one rule for each specification,
      and reports an error for every one that it does not append; without refused binds for no other. */
  lemma {:induction false} LoadingAccountsForAll(env: Env, w: World, specs: seq<RuleSpec>)
    ensures var (v, errors) := LoadSpecs(env, w, specs);
            && w.order <= v.order && |v.order| - |w.order| <= |specs| <= |v.order| - |w.order| + |errors|
            && |errors| <= |specs|
            && (forall id | id in w.rules :: id in v.rules && v.rules[id] == w.rules[id])
            && ((forall n :: !env.refuses(n)) ==> |v.order| - |w.order| + |errors| == |specs|)
  {
    hide Add;
    if specs == [] {
    } else {
      LoadingAccountsForAll(env, w, specs[..|specs| - 1]);
      AddAccounts(env, LoadSpecs(env, w, specs[..|specs| - 1]).0, specs[|specs| - 1]);
    }
  }

  lemma AddAccounts(env: Env, w: World, spec: RuleSpec)
    ensures var t := Add(env, w, spec);
            && (t.world.order == w.order || exists id :: t.world.order == w.order + [id])
            && (t.world.order == w.order ==> t.error.Some?)
            && (t.world.order != w.order && t.error.Some? ==> exists n :: env.refuses(n))
            && (forall id | id in w.rules :: id in t.world.rules && t.world.rules[id] == w.rules[id])
  {
    AddTakesEffect(env, w, spec);
    hide Add, Stored, Addable, IsNew;
    assert |w.order + [Stored(env, w, spec).id]| > |w.order|;
  }

  // ----- addresses ------------------------------------------------------------------------

  /** In every reachable state, whatever arrives at a port, is for the listener of at most one rule. */
  lemma NothingIsForTwoRules(env: Env, ops: seq<ManagerRuns.Op>, a: string, b: string, x: IP)
    requires var rules := ManagerRuns.Run(env, ops).rules; a in rules && b in rules && a != b
    ensures var s, t := ManagerRuns.Run(env, ops).rules[a].spec, ManagerRuns.Run(env, ops).rules[b].spec;
            s.listenPort == t.listenPort && s.protocol == t.protocol ==> !(Hears(s.listenHost, x) && Hears(t.listenHost, x))
  {
    hide ManagerRuns.Run, Normal;
    ManagerRuns.StoredRulesAreValid(env, ops);
    hide Validate;
  }
}
