/** The manager of internal/proxy/manager.go in its own form: a map of rule objects and the
    order of their identifiers, updated in place. Each method is proved equal to the operation
    on values that the theorems are about. */
module ManagerObject {
  import opened Streams
  import opened Specs
  import opened Rules
  import opened RuleObjects
  import opened Managers
  import Health

  function Objects(rules: map<string, Rule>): set<Rule> {
    set id | id in rules :: rules[id]
  }

  function Values(rules: map<string, Rule>): map<string, RuleState>
    reads Objects(rules)
  {
    map id | id in rules :: rules[id].Value()
  }

  /** Different identifiers belong to different objects. */
  predicate Separate(rules: map<string, Rule>) {
    forall a, b | a in rules && b in rules && a != b :: rules[a] != rules[b]
  }

  lemma ChangedOne(rules: map<string, Rule>, was: map<string, RuleState>, id: string)
    requires id in rules && (was.Keys == rules.Keys || was.Keys + {id} == rules.Keys)
    requires forall other | other in rules && other != id :: other in was && rules[other].Value() == was[other]
    ensures Values(rules) == was[id := rules[id].Value()]
  {
  }

  lemma AddedOne(rules: map<string, Rule>, id: string, rule: Rule)
    requires Separate(rules) && rule !in Objects(rules)
    ensures Separate(rules[id := rule]) && Objects(rules[id := rule]) <= Objects(rules) + {rule}
    ensures Values(rules[id := rule]) == Values(rules)[id := rule.Value()]
  {
    assert forall other | other in rules :: rules[other] in Objects(rules);
  }

  lemma OtherObjects(rules: map<string, Rule>, id: string)
    requires Separate(rules) && id in rules
    ensures forall other | other in rules && other != id :: rules[other] != rules[id]
  {
  }

  lemma RemovedOne(rules: map<string, Rule>, id: string, was: map<string, RuleState>)
    requires Separate(rules) && id in rules && was.Keys == rules.Keys
    requires forall other | other in rules && other != id :: rules[other].Value() == was[other]
    ensures Separate(rules - {id}) && Values(rules - {id}) == was - {id}
  {
  }

  lemma IndexOfIs(order: seq<string>, id: string, i: nat)
    requires i <= |order| && (i < |order| ==> order[i] == id)
    requires forall j | 0 <= j < i :: order[j] != id
    ensures IndexOf(order, id) == i
  {
  }

  /** The order without the first occurrence of id. */
  method Without(order: seq<string>, id: string) returns (rest: seq<string>)
    ensures rest == if IndexOf(order, id) < |order| then RemoveAt(order, IndexOf(order, id)) else order
  {
    var i := 0;
    while i < |order| && order[i] != id
      invariant i <= |order|
      invariant forall j | 0 <= j < i :: order[j] != id
    {
      i := i + 1;
    }
    IndexOfIs(order, id, i);
    rest := if i < |order| then order[..i] + order[i + 1..] else order;
  }

  /** The world once the first k rules of the order are stopped. */
  function StoppedFirst(w: World, k: nat): World
    requires k <= |w.order|
  {
    StopEach(w, w.order[..k])
  }

  lemma StoppedNext(locals: set<IP>, w: World, k: nat)
    requires k < |w.order| && WorldOk(locals, w)
    ensures WorldOk(locals, StoppedFirst(w, k))
    ensures var v, id := StoppedFirst(w, k), w.order[k];
            StoppedFirst(w, k + 1) == if id in v.rules then With(v, id, Rules.Stop(v.sys, v.rules[id])) else v
  {
    hide WorldOk, Rules.Stop;
    StopEachStops(locals, w, w.order[..k]);
    assert w.order[..k + 1][..k] == w.order[..k];
  }

  lemma StoppedEnds(locals: set<IP>, w: World)
    requires WorldOk(locals, w)
    ensures StoppedFirst(w, 0) == w && StoppedFirst(w, |w.order|) == StopAll(w)
    ensures WorldOk(locals, StopAll(w))
  {
    StopAllStops(locals, w);
    assert w.order[..|w.order|] == w.order;
  }

  /** The specifications of the first k rules of the order. */
  function ListedFirst(w: World, k: nat): seq<RuleSpec>
    requires k <= |w.order|
  {
    Listed(w.rules, w.order[..k])
  }

  lemma ListedNext(w: World, k: nat)
    requires k < |w.order|
    ensures ListedFirst(w, k + 1) ==
      if w.order[k] in w.rules then ListedFirst(w, k) + [w.rules[w.order[k]].spec] else ListedFirst(w, k)
    ensures ListedFirst(w, 0) == [] && ListedFirst(w, |w.order|) == SpecsOf(w)
  {
    assert w.order[..k + 1][..k] == w.order[..k];
    assert w.order[..|w.order|] == w.order;
  }

  function AddFirst(env: Env, w: World, specs: seq<RuleSpec>, k: nat): Step
    requires k <= |specs|
  {
    AddEach(env, w, specs[..k])
  }

  lemma AddFirstNext(env: Env, w: World, specs: seq<RuleSpec>, k: nat)
    requires k < |specs|
    ensures AddFirst(env, w, specs, 0) == Step(w, None)
    ensures AddFirst(env, w, specs, k).error.None? ==>
      AddFirst(env, w, specs, k + 1) == Add(env, AddFirst(env, w, specs, k).world, specs[k])
  {
    assert specs[..k + 1][..k] == specs[..k];
  }

  /** Once an addition has failed, the rest of the list is not looked at. */
  lemma {:induction false} AddFirstStops(env: Env, w: World, specs: seq<RuleSpec>, k: nat)
    requires k <= |specs| && (AddFirst(env, w, specs, k).error.Some? || k == |specs|)
    ensures AddEach(env, w, specs) == AddFirst(env, w, specs, k)
    decreases |specs| - k
  {
    hide Add;
    if k == |specs| {
      assert specs[..k] == specs;
    } else {
      assert specs[..k + 1][..k] == specs[..k];
      AddFirstStops(env, w, specs, k + 1);
    }
  }

  function LoadFirst(env: Env, w: World, specs: seq<RuleSpec>, k: nat): (World, seq<Failure>)
    requires k <= |specs|
  {
    LoadSpecs(env, w, specs[..k])
  }

  lemma LoadFirstNext(env: Env, w: World, specs: seq<RuleSpec>, k: nat)
    requires k <= |specs|
    ensures LoadFirst(env, w, specs, 0) == (w, []) && LoadFirst(env, w, specs, |specs|) == LoadSpecs(env, w, specs)
    ensures k < |specs| ==>
      var before := LoadFirst(env, w, specs, k);
      var last := Add(env, before.0, specs[k]);
      LoadFirst(env, w, specs, k + 1)
      == (last.world, if last.error.Some? then before.1 + [last.error.value] else before.1)
  {
    hide Add;
    assert specs[..|specs|] == specs;
    assert k < |specs| ==> specs[..k + 1][..k] == specs[..k];
  }

  function NormalFirst(env: Env, ids: nat, specs: seq<RuleSpec>, k: nat): Checked
    requires k <= |specs|
  {
    Normalize(env, ids, specs[..k])
  }

  lemma NormalNext(env: Env, ids: nat, specs: seq<RuleSpec>, k: nat)
    requires k < |specs|
    ensures var before := NormalFirst(env, ids, specs, k);
            before.error.None? ==>
              var s := Clean(specs[k], env.ids(before.ids));
              var next := if specs[k].id == "" then before.ids + 1 else before.ids;
              var error := SetError(env.locals, before.specs, s);
              NormalFirst(env, ids, specs, k + 1)
              == if error.Some? then Checked([], next, error) else Checked(before.specs + [s], next, None)
  {
    hide Clean, SetError;
    assert specs[..k + 1][..k] == specs[..k];
  }

  /** Once a specification is refused, the list is. */
  lemma {:induction false} NormalStops(env: Env, ids: nat, specs: seq<RuleSpec>, k: nat)
    requires k <= |specs| && (NormalFirst(env, ids, specs, k).error.Some? || k == |specs|)
    ensures Normalize(env, ids, specs) == NormalFirst(env, ids, specs, k)
    ensures NormalFirst(env, ids, specs, 0) == Checked([], ids, None)
    decreases |specs| - k
  {
    hide Clean, SetError;
    if k == |specs| {
      assert specs[..k] == specs;
    } else {
      assert specs[..k + 1][..k] == specs[..k];
      NormalStops(env, ids, specs, k + 1);
    }
  }

  /** What is wrong with s after the accepted specifications, whose identifiers are `seen`. */
  method CheckNext(locals: set<IP>, accepted: seq<RuleSpec>, seen: set<string>, s: RuleSpec) returns (error: Option<Failure>)
    requires seen == set d | d in accepted :: d.id
    ensures error == SetError(locals, accepted, s)
  {
    hide Validate, Conflict;
    if s.id in seen { return Some(DuplicateId); }
    if Validate(s, locals).Some? { return Some(BadSpec(Validate(s, locals).value)); }
    for j := 0 to |accepted|
      invariant forall d | d in accepted[..j] :: !Conflict(d, s)
    {
      if Conflict(accepted[j], s) { return Some(PortTaken); }
    }
    assert accepted[..|accepted|] == accepted;
    return None;
  }

  class Manager {
    const net: Network
    var rules: map<string, Rule>
    var order: seq<string>

    function Model(): World
      reads this, net, Objects(rules)
    {
      World(Values(rules), order, net.Value())
    }

    ghost predicate Valid()
      reads this, net, Objects(rules)
    {
      WorldOk(net.env.locals, Model()) && Separate(rules)
    }

    constructor (net: Network)
      requires net.open == map[]
      ensures Valid() && this.net == net && Model() == World(map[], [], net.Value())
    {
      this.net, rules, order := net, map[], [];
      new;
      assert Values(rules) == map[];
      EmptyOk(net.env.locals, net.Value());
    }

    /** Does a rule other than `exclude` listen where spec would? */
    method CheckPortConflict(spec: RuleSpec, exclude: string) returns (taken: bool)
      ensures taken == Taken(Values(rules), spec, exclude)
    {
      hide Conflict;
      var rest := rules.Keys;
      taken := false;
      while rest != {} && !taken
        invariant rest <= rules.Keys
        invariant taken ==> Taken(Values(rules), spec, exclude)
        invariant !taken ==> forall id | id in rules && id !in rest && id != exclude :: !Conflict(rules[id].Value().spec, spec)
        decreases |rest|
      {
        var id :| id in rest;
        rest := rest - {id};
        if id != exclude && Conflict(rules[id].spec, spec) {
          assert Values(rules)[id].spec == rules[id].spec;
          taken := true;
        }
      }
    }

    /** The specification with its defaults, and with a new identifier if it has none. */
    method Complete(spec: RuleSpec) returns (s: RuleSpec)
      modifies net`ids
      ensures s == Clean(spec, net.env.ids(old(net.ids)))
      ensures net.Value() == DrawId(old(net.Value()), spec)
    {
      s := spec;
      if s.id == "" {
        var id := net.NewId();
        s := s.(id := id);
      }
      s := ApplyDefaults(s);
    }

    method CheckAdd(s: RuleSpec) returns (error: Option<Failure>)
      ensures error == AddError(net.env, Values(rules), s)
    {
      hide Validate;
      if Validate(s, net.env.locals).Some? { return Some(BadSpec(Validate(s, net.env.locals).value)); }
      if s.id in rules { return Some(IdTaken); }
      var taken := CheckPortConflict(s, "");
      return if taken then Some(PortTaken) else None;
    }

    method InstallRule(s: RuleSpec) returns (error: Option<Failure>)
      requires Separate(rules)
      modifies this, net`open, net`binds
      ensures Separate(rules) && forall r | r in Objects(rules) :: r in old(Objects(rules)) || fresh(r)
      ensures Step(Model(), error) == Install(net.env, old(Model()), s)
    {
      hide NewRule, Rules.StartOrDisable, Separate, Values;
      NewRuleSpec(s);
      var rule := new Rule(s);
      error := None;
      if s.enabled {
        var ok := rule.StartOrDisable(net);
        if !ok { error := Some(CannotBind); }
      }
      AddedOne(rules, s.id, rule);
      rules, order := rules[s.id := rule], order + [s.id];
    }

    method AddLocked(spec: RuleSpec) returns (error: Option<Failure>)
      requires Valid()
      modifies this, net`open, net`binds, net`ids
      ensures Valid() && forall r | r in Objects(rules) :: r in old(Objects(rules)) || fresh(r)
      ensures Step(Model(), error) == Add(net.env, old(Model()), spec)
    {
      hide WorldOk, Clean, AddError, Install, Separate, DrawId;
      AddOk(net.env, Model(), spec);
      ghost var w := Model();
      var s := Complete(spec);
      error := CheckAdd(s);
      assert Values(rules) == w.rules;
      if error.None? {
        error := InstallRule(s);
      }
    }

    method UpdateLocked(id: string, spec: RuleSpec) returns (error: Option<Failure>)
      requires Valid()
      modifies net`open, net`binds, Objects(rules)
      ensures Valid() && rules == old(rules)
      ensures Step(Model(), error) == Update(net.env, old(Model()), id, spec)
    {
      hide WorldOk, Validate, ApplyDefaults, Taken, Rules.Reconfigure, Obstacle;
      ghost var w := Model();
      UpdateOk(net.env, w, id, spec);
      if id !in rules { return Some(UnknownRule); }
      var s := ApplyDefaults(spec.(id := id));
      if Validate(s, net.env.locals).Some? { return Some(BadSpec(Validate(s, net.env.locals).value)); }
      var taken := CheckPortConflict(s, id);
      if taken { return Some(PortTaken); }
      error := rules[id].Reconfigure(net, s);
      ChangedOne(rules, w.rules, id);
    }

    method SetEnabled(id: string, enabled: bool) returns (error: Option<Failure>)
      requires Valid()
      modifies net`open, net`binds, Objects(rules)
      ensures Valid() && rules == old(rules)
      ensures Step(Model(), error) == Managers.SetEnabled(net.env, old(Model()), id, enabled)
    {
      hide WorldOk, Update;
      if id !in rules { return Some(UnknownRule); }
      error := UpdateLocked(id, rules[id].spec.(enabled := enabled));
    }

    method SetRoutingMode(id: string, mode: string) returns (error: Option<Failure>)
      requires Valid()
      modifies Objects(rules)
      ensures Valid() && rules == old(rules)
      ensures Step(Model(), error) == Managers.SetRoutingMode(old(Model()), id, mode)
    {
      hide WorldOk, Health.IsMode, Health.ModeAccepted, Routed;
      ghost var w := Model();
      ModeOk(net.env.locals, w, id, mode);
      if id !in rules { return Some(UnknownRule); }
      error := rules[id].SetRoutingMode(mode);
      ChangedOne(rules, w.rules, id);
    }

    method Delete(id: string) returns (error: Option<Failure>)
      requires Valid()
      modifies this, net`open, Objects(rules)
      ensures Valid() && Objects(rules) <= old(Objects(rules))
      ensures Step(Model(), error) == Managers.Delete(old(Model()), id)
    {
      hide WorldOk, IndexOf, RemoveAt, Rules.Stop, Separate;
      ghost var w := Model();
      ghost var before := rules;
      DeleteOk(net.env.locals, w, id);
      if id !in rules { return Some(UnknownRule); }
      var rule := rules[id];
      rules := rules - {id};
      order := Without(order, id);
      rule.Stop(net);
      OtherObjects(before, id);
      RemovedOne(before, id, w.rules);
      return None;
    }

    method StopAll()
      requires Valid()
      modifies net`open, Objects(rules)
      ensures Valid() && rules == old(rules)
      ensures Model() == Managers.StopAll(old(Model()))
    {
      hide WorldOk, Rules.Stop, Separate, StoppedFirst, Managers.StopAll;
      ghost var w := Model();
      StoppedEnds(net.env.locals, w);
      var k := 0;
      while k < |order|
        invariant k <= |order|
        invariant rules == old(rules) && order == w.order && Separate(rules)
        invariant Model() == StoppedFirst(w, k)
      {
        StoppedNext(net.env.locals, w, k);
        if order[k] in rules {
          StopRule(order[k]);
        }
        k := k + 1;
      }
    }

    method StopRule(id: string)
      requires Separate(rules) && id in rules
      modifies net`open, rules[id]
      ensures Model() == With(old(Model()), id, Rules.Stop(old(net.Value()), old(rules[id].Value())))
    {
      hide Rules.Stop, Separate;
      ghost var was := Values(rules);
      OtherObjects(rules, id);
      rules[id].Stop(net);
      ChangedOne(rules, was, id);
    }

    method Specs() returns (specs: seq<RuleSpec>)
      ensures specs == SpecsOf(Model())
    {
      hide ListedFirst, Listed, SpecsOf;
      specs := [];
      var k := 0;
      ListedNone(Model());
      while k < |order|
        invariant k <= |order|
        invariant specs == ListedFirst(Model(), k)
        invariant k == |order| ==> specs == SpecsOf(Model())
      {
        ListedNext(Model(), k);
        if order[k] in rules {
          specs := specs + [rules[order[k]].spec];
        }
        k := k + 1;
      }
    }

    /** Add the specifications in turn and stop at the first error. */
    method AddAll(specs: seq<RuleSpec>) returns (error: Option<Failure>)
      requires Valid()
      modifies this, net`open, net`binds, net`ids
      ensures Valid() && forall r | r in Objects(rules) :: r in old(Objects(rules)) || fresh(r)
      ensures Step(Model(), error) == AddEach(net.env, old(Model()), specs)
    {
      hide WorldOk, Add, AddEach, AddFirst, Separate;
      ghost var w := Model();
      error := None;
      var k := 0;
      AddFirstStarts(net.env, w, specs);
      while k < |specs| && error.None?
        invariant k <= |specs| && Valid()
        invariant forall r | r in Objects(rules) :: r in old(Objects(rules)) || fresh(r)
        invariant Step(Model(), error) == AddFirst(net.env, w, specs, k)
      {
        AddFirstNext(net.env, w, specs, k);
        error := AddLocked(specs[k]);
        k := k + 1;
      }
      AddFirstStops(net.env, w, specs, k);
    }

    method LoadSpecs(specs: seq<RuleSpec>) returns (errors: seq<Failure>)
      requires Valid()
      modifies this, net`open, net`binds, net`ids
      ensures Valid() && forall r | r in Objects(rules) :: r in old(Objects(rules)) || fresh(r)
      ensures (Model(), errors) == Managers.LoadSpecs(net.env, old(Model()), specs)
    {
      hide WorldOk, Add, Managers.LoadSpecs, LoadFirst, Separate;
      ghost var w := Model();
      errors := [];
      LoadFirstNext(net.env, w, specs, 0);
      for k := 0 to |specs|
        invariant Valid()
        invariant forall r | r in Objects(rules) :: r in old(Objects(rules)) || fresh(r)
        invariant (Model(), errors) == LoadFirst(net.env, w, specs, k)
      {
        LoadFirstNext(net.env, w, specs, k);
        var error := AddLocked(specs[k]);
        if error.Some? { errors := errors + [error.value]; }
      }
    }

    method NormalizeRuleSet(specs: seq<RuleSpec>) returns (normalized: seq<RuleSpec>, error: Option<Failure>)
      modifies net`ids
      ensures Checked(normalized, net.ids, error) == Normalize(net.env, old(net.ids), specs)
      ensures net.Value() == old(net.Value()).(ids := net.ids)
    {
      hide Normalize, NormalFirst, SetError, Clean;
      normalized, error := [], None;
      var seen: set<string> := {};
      var k := 0;
      NormalStarts(net.env, net.ids, specs);
      while k < |specs| && error.None?
        invariant k <= |specs|
        invariant error.None? ==> seen == set d | d in normalized :: d.id
        invariant Checked(normalized, net.ids, error) == NormalFirst(net.env, old(net.ids), specs, k)
        invariant net.Value() == old(net.Value()).(ids := net.ids)
      {
        NormalNext(net.env, old(net.ids), specs, k);
        var s := Complete(specs[k]);
        error := CheckNext(net.env.locals, normalized, seen, s);
        normalized, seen := if error.Some? then [] else normalized + [s], seen + {s.id};
        k := k + 1;
      }
      NormalStops(net.env, old(net.ids), specs, k);
    }

    /** Stop every rule and start again with these. */
    method ReplaceAll(next: seq<RuleSpec>) returns (error: Option<Failure>)
      requires Valid()
      modifies this, net`open, net`binds, net`ids, Objects(rules)
      ensures Valid() && forall r | r in Objects(rules) :: fresh(r)
      ensures Step(Model(), error) == Replace(net.env, old(Model()), next)
    {
      hide WorldOk, AddEach, Managers.StopAll;
      StopAllStops(net.env.locals, Model());
      StopAll();
      rules, order := map[], [];
      EmptyOk(net.env.locals, net.Value());
      assert Values(rules) == map[];
      error := AddAll(next);
    }

    method ReplaceSpecs(specs: seq<RuleSpec>) returns (error: Option<Failure>)
      requires Valid()
      modifies this, net`open, net`binds, net`ids, Objects(rules)
      ensures Valid() && forall r | r in Objects(rules) :: r in old(Objects(rules)) || fresh(r)
      ensures Step(Model(), error) == Managers.ReplaceSpecs(net.env, old(Model()), specs)
    {
      hide WorldOk, Normalize, Replace, Listed, Separate;
      ghost var w := Model();
      var normalized: seq<RuleSpec>;
      normalized, error := NormalizeRuleSet(specs);
      DrawOk(net.env.locals, w, net.ids);
      assert Model() == w.(sys := w.sys.(ids := net.ids));
      if error.None? {
        var before := Specs();
        error := ReplaceAll(normalized);
        if error.Some? {
          var failure := error.value;
          var rollback := ReplaceAll(before);
          error := Some(if rollback.Some? then ImportAndRollback(failure, rollback.value) else Import(failure));
        }
      }
    }
  }

  lemma ListedNone(w: World)
    ensures ListedFirst(w, 0) == [] && (w.order == [] ==> SpecsOf(w) == [])
  {
  }

  lemma AddFirstStarts(env: Env, w: World, specs: seq<RuleSpec>)
    ensures AddFirst(env, w, specs, 0) == Step(w, None)
  {
  }

  lemma NormalStarts(env: Env, ids: nat, specs: seq<RuleSpec>)
    ensures NormalFirst(env, ids, specs, 0) == Checked([], ids, None)
  {
  }
}
