/** The two transactions of the rule manager: an update of one rule, and the replacement of
    the whole profile, under any pattern of refused binds. */
module Transactions {
  import opened Streams
  import opened Specs
  import opened Rules
  import opened Managers
  import Health
  import Store
  import StoreLaws

  // ----- one rule ---------------------------------------------------------------

  /** Everything but this rule and the sockets is as before. */
  ghost predicate OnlyRule(w: World, v: World, id: string) {
    && v.order == w.order && v.rules.Keys == w.rules.Keys && v.sys.ids == w.sys.ids
    && forall other | other in w.rules && other != id :: v.rules[other] == w.rules[other]
  }

  /** The old listener had to be closed for the second bind, and could not be bound again. */
  predicate RestoreFails(env: Env, w: World, id: string, s: RuleSpec)
    requires id in w.rules
  {
    && NeedsListener(w.rules[id], s) && w.rules[id].running
    && w.rules[id].spec.listenPort == s.listenPort && w.rules[id].spec.protocol == s.protocol
    && env.refuses(w.sys.binds) && env.refuses(w.sys.binds + 2)
  }

  /** Update is all or nothing: with an error the rule keeps its specification, its allow list,
      its captures with their limits, its route, and whether it runs; only if the old address
      cannot be bound again either, it is switched off. Without an error the whole new
      specification is in force, and the rule runs, with a listener, if and only if it is enabled. */
  lemma UpdateIsAllOrNothing(env: Env, w: World, id: string, spec: RuleSpec)
    requires WorldOk(env.locals, w) && id in w.rules
    ensures var s := ApplyDefaults(spec.(id := id));
            var t := Update(env, w, id, spec);
            && OnlyRule(w, t.world, id)
            && (var was, r := w.rules[id], t.world.rules[id];
                match t.error
                case None => InForce(was, s, r) && (r.running <==> r.socket.Some?)
                case Some(BadSpec(_)) => t.world == w
                case Some(PortTaken) => t.world == w
                case Some(e) =>
                  && (e == CannotBind || e == TooManyPins)
                  && r == (if RestoreFails(env, w, id, s)
                           then was.(spec := was.spec.(enabled := false), running := false, socket := None)
                           else was.(socket := r.socket)))
  {
    var s := ApplyDefaults(spec.(id := id));
    hide WorldOk, Prepare, Reconfigure, InForce, Store.StoreOk, Normal, Taken, Validate, ApplyDefaults;
    if Validate(s, env.locals).None? && !Taken(w.rules, s, id) {
      var r := w.rules[id];
      IsSteady(env.locals, w, id);
      PrepareFrame(env, w.sys, r, s);
      IdsKept(env, w.sys, r, s);
      if Obstacle(Prepare(env, w.sys, r, s), r, s).Some? {
        RefusedUpdateChangesNothing(env, w.sys, r, s);
      } else {
        UpdateTakesEffect(env, w.sys, r, s);
      }
    }
  }

  lemma IdsKept(env: Env, sys: Sys, r: RuleState, s: RuleSpec)
    ensures Reconfigure(env, sys, r, s).sys.ids == sys.ids
  {
    hide Configured;
  }

  // ----- the whole profile --------------------------------------------------------

  /** A list that a profile may consist of: valid, with distinct identifiers, without conflicts. */
  ghost predicate ProfileOk(locals: set<IP>, specs: seq<RuleSpec>) {
    && (forall i | 0 <= i < |specs| :: Normal(specs[i], locals))
    && (forall i, j | 0 <= i < j < |specs| :: specs[i].id != specs[j].id && !Conflict(specs[i], specs[j]))
  }

  /** How many identifiers have to be generated. */
  function Nameless(specs: seq<RuleSpec>): nat {
    if specs == [] then 0
    else Nameless(specs[..|specs| - 1]) + (if specs[|specs| - 1].id == "" then 1 else 0)
  }

  /** The specifications with their defaults, and with generated identifiers where needed. */
  function CleanAll(env: Env, ids: nat, specs: seq<RuleSpec>): (r: seq<RuleSpec>)
    ensures |r| == |specs|
  {
    if specs == [] then []
    else
      var front, last := specs[..|specs| - 1], specs[|specs| - 1];
      CleanAll(env, ids, front) + [Clean(last, env.ids(ids + Nameless(front)))]
  }

  lemma ProfileSnoc(locals: set<IP>, specs: seq<RuleSpec>, s: RuleSpec)
    ensures ProfileOk(locals, specs + [s]) <==>
      ProfileOk(locals, specs) && Normal(s, locals)
      && forall d | d in specs :: d.id != s.id && !Conflict(d, s)
  {
    hide Normal, Conflict;
    var all := specs + [s];
    assert forall i | 0 <= i < |specs| :: all[i] == specs[i];
    if ProfileOk(locals, all) {
      assert all[|specs|] == s;
    }
  }

  lemma SetErrorIs(env: Env, accepted: seq<RuleSpec>, spec: RuleSpec, id: Id)
    requires ProfileOk(env.locals, accepted)
    ensures SetError(env.locals, accepted, Clean(spec, id)).None? <==> ProfileOk(env.locals, accepted + [Clean(spec, id)])
  {
    ProfileSnoc(env.locals, accepted, Clean(spec, id));
    CleanIs(spec, id);
    hide ProfileOk, Validate, ApplyDefaults, Conflict, Clean;
  }

  /** NormalizeRuleSet accepts a list exactly when, completed, it can be a profile, and returns it
      completed and in order. */
  lemma {:induction false} NormalizeIsExact(env: Env, ids: nat, specs: seq<RuleSpec>)
    ensures var c := Normalize(env, ids, specs);
            && (c.error.None? <==> ProfileOk(env.locals, CleanAll(env, ids, specs)))
            && (c.error.None? ==> c.specs == CleanAll(env, ids, specs) && c.ids == ids + Nameless(specs))
  {
    hide ProfileOk, SetError, Clean;
    if specs == [] {
      NoProfile(env.locals);
    } else {
      var front, last := specs[..|specs| - 1], specs[|specs| - 1];
      NormalizeIsExact(env, ids, front);
      var s := Clean(last, env.ids(ids + Nameless(front)));
      if Normalize(env, ids, front).error.None? {
        SetErrorIs(env, CleanAll(env, ids, front), last, env.ids(ids + Nameless(front)));
      } else {
        ProfileSnoc(env.locals, CleanAll(env, ids, front), s);
      }
    }
  }

  lemma NoProfile(locals: set<IP>)
    ensures ProfileOk(locals, [])
  {
  }

  /** The world holds exactly these specifications, in this order. */
  predicate Holding(w: World, specs: seq<RuleSpec>) {
    && |w.order| == |specs|
    && (forall i | 0 <= i < |specs| :: w.order[i] == specs[i].id && specs[i].id in w.rules && w.rules[specs[i].id].spec == specs[i])
    && (forall id | id in w.rules :: id in w.order)
  }

  lemma {:induction false} ListedIs(rules: map<string, RuleState>, order: seq<string>, specs: seq<RuleSpec>)
    requires |order| == |specs|
    requires forall i | 0 <= i < |specs| :: order[i] in rules && rules[order[i]].spec == specs[i]
    ensures Listed(rules, order) == specs
  {
    if order == [] {
    } else {
      ListedIs(rules, order[..|order| - 1], specs[..|specs| - 1]);
      assert specs == specs[..|specs| - 1] + [specs[|specs| - 1]];
    }
  }

  lemma HoldingIsSpecs(w: World, specs: seq<RuleSpec>)
    requires Holding(w, specs)
    ensures SpecsOf(w) == specs
  {
    ListedIs(w.rules, w.order, specs);
  }

  lemma ListedAt(locals: set<IP>, w: World, i: nat)
    requires WorldOk(locals, w) && i < |w.order|
    ensures w.order[i] in w.rules
    ensures w.rules[w.order[i]].spec.id == w.order[i] && Normal(w.rules[w.order[i]].spec, locals)
  {
    IsSteady(locals, w, w.order[i]);
  }

  lemma ListedTwo(locals: set<IP>, w: World, i: nat, j: nat)
    requires WorldOk(locals, w) && i < j < |w.order| && w.order[i] in w.rules && w.order[j] in w.rules
    ensures w.order[i] != w.order[j] && !Conflict(w.rules[w.order[i]].spec, w.rules[w.order[j]].spec)
  {
  }

  /** A world in a reachable state holds a profile. */
  lemma WorldHolds(locals: set<IP>, w: World)
    requires WorldOk(locals, w)
    ensures Holding(w, SpecsOf(w)) && ProfileOk(locals, SpecsOf(w))
  {
    hide WorldOk, Normal, Conflict;
    forall i | 0 <= i < |w.order|
      ensures w.order[i] in w.rules && w.rules[w.order[i]].spec.id == w.order[i] && Normal(w.rules[w.order[i]].spec, locals)
    {
      ListedAt(locals, w, i);
    }
    forall i, j | 0 <= i < j < |w.order|
      ensures w.order[i] != w.order[j] && !Conflict(w.rules[w.order[i]].spec, w.rules[w.order[j]].spec)
    {
      ListedTwo(locals, w, i, j);
    }
    var specs := seq(|w.order|, i requires 0 <= i < |w.order| && w.order[i] in w.rules => w.rules[w.order[i]].spec);
    ListedIs(w.rules, w.order, specs);
    AllListed(locals, w);
  }

  lemma AllListed(locals: set<IP>, w: World)
    requires WorldOk(locals, w)
    ensures forall id | id in w.rules :: id in w.order
  {
  }

  /** The first k specifications, and the next one switched off. */
  function Cut(specs: seq<RuleSpec>, k: nat): seq<RuleSpec>
    requires k < |specs|
  {
    specs[..k] + [specs[k].(enabled := false)]
  }

  lemma CleanKeeps(locals: set<IP>, s: RuleSpec, id: string, sys: Sys)
    requires Normal(s, locals)
    ensures Clean(s, id) == s && DrawId(sys, s) == sys && Validate(s, locals).None?
  {
    hide ApplyDefaults, Validate;
  }

  lemma NextIsFree(w: World, accepted: seq<RuleSpec>, s: RuleSpec)
    requires Holding(w, accepted) && forall d | d in accepted :: d.id != s.id && !Conflict(d, s)
    ensures s.id !in w.rules && !Taken(w.rules, s, "")
  {
    hide Conflict;
    forall id | id in w.rules ensures id != s.id && !Conflict(w.rules[id].spec, s) {
      var i :| 0 <= i < |w.order| && w.order[i] == id;
      assert accepted[i] in accepted;
    }
  }

  lemma HoldingNext(w: World, accepted: seq<RuleSpec>, s: RuleSpec, t: Running)
    requires Holding(w, accepted) && s.id !in w.rules && t.rule.spec == s
    ensures Holding(With(w, s.id, t).(order := w.order + [s.id]), accepted + [s])
  {
    var v := With(w, s.id, t).(order := w.order + [s.id]);
    forall i | 0 <= i < |accepted| + 1
      ensures v.order[i] == (accepted + [s])[i].id && v.order[i] in v.rules && v.rules[v.order[i]].spec == (accepted + [s])[i]
    {
    }
  }

  /** The next specification of a profile is always accepted; only its bind can fail. */
  lemma AddNext(env: Env, w: World, accepted: seq<RuleSpec>, s: RuleSpec)
    requires Holding(w, accepted) && ProfileOk(env.locals, accepted + [s])
    ensures var t := Add(env, w, s);
            && (t.error.None? ==> Holding(t.world, accepted + [s]))
            && (t.error.Some? ==>
                  && t.error.value == CannotBind && s.enabled
                  && Holding(t.world, accepted + [s.(enabled := false)]))
  {
    hide Holding, ProfileOk, Normal, Conflict, Taken, Validate, ApplyDefaults, Clean, DrawId, With;
    ProfileSnoc(env.locals, accepted, s);
    CleanKeeps(env.locals, s, env.ids(w.sys.ids), w.sys);
    NextIsFree(w, accepted, s);
    var t := if s.enabled then StartOrDisable(env, w.sys, NewRule(s)) else Running(w.sys, NewRule(s));
    HoldingNext(w, accepted, t.rule.spec, t);
  }

  /** What a list shrinks to when a bind is refused: everything up to an enabled rule, and
      that rule switched off. */
  predicate CutOff(kept: seq<RuleSpec>, specs: seq<RuleSpec>) {
    exists k: nat | k < |specs| :: specs[k].enabled && kept == Cut(specs, k)
  }

  lemma CutOffSnoc(kept: seq<RuleSpec>, specs: seq<RuleSpec>, s: RuleSpec)
    requires CutOff(kept, specs) || (s.enabled && kept == specs + [s.(enabled := false)])
    ensures CutOff(kept, specs + [s])
  {
    var all := specs + [s];
    assert Cut(all, |specs|) == specs + [s.(enabled := false)];
    assert forall k: nat | k < |specs| :: all[k] == specs[k] && Cut(all, k) == Cut(specs, k);
  }

  /** Adding a profile to an empty manager: everything goes in, or everything up to the first
      refused bind, whose rule stays switched off. */
  lemma {:induction false} AddEachHolds(env: Env, sys: Sys, specs: seq<RuleSpec>)
    requires ProfileOk(env.locals, specs)
    ensures var t := AddEach(env, World(map[], [], sys), specs);
            match t.error
            case None => Holding(t.world, specs)
            case Some(e) => e == CannotBind && CutOff(SpecsOf(t.world), specs)
  {
    hide ProfileOk, Add, CutOff, SpecsOf;
    if specs == [] {
    } else {
      var front, last := specs[..|specs| - 1], specs[|specs| - 1];
      assert specs == front + [last];
      ProfileSnoc(env.locals, front, last);
      AddEachHolds(env, sys, front);
      var before := AddEach(env, World(map[], [], sys), front);
      if before.error.Some? {
        CutOffSnoc(SpecsOf(before.world), front, last);
      } else {
        AddLast(env, before.world, front, last);
      }
    }
  }

  lemma AddLast(env: Env, w: World, front: seq<RuleSpec>, last: RuleSpec)
    requires Holding(w, front) && ProfileOk(env.locals, front + [last])
    ensures var t := Add(env, w, last);
            match t.error
            case None => Holding(t.world, front + [last])
            case Some(e) => e == CannotBind && CutOff(SpecsOf(t.world), front + [last])
  {
    hide ProfileOk, Add, CutOff, SpecsOf, Holding;
    AddNext(env, w, front, last);
    if Add(env, w, last).error.Some? {
      HoldingIsSpecs(Add(env, w, last).world, front + [last.(enabled := false)]);
      CutOffSnoc(SpecsOf(Add(env, w, last).world), front, last);
    }
  }

  lemma ReplaceHolds(env: Env, w: World, next: seq<RuleSpec>)
    requires ProfileOk(env.locals, next)
    ensures var t := Replace(env, w, next);
            match t.error
            case None => SpecsOf(t.world) == next
            case Some(e) => e == CannotBind && CutOff(SpecsOf(t.world), next)
  {
    hide ProfileOk, AddEach, Holding, SpecsOf, CutOff, StopAll;
    AddEachHolds(env, StopAll(w).sys, next);
    if Replace(env, w, next).error.None? {
      HoldingIsSpecs(Replace(env, w, next).world, next);
    }
  }

  /** ReplaceSpecs: a list that cannot be a profile changes nothing. A list that can fails only
      at a bind. Success leaves exactly the completed list, in order; failure with a successful
      rollback leaves exactly the list from before; a rollback that fails in its turn stops at
      the first rule it cannot bind. */
  lemma ReplaceIsATransaction(env: Env, w: World, specs: seq<RuleSpec>)
    requires WorldOk(env.locals, w)
    ensures var t := ReplaceSpecs(env, w, specs);
            var wanted := CleanAll(env, w.sys.ids, specs);
            if !ProfileOk(env.locals, wanted) then
              t.error.Some? && t.world == w.(sys := w.sys.(ids := t.world.sys.ids))
            else
              match t.error
              case None => SpecsOf(t.world) == wanted
              case Some(e) =>
                && (e == Import(CannotBind) || e == ImportAndRollback(CannotBind, CannotBind))
                && (if e.Import? then SpecsOf(t.world) == SpecsOf(w)
                    else CutOff(SpecsOf(t.world), SpecsOf(w)))
  {
    hide WorldOk, ProfileOk, Normalize, Replace, SpecsOf, CleanAll, CutOff;
    NormalizeIsExact(env, w.sys.ids, specs);
    var checked := Normalize(env, w.sys.ids, specs);
    if checked.error.None? {
      var drawn := w.(sys := w.sys.(ids := checked.ids));
      WorldHolds(env.locals, w);
      ReplaceHolds(env, drawn, checked.specs);
      ReplaceHolds(env, Replace(env, drawn, checked.specs).world, SpecsOf(w));
    }
  }

  /** An addition that reports a bind failure has just had a bind call refused. */
  lemma BlamedBind(env: Env, w: World, spec: RuleSpec)
    requires Add(env, w, spec).error == Some(CannotBind)
    ensures env.refuses(w.sys.binds) && Add(env, w, spec).world.sys.binds == w.sys.binds + 1
  {
    hide Validate, ApplyDefaults, Taken;
  }

  lemma {:induction false} BlamedBindInList(env: Env, w: World, specs: seq<RuleSpec>)
    requires AddEach(env, w, specs).error == Some(CannotBind)
    ensures AddEach(env, w, specs).world.sys.binds > 0 && env.refuses(AddEach(env, w, specs).world.sys.binds - 1)
  {
    hide Add;
    var before := AddEach(env, w, specs[..|specs| - 1]);
    if before.error.Some? {
      BlamedBindInList(env, w, specs[..|specs| - 1]);
    } else {
      BlamedBind(env, before.world, specs[|specs| - 1]);
    }
  }

  /** A list that can be a profile is imported unless a bind call is refused. */
  lemma ImportNeedsOnlyTheBinds(env: Env, w: World, specs: seq<RuleSpec>)
    requires WorldOk(env.locals, w) && ProfileOk(env.locals, CleanAll(env, w.sys.ids, specs))
    requires forall n :: !env.refuses(n)
    ensures ReplaceSpecs(env, w, specs).error == None
  {
    hide WorldOk, ProfileOk, Normalize, AddEach, SpecsOf, CleanAll, CutOff, StopAll;
    NormalizeIsExact(env, w.sys.ids, specs);
    var checked := Normalize(env, w.sys.ids, specs);
    var drawn := w.(sys := w.sys.(ids := checked.ids));
    ReplaceHolds(env, drawn, checked.specs);
    if Replace(env, drawn, checked.specs).error.Some? {
      BlamedBindInList(env, World(map[], [], StopAll(drawn).sys), checked.specs);
      assert false;
    }
  }
}
