/** mergeProfileRules of internal/web/api.go: what an import does to the list of rules, the
    numbers it previews, and what the manager holds afterwards. */
module Profile {
  import opened Streams
  import opened Specs
  import opened Rules
  import opened Managers
  import opened Transactions
  import ManagerObject

  datatype Preview = Preview(added: int, updated: int, removed: int)

  function IdsOf(list: seq<RuleSpec>): set<string> { set s | s in list :: s.id }

  /** The last position of an identifier, or the length when it does not occur. */
  function LastIndex(list: seq<RuleSpec>, id: string): (i: nat)
    ensures i <= |list|
    ensures i < |list| ==> list[i].id == id && forall j | i < j < |list| :: list[j].id != id
    ensures i == |list| ==> forall j | 0 <= j < |list| :: list[j].id != id
  {
    if list == [] then 0
    else if list[|list| - 1].id == id then |list| - 1
    else
      var i := LastIndex(list[..|list| - 1], id);
      if i == |list| - 1 then |list| else i
  }

  /** The imported rule takes the place of an existing one. */
  predicate Known(current: seq<RuleSpec>, s: RuleSpec) {
    s.id != "" && LastIndex(current, s.id) < |current|
  }

  datatype Merged = Merged(rules: seq<RuleSpec>, added: nat, updated: nat)

  function MergeOne(current: seq<RuleSpec>, m: Merged, s: RuleSpec): Merged
    requires |m.rules| >= |current|
  {
    if Known(current, s) then Merged(m.rules[LastIndex(current, s.id) := s], m.added, m.updated + 1)
    else Merged(m.rules + [s], m.added + 1, m.updated)
  }

  /** The current list after the imported rules, one after the other; every rule is either an
      addition, which makes the list longer, or an update. */
  function Merge(current: seq<RuleSpec>, imported: seq<RuleSpec>): (m: Merged)
    ensures |m.rules| == |current| + m.added && m.added + m.updated == |imported|
  {
    if imported == [] then Merged(current, 0, 0)
    else MergeOne(current, Merge(current, imported[..|imported| - 1]), imported[|imported| - 1])
  }

  /** How many imported rules have the identifier of a current one. */
  function Updates(current: seq<RuleSpec>, imported: seq<RuleSpec>): (n: nat)
    ensures n <= |imported|
  {
    if imported == [] then 0
    else Updates(current, imported[..|imported| - 1]) + (if Known(current, imported[|imported| - 1]) then 1 else 0)
  }

  function NamedIds(list: seq<RuleSpec>): set<string> { IdsOf(list) - {""} }

  function ReplacePreview(current: seq<RuleSpec>, imported: seq<RuleSpec>): Preview {
    Preview(|imported| - Updates(current, imported), Updates(current, imported), |IdsOf(current) - NamedIds(imported)|)
  }

  function MergePreview(m: Merged): Preview { Preview(m.added, m.updated, 0) }

  // ----- merging ----------------------------------------------------------------------

  /** The last imported rule with this identifier. */
  function LastImport(imported: seq<RuleSpec>, id: string): Option<RuleSpec> {
    if imported == [] then None
    else if imported[|imported| - 1].id == id then Some(imported[|imported| - 1])
    else LastImport(imported[..|imported| - 1], id)
  }

  /** The imported rules that update nothing, in order. */
  function Additions(current: seq<RuleSpec>, imported: seq<RuleSpec>): seq<RuleSpec> {
    if imported == [] then []
    else
      var before := Additions(current, imported[..|imported| - 1]);
      if Known(current, imported[|imported| - 1]) then before else before + [imported[|imported| - 1]]
  }

  /** What stands at position i of the current list after the import. */
  function Survivor(current: seq<RuleSpec>, imported: seq<RuleSpec>, i: nat): RuleSpec
    requires i < |current|
  {
    var id := current[i].id;
    if id != "" && i == LastIndex(current, id) && LastImport(imported, id).Some? then LastImport(imported, id).value
    else current[i]
  }

  /** A merge leaves every rule that is not mentioned where it was, puts the last import of a
      mentioned one in its place, and appends the rest in order. */
  lemma {:induction false} MergeIs(current: seq<RuleSpec>, imported: seq<RuleSpec>)
    ensures var m := Merge(current, imported);
            && (forall i | 0 <= i < |current| :: m.rules[i] == Survivor(current, imported, i))
            && m.rules[|current|..] == Additions(current, imported)
  {
    hide LastIndex;
    if imported == [] {
    } else {
      var front, s := imported[..|imported| - 1], imported[|imported| - 1];
      MergeIs(current, front);
      var m := Merge(current, front);
      if Known(current, s) {
        assert m.rules[LastIndex(current, s.id) := s][|current|..] == m.rules[|current|..];
      } else {
        assert (m.rules + [s])[|current|..] == m.rules[|current|..] + [s];
      }
    }
  }

  // ----- replacing ----------------------------------------------------------------------

  predicate DistinctNames(list: seq<RuleSpec>) {
    forall i, j | 0 <= i < j < |list| :: list[i].id != "" ==> list[i].id != list[j].id
  }

  lemma IdsSnoc(list: seq<RuleSpec>, s: RuleSpec)
    ensures IdsOf(list + [s]) == IdsOf(list) + {s.id}
  {
    assert s in list + [s];
    forall id | id in IdsOf(list) ensures id in IdsOf(list + [s]) {
      var x :| x in list && x.id == id;
      assert x in list + [s];
    }
  }

  lemma LastIndexFinds(list: seq<RuleSpec>, id: string)
    ensures LastIndex(list, id) < |list| <==> id in IdsOf(list)
  {
    if LastIndex(list, id) < |list| {
      assert list[LastIndex(list, id)] in list;
    }
  }

  lemma NewName(front: seq<RuleSpec>, s: RuleSpec)
    requires DistinctNames(front + [s])
    ensures DistinctNames(front) && (s.id != "" ==> s.id !in IdsOf(front))
  {
    var all := front + [s];
    assert forall i | 0 <= i < |front| :: all[i] == front[i];
    assert all[|front|] == s;
  }

  lemma {:induction false} UpdatesAreShared(current: seq<RuleSpec>, imported: seq<RuleSpec>)
    requires DistinctNames(imported)
    ensures Updates(current, imported) == |IdsOf(current) * NamedIds(imported)|
  {
    hide IdsOf, LastIndex, DistinctNames;
    if imported == [] {
      NoIds();
      assert IdsOf(current) * NamedIds([]) == {};
    } else {
      var front, s := imported[..|imported| - 1], imported[|imported| - 1];
      assert imported == front + [s];
      NewName(front, s);
      UpdatesAreShared(current, front);
      SharedNext(IdsOf(current), front, s);
      LastIndexFinds(current, s.id);
    }
  }

  lemma SharedNext(ids: set<string>, front: seq<RuleSpec>, s: RuleSpec)
    requires s.id != "" ==> s.id !in IdsOf(front)
    ensures |ids * NamedIds(front + [s])| == |ids * NamedIds(front)| + if s.id != "" && s.id in ids then 1 else 0
  {
    IdsSnoc(front, s);
    hide IdsOf;
    var before, after := ids * NamedIds(front), ids * NamedIds(front + [s]);
    assert after == if s.id != "" && s.id in ids then before + {s.id} else before;
  }

  lemma NoIds()
    ensures IdsOf([]) == {}
  {
  }

  lemma {:induction false} DistinctCount(list: seq<RuleSpec>)
    requires DistinctNames(list) && "" !in IdsOf(list)
    ensures |IdsOf(list)| == |list|
  {
    if list == [] {
    } else {
      var front, s := list[..|list| - 1], list[|list| - 1];
      assert list == front + [s];
      IdsSnoc(front, s);
      assert s.id !in IdsOf(front);
      DistinctCount(front);
    }
  }

  /** In a replacement whose imported identifiers are distinct every current rule is either
      updated or removed. */
  lemma ReplaceAccountsForAll(current: seq<RuleSpec>, imported: seq<RuleSpec>)
    requires DistinctNames(current) && "" !in IdsOf(current) && DistinctNames(imported)
    ensures var p := ReplacePreview(current, imported);
            p.updated + p.removed == |current| && p.added + p.updated == |imported|
  {
    hide LastIndex, Updates;
    UpdatesAreShared(current, imported);
    DistinctCount(current);
    var ids, named := IdsOf(current), NamedIds(imported);
    assert ids == (ids * named) + (ids - named);
  }

  // ----- as loops -----------------------------------------------------------------------

  lemma TakeSnoc(list: seq<RuleSpec>, k: nat)
    requires k < |list|
    ensures list[..k + 1] == list[..k] + [list[k]] && list[..k + 1][..k] == list[..k]
  {
  }

  lemma LastIndexSnoc(list: seq<RuleSpec>, k: nat, id: string)
    requires k < |list|
    ensures LastIndex(list[..k + 1], id) ==
      if list[k].id == id then k else if LastIndex(list[..k], id) == k then k + 1 else LastIndex(list[..k], id)
  {
    TakeSnoc(list, k);
  }

  ghost predicate PositionsOk(positions: map<string, nat>, list: seq<RuleSpec>) {
    forall id :: (id in positions <==> LastIndex(list, id) < |list|) && (id in positions ==> positions[id] == LastIndex(list, id))
  }

  /** The position of every identifier; a later rule hides an earlier one. */
  method Positions(list: seq<RuleSpec>) returns (positions: map<string, nat>)
    ensures PositionsOk(positions, list)
  {
    hide LastIndex;
    positions := map[];
    NoPositions();
    assert list[..0] == [];
    for k := 0 to |list|
      invariant PositionsOk(positions, list[..k])
    {
      forall id ensures LastIndex(list[..k + 1], id) ==
        if list[k].id == id then k else if LastIndex(list[..k], id) == k then k + 1 else LastIndex(list[..k], id)
      {
        LastIndexSnoc(list, k, id);
      }
      positions := positions[list[k].id := k];
    }
    assert list[..|list|] == list;
  }

  lemma NoPositions()
    ensures PositionsOk(map[], [])
  {
  }

  method MergeRules(current: seq<RuleSpec>, imported: seq<RuleSpec>) returns (combined: seq<RuleSpec>, preview: Preview)
    ensures combined == Merge(current, imported).rules && preview == MergePreview(Merge(current, imported))
  {
    hide LastIndex;
    combined := current;
    var added, updated := 0, 0;
    var positions := Positions(current);
    assert imported[..0] == [];
    for k := 0 to |imported|
      invariant Merged(combined, added, updated) == Merge(current, imported[..k])
    {
      TakeSnoc(imported, k);
      var rule := imported[k];
      assert rule.id in positions <==> LastIndex(current, rule.id) < |current|;
      if rule.id in positions && rule.id != "" {
        combined := combined[positions[rule.id] := rule];
        updated := updated + 1;
      } else {
        combined := combined + [rule];
        added := added + 1;
      }
    }
    assert imported[..|imported|] == imported;
    preview := Preview(added, updated, 0);
  }

  /** How many of the current identifiers are not imported. */
  method CountMissing(currentIds: set<string>, importedIds: set<string>) returns (removed: nat)
    ensures removed == |currentIds - importedIds|
  {
    removed := 0;
    var rest := currentIds;
    while rest != {}
      invariant rest <= currentIds
      invariant removed + |rest - importedIds| == |currentIds - importedIds|
      decreases |rest|
    {
      var id :| id in rest;
      assert rest - importedIds == (rest - {id} - importedIds) + ({id} - importedIds);
      rest := rest - {id};
      if id !in importedIds { removed := removed + 1; }
    }
  }

  method ReplaceRules(current: seq<RuleSpec>, imported: seq<RuleSpec>) returns (combined: seq<RuleSpec>, preview: Preview)
    ensures combined == imported && preview == ReplacePreview(current, imported)
  {
    hide LastIndex, IdsOf;
    combined := imported;
    var added, updated := 0, 0;
    var currentIds, importedIds := set s | s in current :: s.id, {};
    CurrentIds(current);
    NoIds();
    assert imported[..0] == [];
    for k := 0 to |imported|
      invariant updated == Updates(current, imported[..k]) && added == k - updated
      invariant importedIds == NamedIds(imported[..k])
    {
      TakeSnoc(imported, k);
      IdsSnoc(imported[..k], imported[k]);
      LastIndexFinds(current, imported[k].id);
      if imported[k].id != "" { importedIds := importedIds + {imported[k].id}; }
      if imported[k].id in currentIds && imported[k].id != "" {
        updated := updated + 1;
      } else {
        added := added + 1;
      }
    }
    assert imported[..|imported|] == imported;
    var removed := CountMissing(currentIds, importedIds);
    preview := Preview(added, updated, removed);
  }

  datatype Combination = UnknownMode | Combined(rules: seq<RuleSpec>, preview: Preview)

  /** An import without a mode is a merge. */
  function Combine(current: seq<RuleSpec>, imported: seq<RuleSpec>, mode: string): Combination {
    if mode == "" || mode == "merge" then Combined(Merge(current, imported).rules, MergePreview(Merge(current, imported)))
    else if mode == "replace" then Combined(imported, ReplacePreview(current, imported))
    else UnknownMode
  }

  method CombineRules(current: seq<RuleSpec>, imported: seq<RuleSpec>, mode: string) returns (r: Combination)
    ensures r == Combine(current, imported, mode)
  {
    hide Merge, ReplacePreview;
    if mode != "" && mode != "merge" && mode != "replace" { return UnknownMode; }
    var rules, preview;
    if mode == "replace" {
      rules, preview := ReplaceRules(current, imported);
    } else {
      rules, preview := MergeRules(current, imported);
    }
    return Combined(rules, preview);
  }

  // ----- what each mode does --------------------------------------------------------------

  /** The imported rule has no identifier, or one that no current rule has. */
  predicate IsNew(ids: set<string>, s: RuleSpec) { s.id == "" || s.id !in ids }

  function NewRules(ids: set<string>, imported: seq<RuleSpec>): seq<RuleSpec> { Filter(imported, s => IsNew(ids, s)) }

  lemma NewRulesSnoc(ids: set<string>, front: seq<RuleSpec>, s: RuleSpec)
    ensures NewRules(ids, front + [s]) == NewRules(ids, front) + (if IsNew(ids, s) then [s] else [])
  {
    FilterSnoc(front, s, s => IsNew(ids, s));
  }

  lemma {:induction false} AdditionsAreNew(current: seq<RuleSpec>, imported: seq<RuleSpec>)
    ensures Additions(current, imported) == NewRules(IdsOf(current), imported)
    ensures Updates(current, imported) == |imported| - |NewRules(IdsOf(current), imported)|
  {
    hide IdsOf, LastIndex, NewRules;
    if imported == [] {
      NothingNew(IdsOf(current));
    } else {
      var front, s := imported[..|imported| - 1], imported[|imported| - 1];
      assert imported == front + [s];
      AdditionsAreNew(current, front);
      NewRulesSnoc(IdsOf(current), front, s);
      LastIndexFinds(current, s.id);
    }
  }

  lemma NothingNew(ids: set<string>)
    ensures NewRules(ids, []) == []
  {
  }

  lemma LastOfDistinct(current: seq<RuleSpec>, i: nat)
    requires DistinctNames(current) && i < |current| && current[i].id != ""
    ensures LastIndex(current, current[i].id) == i
  {
  }

  /** The two ways to import into a list of named rules, as every stored list is. A merge, which is also
      what no mode means, puts the last import of a rule in its place, leaves the others, and appends
      what is new in order; a replacement leaves exactly the imported rules. The preview counts what
      is new, what is not, and what disappears. Any other mode is refused. */
  lemma CombineByMode(current: seq<RuleSpec>, imported: seq<RuleSpec>, mode: string)
    requires DistinctNames(current) && "" !in IdsOf(current)
    ensures var r, added := Combine(current, imported, mode), NewRules(IdsOf(current), imported);
            && (r.UnknownMode? <==> mode !in {"", "merge", "replace"})
            && (mode in {"", "merge"} ==>
                  && |r.rules| == |current| + |added| && r.rules[|current|..] == added
                  && (forall i | 0 <= i < |current| ::
                        r.rules[i] == if LastImport(imported, current[i].id).Some? then LastImport(imported, current[i].id).value else current[i])
                  && r.preview == Preview(|added|, |imported| - |added|, 0))
            && (mode == "replace" ==>
                  && r.rules == imported
                  && r.preview == Preview(|added|, |imported| - |added|, |IdsOf(current) - IdsOf(imported)|))
  {
    hide LastIndex, IdsOf, NewRules, Merge;
    MergeIs(current, imported);
    AdditionsAreNew(current, imported);
    forall i | 0 <= i < |current| ensures current[i].id != "" && LastIndex(current, current[i].id) == i {
      NamedAt(current, i);
      LastOfDistinct(current, i);
    }
    assert IdsOf(current) - NamedIds(imported) == IdsOf(current) - IdsOf(imported);
  }

  lemma NamedAt(list: seq<RuleSpec>, i: nat)
    requires "" !in IdsOf(list) && i < |list|
    ensures list[i].id != ""
  {
    assert list[i] in list;
  }

  /** The whole of mergeProfileRules: combine, then complete and check the combined list. */
  method MergeProfileRules(m: ManagerObject.Manager, current: seq<RuleSpec>, imported: seq<RuleSpec>, mode: string)
    returns (normalized: seq<RuleSpec>, preview: Preview, error: Option<Failure>)
    modifies m.net`ids
    ensures match Combine(current, imported, mode)
            case UnknownMode => error == Some(BadMode) && m.net.ids == old(m.net.ids)
            case Combined(rules, numbers) =>
              && preview == numbers
              && Checked(normalized, m.net.ids, error) == Normalize(m.net.env, old(m.net.ids), rules)
  {
    hide Combine, Normalize;
    normalized, preview := [], Preview(0, 0, 0);
    var combined := CombineRules(current, imported, mode);
    if combined.UnknownMode? { return normalized, preview, Some(BadMode); }
    preview := combined.preview;
    normalized, error := m.NormalizeRuleSet(combined.rules);
  }

  lemma CurrentIds(current: seq<RuleSpec>)
    ensures (set s | s in current :: s.id) == IdsOf(current)
  {
  }

  // ----- into the manager -----------------------------------------------------------------

  lemma {:induction false} CleanAllAt(env: Env, ids: nat, specs: seq<RuleSpec>, i: nat)
    requires i < |specs| && Normal(specs[i], env.locals)
    ensures CleanAll(env, ids, specs)[i] == specs[i]
  {
    var front, last := specs[..|specs| - 1], specs[|specs| - 1];
    if i < |front| {
      CleanAllAt(env, ids, front, i);
    } else {
      CleanKeeps(env.locals, last, env.ids(ids + Nameless(front)), Sys(map[], 0, 0));
    }
  }

  /** A complete profile is taken as it is. */
  lemma CleanAllKeeps(env: Env, ids: nat, specs: seq<RuleSpec>)
    requires ProfileOk(env.locals, specs)
    ensures CleanAll(env, ids, specs) == specs
  {
    hide CleanAll, Normal;
    forall i | 0 <= i < |specs| ensures CleanAll(env, ids, specs)[i] == specs[i] {
      CleanAllAt(env, ids, specs, i);
    }
  }

  /** An import in merge mode that goes through, from the manager's list to the manager's list:
      as many rules as there were and were added, and every rule that the import does not mention
      is exactly where and what it was. */
  lemma MergedImportKeepsTheRest(env: Env, w: World, imported: seq<RuleSpec>, mode: string, i: nat)
    requires WorldOk(env.locals, w) && i < |SpecsOf(w)| && mode in {"", "merge"}
    requires Combine(SpecsOf(w), imported, mode).Combined?
             && (var c := Normalize(env, w.sys.ids, Combine(SpecsOf(w), imported, mode).rules);
                 && c.error.None?
                 && ReplaceSpecs(env, w.(sys := w.sys.(ids := c.ids)), c.specs).error.None?)
    ensures var current, combined := SpecsOf(w), Combine(SpecsOf(w), imported, mode);
            var c := Normalize(env, w.sys.ids, combined.rules);
            var after := SpecsOf(ReplaceSpecs(env, w.(sys := w.sys.(ids := c.ids)), c.specs).world);
            && |after| == |current| + combined.preview.added
            && ((forall s | s in imported :: s.id != current[i].id) ==> after[i] == current[i])
  {
    hide WorldOk, Normalize, ReplaceSpecs, SpecsOf, ProfileOk, Combine, NewRules, LastIndex, Normal, CleanAll, IdsOf;
    var current, rules := SpecsOf(w), Combine(SpecsOf(w), imported, mode).rules;
    var c := Normalize(env, w.sys.ids, rules);
    var drawn := w.(sys := w.sys.(ids := c.ids));
    NormalizeIsExact(env, w.sys.ids, rules);
    DrawOk(env.locals, w, c.ids);
    ReplaceIsATransaction(env, drawn, c.specs);
    CleanAllKeeps(env, drawn.sys.ids, c.specs);
    WorldHolds(env.locals, w);
    ProfileNames(env.locals, current);
    CombineByMode(current, imported, mode);
    AllNormal(env.locals, current, i);
    if forall s | s in imported :: s.id != current[i].id {
      NotImported(imported, current[i].id);
      CleanAllAt(env, w.sys.ids, rules, i);
    }
  }

  lemma {:induction false} NotImported(imported: seq<RuleSpec>, id: string)
    requires forall s | s in imported :: s.id != id
    ensures LastImport(imported, id) == None
  {
    if imported == [] {
    } else {
      assert imported[|imported| - 1] in imported;
      NotImported(imported[..|imported| - 1], id);
    }
  }

  lemma AllNormal(locals: set<IP>, specs: seq<RuleSpec>, i: nat)
    requires ProfileOk(locals, specs) && i < |specs|
    ensures Normal(specs[i], locals)
  {
  }

  /** A replacement that goes through accounts for every rule the manager had. */
  lemma ReplacedImportAccountsForAll(env: Env, w: World, imported: seq<RuleSpec>)
    requires WorldOk(env.locals, w) && Normalize(env, w.sys.ids, imported).error.None?
    ensures Combine(SpecsOf(w), imported, "replace").Combined?
    ensures var p := Combine(SpecsOf(w), imported, "replace").preview;
            p.updated + p.removed == |SpecsOf(w)| && p.added + p.updated == |imported|
  {
    hide WorldOk, Normalize, SpecsOf, ReplacePreview;
    WorldHolds(env.locals, w);
    NormalizeIsExact(env, w.sys.ids, imported);
    ProfileNames(env.locals, SpecsOf(w));
    AcceptedNames(env, w.sys.ids, imported);
    ReplaceAccountsForAll(SpecsOf(w), imported);
  }

  lemma ProfileNames(locals: set<IP>, specs: seq<RuleSpec>)
    requires ProfileOk(locals, specs)
    ensures DistinctNames(specs) && "" !in IdsOf(specs)
  {
    hide Conflict, Validate, ApplyDefaults;
  }

  lemma {:induction false} CleanAllNames(env: Env, ids: nat, specs: seq<RuleSpec>, i: nat)
    requires i < |specs| && specs[i].id != ""
    ensures CleanAll(env, ids, specs)[i].id == specs[i].id
  {
    if i < |specs| - 1 {
      CleanAllNames(env, ids, specs[..|specs| - 1], i);
    }
  }

  lemma AcceptedNames(env: Env, ids: nat, specs: seq<RuleSpec>)
    requires ProfileOk(env.locals, CleanAll(env, ids, specs))
    ensures DistinctNames(specs)
  {
    hide Conflict, Normal, CleanAll;
    forall i, j | 0 <= i < j < |specs| && specs[i].id != "" ensures specs[i].id != specs[j].id {
      CleanAllNames(env, ids, specs, i);
      if specs[j].id != "" { CleanAllNames(env, ids, specs, j); }
    }
  }
}
