/** Health hysteresis and the routing decision of internal/proxy/health.go, as values, and
    their meaning over whole probe histories. */
module Health {
  import opened Streams
  import opened Specs

  /** What a rule remembers about one endpoint. */
  datatype Probe = Probe(up: bool, failStreak: int, riseStreak: int)

  datatype Route = Route(target: Probe, backup: Probe, usingBackup: bool)

  const FRESH := Probe(true, 0, 0)

  /** The state of a rule made by newRule. */
  function NewRoute(spec: RuleSpec): Route {
    Route(FRESH, FRESH, spec.routingMode == "backup")
  }

  function Threshold(n: int): (t: int)
    ensures t > 0
  {
    if n <= 0 then 2 else n
  }

  /** One outcome, with saturating streaks. */
  function Note(p: Probe, ok: bool, failAfter: int, riseAfter: int): Probe {
    if ok then
      var rise := if p.riseStreak < riseAfter then p.riseStreak + 1 else p.riseStreak;
      Probe(p.up || rise >= riseAfter, 0, rise)
    else
      var fail := if p.failStreak < failAfter then p.failStreak + 1 else p.failStreak;
      Probe(p.up && fail < failAfter, fail, 0)
  }

  function Decide(spec: RuleSpec, r: Route): bool {
    if !spec.HasBackup() || spec.routingMode == "primary" then false
    else if spec.routingMode == "backup" then true
    else if !spec.health.enabled then r.usingBackup
    else if !r.usingBackup then !r.target.up && r.backup.up && spec.health.autoFail
    else !(r.target.up && (spec.health.autoBack || !r.backup.up))
  }

  function DecideFailover(spec: RuleSpec, r: Route): Route { r.(usingBackup := Decide(spec, r)) }

  function NoteProbe(spec: RuleSpec, r: Route, primary: bool, ok: bool): Route {
    var f, g := Threshold(spec.health.failAfter), Threshold(spec.health.riseAfter);
    DecideFailover(spec, if primary then r.(target := Note(r.target, ok, f, g)) else r.(backup := Note(r.backup, ok, f, g)))
  }

  /** An outcome of a health check or of a connection attempt. */
  datatype Outcome = Outcome(primary: bool, endpoint: Endpoint, ok: bool)

  /** Is the outcome about an endpoint that the rule still has? */
  predicate Current(spec: RuleSpec, o: Outcome) {
    if o.primary then spec.target == o.endpoint else spec.backup == Some(o.endpoint)
  }

  function NoteEndpointProbe(spec: RuleSpec, r: Route, o: Outcome): Route {
    if Current(spec, o) then NoteProbe(spec, r, o.primary, o.ok) else r
  }

  predicate IsMode(mode: string) { mode in ["auto", "primary", "backup"] }

  /** A manual choice is refused when it names no mode, or a backup that is not set. */
  predicate ModeAccepted(spec: RuleSpec, mode: string) {
    IsMode(mode) && (mode == "backup" ==> spec.HasBackup())
  }

  function CurrentTarget(spec: RuleSpec, usingBackup: bool): (Endpoint, bool) {
    if usingBackup && spec.HasBackup() then (spec.backup.value, true) else (spec.target, false)
  }

  // ----- runs -----------------------------------------------------------------

  /** The state after a whole list of outcomes, the last one latest. */
  function After(spec: RuleSpec, start: Route, outcomes: seq<Outcome>): Route {
    if outcomes == [] then start
    else
      NoteEndpointProbe(spec, After(spec, start, outcomes[..|outcomes| - 1]), outcomes[|outcomes| - 1])
  }

  /** The results of one endpoint among the outcomes; those of an earlier endpoint do not count. */
  function History(spec: RuleSpec, outcomes: seq<Outcome>, primary: bool): seq<bool> {
    if outcomes == [] then []
    else
      var last := outcomes[|outcomes| - 1];
      var earlier := History(spec, outcomes[..|outcomes| - 1], primary);
      if last.primary == primary && Some(last.endpoint) == (if primary then Some(spec.target) else spec.backup)
      then earlier + [last.ok]
      else earlier
  }

  /** The length of the run of equal results v at the end of the history. */
  function TrailingRun(history: seq<bool>, v: bool): nat {
    if history == [] || history[|history| - 1] != v then 0
    else 1 + TrailingRun(history[..|history| - 1], v)
  }

  /** The verdict of the latest run to reach its threshold, initially up. */
  function Verdict(history: seq<bool>, failAfter: int, riseAfter: int): bool {
    if history == [] then true
    else if TrailingRun(history, true) >= riseAfter then true
    else if TrailingRun(history, false) >= failAfter then false
    else Verdict(history[..|history| - 1], failAfter, riseAfter)
  }

  function Summarised(history: seq<bool>, failAfter: int, riseAfter: int): Probe {
    Probe(Verdict(history, failAfter, riseAfter),
          Min(failAfter, TrailingRun(history, false)), Min(riseAfter, TrailingRun(history, true)))
  }

  lemma NoteSummarised(history: seq<bool>, ok: bool, failAfter: int, riseAfter: int)
    requires failAfter > 0 && riseAfter > 0
    ensures Note(Summarised(history, failAfter, riseAfter), ok, failAfter, riseAfter)
         == Summarised(history + [ok], failAfter, riseAfter)
  {
    assert (history + [ok])[..|history|] == history;
    RunsAgree(history, failAfter, riseAfter);
  }

  /** A run that has reached its threshold has given the verdict. */
  lemma {:induction false} RunsAgree(history: seq<bool>, failAfter: int, riseAfter: int)
    requires failAfter > 0 && riseAfter > 0
    ensures TrailingRun(history, true) >= riseAfter ==> Verdict(history, failAfter, riseAfter)
    ensures TrailingRun(history, false) >= failAfter ==> !Verdict(history, failAfter, riseAfter)
    ensures TrailingRun(history, true) == 0 || TrailingRun(history, false) == 0
  {
    if history != [] {
      if history[|history| - 1] {
        assert TrailingRun(history, false) == 0;
      } else {
        assert TrailingRun(history, true) == 0;
      }
    }
  }

  function ProbeOf(r: Route, primary: bool): Probe { if primary then r.target else r.backup }

  /** An endpoint whose counters summarise its earlier results goes on summarising them, from any
      route and whatever happens to the other endpoint. */
  lemma {:induction false} StreaksContinue(spec: RuleSpec, start: Route, earlier: seq<bool>, outcomes: seq<Outcome>, primary: bool)
    requires ProbeOf(start, primary)
          == Summarised(earlier, Threshold(spec.health.failAfter), Threshold(spec.health.riseAfter))
    ensures ProbeOf(After(spec, start, outcomes), primary)
         == Summarised(earlier + History(spec, outcomes, primary), Threshold(spec.health.failAfter), Threshold(spec.health.riseAfter))
  {
    hide Summarised, Note, Decide;
    if outcomes == [] {
      assert earlier + [] == earlier;
    } else {
      var front, last := outcomes[..|outcomes| - 1], outcomes[|outcomes| - 1];
      StreaksContinue(spec, start, earlier, front, primary);
      var results := History(spec, front, primary);
      NoteSummarised(earlier + results, last.ok, Threshold(spec.health.failAfter), Threshold(spec.health.riseAfter));
      assert earlier + (results + [last.ok]) == (earlier + results) + [last.ok];
    }
  }

  lemma FreshIsSummary(failAfter: int, riseAfter: int)
    requires failAfter > 0 && riseAfter > 0
    ensures Summarised([], failAfter, riseAfter) == FRESH
  {
  }

  /** The bounded counters are an exact summary of the unbounded history: each streak is the
      length of the trailing run cut off at its threshold, and the up flag is the verdict of
      the latest run to reach its threshold. */
  lemma StreaksSummariseHistory(spec: RuleSpec, outcomes: seq<Outcome>, primary: bool)
    ensures ProbeOf(After(spec, NewRoute(spec), outcomes), primary)
         == Summarised(History(spec, outcomes, primary),
              if spec.health.failAfter > 0 then spec.health.failAfter else 2,
              if spec.health.riseAfter > 0 then spec.health.riseAfter else 2)
  {
    FreshIsSummary(Threshold(spec.health.failAfter), Threshold(spec.health.riseAfter));
    StreaksContinue(spec, NewRoute(spec), [], outcomes, primary);
    assert [] + History(spec, outcomes, primary) == History(spec, outcomes, primary);
  }

  /** Down means: some run of failures reached the threshold, and no run of successes has since. */
  lemma {:induction false} DownMeansUnanswered(history: seq<bool>, failAfter: int, riseAfter: int)
    requires failAfter > 0 && riseAfter > 0
    ensures !Verdict(history, failAfter, riseAfter) <==>
      exists i | 0 <= i <= |history| :: Unanswered(history, i, failAfter, riseAfter)
  {
    if history != [] {
      var n := |history| - 1;
      var front := history[..n];
      DownMeansUnanswered(front, failAfter, riseAfter);
      forall i | 0 <= i <= n
        ensures Unanswered(history, i, failAfter, riseAfter) <==>
          Unanswered(front, i, failAfter, riseAfter) && TrailingRun(history, true) < riseAfter
      {
        UnansweredSnoc(history, i, failAfter, riseAfter);
      }
      assert history[..|history|] == history;
      if TrailingRun(history, false) >= failAfter {
        assert Unanswered(history, |history|, failAfter, riseAfter);
      }
    } else {
      assert forall i | 0 <= i <= |history| :: history[..i] == [];
    }
  }

  predicate Unanswered(history: seq<bool>, i: nat, failAfter: int, riseAfter: int)
    requires i <= |history|
  {
    && TrailingRun(history[..i], false) >= failAfter
    && forall j | i < j <= |history| :: TrailingRun(history[..j], true) < riseAfter
  }

  lemma UnansweredSnoc(history: seq<bool>, i: nat, failAfter: int, riseAfter: int)
    requires i < |history|
    ensures Unanswered(history, i, failAfter, riseAfter) <==>
      Unanswered(history[..|history| - 1], i, failAfter, riseAfter) && TrailingRun(history, true) < riseAfter
  {
    hide TrailingRun;
    var front := history[..|history| - 1];
    assert history[..|history|] == history;
    assert forall j | 0 <= j < |history| :: front[..j] == history[..j];
  }

  // ----- failover cannot flap -----------------------------------------------------

  function CountOf(history: seq<bool>, v: bool): nat {
    if history == [] then 0
    else CountOf(history[..|history| - 1], v) + (if history[|history| - 1] == v then 1 else 0)
  }

  /** How often the route changed to (or, for false, away from) the backup. */
  function Switches(spec: RuleSpec, outcomes: seq<Outcome>, toBackup: bool): nat {
    if outcomes == [] then 0
    else
      var front := outcomes[..|outcomes| - 1];
      var before := After(spec, NewRoute(spec), front).usingBackup;
      var after := After(spec, NewRoute(spec), outcomes).usingBackup;
      Switches(spec, front, toBackup) + (if before != after && after == toBackup then 1 else 0)
  }

  /** How often the main address changed to up, or to down. */
  function Verdicts(spec: RuleSpec, outcomes: seq<Outcome>, up: bool): nat {
    if outcomes == [] then 0
    else
      var front := outcomes[..|outcomes| - 1];
      var before := After(spec, NewRoute(spec), front).target.up;
      var after := After(spec, NewRoute(spec), outcomes).target.up;
      Verdicts(spec, front, up) + (if before != after && after == up then 1 else 0)
  }

  /** Every change of verdict has used up a whole threshold of outcomes of its own. */
  predicate VerdictsPaid(failAfter: int, riseAfter: int, p: Probe, downs: nat, ups: nat, failures: nat, successes: nat) {
    && failAfter * downs + (if p.up then p.failStreak else 0) <= failures
    && riseAfter * ups + (if p.up then 0 else p.riseStreak) <= successes
    && (p.up ==> p.failStreak < failAfter)
    && (!p.up ==> p.riseStreak < riseAfter)
  }

  lemma VerdictsStayPaid(failAfter: int, riseAfter: int, p: Probe, ok: bool, downs: nat, ups: nat, failures: nat, successes: nat)
    requires failAfter > 0 && riseAfter > 0 && p.failStreak >= 0 && p.riseStreak >= 0
    requires VerdictsPaid(failAfter, riseAfter, p, downs, ups, failures, successes)
    ensures var q := Note(p, ok, failAfter, riseAfter);
            VerdictsPaid(failAfter, riseAfter, q,
                         downs + (if p.up && !q.up then 1 else 0), ups + (if !p.up && q.up then 1 else 0),
                         failures + (if ok then 0 else 1), successes + (if ok then 1 else 0))
  {
    assert failAfter * (downs + 1) == failAfter * downs + failAfter;
    assert riseAfter * (ups + 1) == riseAfter * ups + riseAfter;
  }

  lemma {:induction false} PaidSoFar(spec: RuleSpec, outcomes: seq<Outcome>, f: int, g: int)
    requires f == Threshold(spec.health.failAfter) && g == Threshold(spec.health.riseAfter)
    ensures var target := After(spec, NewRoute(spec), outcomes).target;
            var history := History(spec, outcomes, true);
            && target.failStreak >= 0 && target.riseStreak >= 0
            && VerdictsPaid(f, g, target, Verdicts(spec, outcomes, false), Verdicts(spec, outcomes, true),
                            CountOf(history, false), CountOf(history, true))
  {
    hide VerdictsPaid, Note, Verdicts, After, NewRoute, CountOf, History, Threshold;
    if outcomes == [] {
      NothingYet(spec);
      NothingToPay(f, g);
    } else {
      var front, last := outcomes[..|outcomes| - 1], outcomes[|outcomes| - 1];
      PaidSoFar(spec, front, f, g);
      OneMore(spec, front, last);
      assert front + [last] == outcomes;
      var history, before := History(spec, front, true), After(spec, NewRoute(spec), front).target;
      VerdictsStayPaid(f, g, before, last.ok, Verdicts(spec, front, false), Verdicts(spec, front, true),
                       CountOf(history, false), CountOf(history, true));
      StreaksStayPositive(before, last.ok, f, g);
    }
  }

  lemma NothingYet(spec: RuleSpec)
    ensures After(spec, NewRoute(spec), []).target == FRESH && History(spec, [], true) == []
    ensures forall v :: Verdicts(spec, [], v) == 0 && CountOf([], v) == 0
    ensures Threshold(spec.health.failAfter) > 0 && Threshold(spec.health.riseAfter) > 0
  {
  }

  lemma OneMore(spec: RuleSpec, front: seq<Outcome>, last: Outcome)
    ensures var before := After(spec, NewRoute(spec), front).target;
            var after := After(spec, NewRoute(spec), front + [last]).target;
            var history := History(spec, front, true);
            var mine := last.primary && last.endpoint == spec.target;
            && (forall v :: Verdicts(spec, front + [last], v) ==
                  Verdicts(spec, front, v) + (if before.up != after.up && after.up == v then 1 else 0))
            && (!mine ==> after == before && History(spec, front + [last], true) == history)
            && (mine ==>
                  && after == Note(before, last.ok, Threshold(spec.health.failAfter), Threshold(spec.health.riseAfter))
                  && History(spec, front + [last], true) == history + [last.ok])
            && (forall v :: CountOf(history + [last.ok], v) == CountOf(history, v) + (if last.ok == v then 1 else 0))
            && Threshold(spec.health.failAfter) > 0 && Threshold(spec.health.riseAfter) > 0
  {
    hide Note, Decide;
    assert (front + [last])[..|front|] == front;
    var history := History(spec, front, true);
    assert (history + [last.ok])[..|history|] == history;
  }

  lemma NothingToPay(f: int, g: int)
    requires f > 0 && g > 0
    ensures VerdictsPaid(f, g, FRESH, 0, 0, 0, 0)
  {
  }

  lemma StreaksStayPositive(p: Probe, ok: bool, f: int, g: int)
    requires p.failStreak >= 0 && p.riseStreak >= 0
    ensures Note(p, ok, f, g).failStreak >= 0 && Note(p, ok, f, g).riseStreak >= 0
  {
  }

  lemma VerdictsArePaid(spec: RuleSpec, outcomes: seq<Outcome>)
    ensures var f := if spec.health.failAfter > 0 then spec.health.failAfter else 2;
            var g := if spec.health.riseAfter > 0 then spec.health.riseAfter else 2;
            var history := History(spec, outcomes, true);
            var target := After(spec, NewRoute(spec), outcomes).target;
            && target.failStreak >= 0 && target.riseStreak >= 0
            && VerdictsPaid(f, g, target, Verdicts(spec, outcomes, false), Verdicts(spec, outcomes, true),
                            CountOf(history, false), CountOf(history, true))
  {
    hide VerdictsPaid, After, NewRoute;
    PaidSoFar(spec, outcomes, Threshold(spec.health.failAfter), Threshold(spec.health.riseAfter));
  }

  /** The route never changes: chosen by hand, or there is nothing to change to. */
  predicate Fixed(spec: RuleSpec) {
    spec.routingMode == "primary" || spec.routingMode == "backup" || !spec.HasBackup()
  }

  /** Every change of the route follows a change of verdict of its own. */
  lemma {:induction false} SwitchesFollowVerdicts(spec: RuleSpec, outcomes: seq<Outcome>)
    requires spec.routingMode == "backup" ==> spec.HasBackup()
    ensures var r := After(spec, NewRoute(spec), outcomes);
            && Switches(spec, outcomes, true) + (if !r.usingBackup && !r.target.up then 1 else 0)
               <= Verdicts(spec, outcomes, false) + (if Fixed(spec) then 1 else 0)
            && Switches(spec, outcomes, false) + (if r.usingBackup && r.target.up && spec.routingMode != "backup" then 1 else 0)
               <= Verdicts(spec, outcomes, true)
            && (Fixed(spec) ==> r.usingBackup == (spec.routingMode == "backup") && Switches(spec, outcomes, true) == 0)
  {
    if outcomes == [] {
    } else {
      SwitchesFollowVerdicts(spec, outcomes[..|outcomes| - 1]);
    }
  }

  /** Failover cannot flap faster than its thresholds: each switch to the backup costs a full
      threshold of failures of the main address, and each switch back a full threshold of its
      successes, and no outcome pays twice. */
  lemma FailoverCannotFlap(spec: RuleSpec, outcomes: seq<Outcome>)
    requires spec.routingMode == "backup" ==> spec.HasBackup()
    ensures (if spec.health.failAfter > 0 then spec.health.failAfter else 2) * Switches(spec, outcomes, true)
         <= CountOf(History(spec, outcomes, true), false)
    ensures (if spec.health.riseAfter > 0 then spec.health.riseAfter else 2) * Switches(spec, outcomes, false)
         <= CountOf(History(spec, outcomes, true), true)
  {
    VerdictsArePaid(spec, outcomes);
    SwitchesFollowVerdicts(spec, outcomes);
    Scaled(Threshold(spec.health.failAfter), Switches(spec, outcomes, true), Verdicts(spec, outcomes, false));
    assert Threshold(spec.health.failAfter) * 0 == 0;
    Scaled(Threshold(spec.health.riseAfter), Switches(spec, outcomes, false), Verdicts(spec, outcomes, true));
  }

  lemma Scaled(k: int, a: nat, b: nat)
    requires k > 0
    ensures a <= b ==> k * a <= k * b
    ensures k * b >= 0
  {
  }

  // ----- where new connections go ---------------------------------------------------

  /** The main address is down and the backup is up. */
  predicate BackupWanted(r: Route) { !r.target.up && r.backup.up }

  /** A route that was `before` and has been decided anew. Without a backup, and in mode primary, it
      leads to the main address; in mode backup to the backup. In mode auto it is taken to the
      backup, or back to the main address, or it is held where it was: without health checks, and
      exactly when neither switch allows to leave what is in use. */
  predicate Settled(spec: RuleSpec, before: bool, r: Route) {
    if !spec.HasBackup() || spec.routingMode == "primary" then !r.usingBackup
    else if spec.routingMode == "backup" then r.usingBackup
    else
      && (!spec.health.enabled ==> r.usingBackup == before)
      && (spec.health.enabled ==>
            && (BackupWanted(r) && spec.health.autoFail ==> r.usingBackup)
            && (r.target.up && (spec.health.autoBack || !r.backup.up) ==> !r.usingBackup)
            && (!r.target.up && !r.backup.up ==> r.usingBackup == before)
            && (BackupWanted(r) && !spec.health.autoFail ==> r.usingBackup == before)
            && (r.target.up && r.backup.up && !spec.health.autoBack ==> r.usingBackup == before))
  }

  lemma DecisionSettles(spec: RuleSpec, r: Route)
    ensures Settled(spec, r.usingBackup, DecideFailover(spec, r))
    ensures DecideFailover(spec, r).target == r.target && DecideFailover(spec, r).backup == r.backup
  {
  }

  /** After any outcomes the route follows the latest of them, and new connections go where it leads. */
  lemma {:induction false} RouteMovesOrHolds(spec: RuleSpec, outcomes: seq<Outcome>)
    requires spec.routingMode == "backup" ==> spec.HasBackup()
    ensures var before := After(spec, NewRoute(spec), outcomes[..if outcomes == [] then 0 else |outcomes| - 1]).usingBackup;
            var r := After(spec, NewRoute(spec), outcomes);
            && Settled(spec, before, r)
            && (r.usingBackup ==> spec.HasBackup() && CurrentTarget(spec, true) == (spec.backup.value, true))
            && CurrentTarget(spec, false) == (spec.target, false)
  {
    if outcomes == [] {
    } else {
      var front, last := outcomes[..|outcomes| - 1], outcomes[|outcomes| - 1];
      RouteMovesOrHolds(spec, front);
      var r := After(spec, NewRoute(spec), front);
      hide After, NoteProbe, Note;
      NoteSettles(spec, r, last);
    }
  }

  lemma NoteSettles(spec: RuleSpec, r: Route, o: Outcome)
    ensures NoteEndpointProbe(spec, r, o) == r || Settled(spec, r.usingBackup, NoteEndpointProbe(spec, r, o))
  {
  }

  lemma {:induction false} RouteIsSettled(spec: RuleSpec, outcomes: seq<Outcome>)
    requires spec.routingMode == "auto" && spec.health.enabled && spec.HasBackup()
    ensures var r := After(spec, NewRoute(spec), outcomes);
            && (BackupWanted(r) && spec.health.autoFail ==> r.usingBackup)
            && (r.target.up && (spec.health.autoBack || !r.backup.up) ==> !r.usingBackup)
            && (!spec.health.autoFail ==> !r.usingBackup)
  {
    if outcomes == [] {
    } else {
      RouteIsSettled(spec, outcomes[..|outcomes| - 1]);
    }
  }

  /** n results of the main address, all the same. */
  function Results(spec: RuleSpec, n: nat, ok: bool): seq<Outcome> {
    if n == 0 then [] else Results(spec, n - 1, ok) + [Outcome(true, spec.target, ok)]
  }

  lemma AfterSnoc(spec: RuleSpec, start: Route, outcomes: seq<Outcome>, last: Outcome)
    ensures After(spec, start, outcomes + [last]) == NoteEndpointProbe(spec, After(spec, start, outcomes), last)
  {
    assert (outcomes + [last])[..|outcomes|] == outcomes;
  }

  /** Failures alone: the main address is up before the threshold and down from then on. */
  lemma {:induction false} AfterFailures(spec: RuleSpec, n: nat)
    ensures var r := After(spec, NewRoute(spec), Results(spec, n, false));
            var f := Threshold(spec.health.failAfter);
            && r.target == Probe(n < f, Min(n, f), 0) && r.backup == FRESH
  {
    if n == 0 {
    } else {
      AfterFailures(spec, n - 1);
      AfterSnoc(spec, NewRoute(spec), Results(spec, n - 1, false), Outcome(true, spec.target, false));
    }
  }

  /** A whole threshold of failures, and then successes. */
  lemma {:induction false} AfterRecovery(spec: RuleSpec, n: nat)
    ensures var f, g := Threshold(spec.health.failAfter), Threshold(spec.health.riseAfter);
            var r := After(spec, NewRoute(spec), Results(spec, f, false) + Results(spec, n, true));
            && r.target == Probe(n >= g, if n == 0 then f else 0, Min(n, g)) && r.backup == FRESH
    ensures var f := Threshold(spec.health.failAfter);
            var r := After(spec, NewRoute(spec), Results(spec, f, false) + Results(spec, n, true));
            spec.routingMode == "auto" && spec.health.enabled && spec.HasBackup() && spec.health.autoFail && !spec.health.autoBack
            ==> r.usingBackup
  {
    hide After;
    var failures := Results(spec, Threshold(spec.health.failAfter), false);
    if n == 0 {
      assert failures + [] == failures;
      AfterFailures(spec, Threshold(spec.health.failAfter));
      if spec.routingMode == "auto" && spec.health.enabled && spec.HasBackup() { RouteIsSettled(spec, failures); }
    } else {
      AfterRecovery(spec, n - 1);
      assert failures + Results(spec, n, true) == (failures + Results(spec, n - 1, true)) + [Outcome(true, spec.target, true)];
      AfterSnoc(spec, NewRoute(spec), failures + Results(spec, n - 1, true), Outcome(true, spec.target, true));
    }
  }

  /** The backup is in use whenever the main address is down and the backup is up, after any
      outcomes, if and only if automatic failover is on: without it failAfter failures of the
      main address are a run after which it is not. */
  lemma FailoverIffEnabled(spec: RuleSpec)
    requires spec.routingMode == "auto" && spec.health.enabled && spec.HasBackup()
    ensures (forall outcomes :: BackupWanted(After(spec, NewRoute(spec), outcomes)) ==> After(spec, NewRoute(spec), outcomes).usingBackup)
        <==> spec.health.autoFail
  {
    forall outcomes | spec.health.autoFail && BackupWanted(After(spec, NewRoute(spec), outcomes))
      ensures After(spec, NewRoute(spec), outcomes).usingBackup
    {
      RouteIsSettled(spec, outcomes);
    }
    var failures := Results(spec, Threshold(spec.health.failAfter), false);
    AfterFailures(spec, Threshold(spec.health.failAfter));
    RouteIsSettled(spec, failures);
    assert BackupWanted(After(spec, NewRoute(spec), failures));
  }

  /** The main address is in use whenever it is up, after any outcomes, if and only if automatic
      failback is on or automatic failover is off: otherwise failAfter failures and then
      riseAfter successes are a run after which it is not. */
  lemma FailbackIffEnabled(spec: RuleSpec)
    requires spec.routingMode == "auto" && spec.health.enabled && spec.HasBackup()
    ensures (forall outcomes :: After(spec, NewRoute(spec), outcomes).target.up ==> !After(spec, NewRoute(spec), outcomes).usingBackup)
        <==> spec.health.autoBack || !spec.health.autoFail
  {
    if spec.health.autoBack || !spec.health.autoFail {
      forall outcomes | After(spec, NewRoute(spec), outcomes).target.up
        ensures !After(spec, NewRoute(spec), outcomes).usingBackup
      {
        RouteIsSettled(spec, outcomes);
      }
    } else {
      var f, g := Threshold(spec.health.failAfter), Threshold(spec.health.riseAfter);
      AfterRecovery(spec, g);
      var run := Results(spec, f, false) + Results(spec, g, true);
      assert After(spec, NewRoute(spec), run).target.up && After(spec, NewRoute(spec), run).usingBackup;
    }
  }

  function BackupFailures(spec: RuleSpec, n: nat): seq<Outcome>
    requires spec.HasBackup()
  {
    if n == 0 then [] else BackupFailures(spec, n - 1) + [Outcome(false, spec.backup.value, false)]
  }

  lemma {:induction false} AfterBackupFailures(spec: RuleSpec, n: nat)
    requires spec.routingMode == "auto" && spec.HasBackup()
    ensures var r := After(spec, NewRoute(spec), BackupFailures(spec, n));
            var f := Threshold(spec.health.failAfter);
            r == Route(FRESH, Probe(n < f, Min(n, f), 0), false)
  {
    if n == 0 {
    } else {
      AfterBackupFailures(spec, n - 1);
      AfterSnoc(spec, NewRoute(spec), BackupFailures(spec, n - 1), Outcome(false, spec.backup.value, false));
    }
  }

  lemma {:induction false} AfterBothFail(spec: RuleSpec, n: nat)
    requires spec.routingMode == "auto" && spec.HasBackup()
    ensures var f := Threshold(spec.health.failAfter);
            After(spec, NewRoute(spec), BackupFailures(spec, f) + Results(spec, n, false))
            == Route(Probe(n < f, Min(n, f), 0), Probe(false, f, 0), false)
  {
    hide After;
    var failures := BackupFailures(spec, Threshold(spec.health.failAfter));
    if n == 0 {
      assert failures + [] == failures;
      AfterBackupFailures(spec, Threshold(spec.health.failAfter));
    } else {
      AfterBothFail(spec, n - 1);
      assert failures + Results(spec, n, false) == (failures + Results(spec, n - 1, false)) + [Outcome(true, spec.target, false)];
      AfterSnoc(spec, NewRoute(spec), failures + Results(spec, n - 1, false), Outcome(true, spec.target, false));
    }
  }

  /** A main address that is down is not enough: when the backup has failed before it, no number of
      errors brings the backup into use, whatever the switches say. */
  lemma DownMainAloneIsNotEnough(spec: RuleSpec)
    requires spec.routingMode == "auto" && spec.HasBackup()
    ensures !(forall outcomes :: !After(spec, NewRoute(spec), outcomes).target.up ==> After(spec, NewRoute(spec), outcomes).usingBackup)
  {
    var f := Threshold(spec.health.failAfter);
    AfterBothFail(spec, f);
    assert !After(spec, NewRoute(spec), BackupFailures(spec, f) + Results(spec, f, false)).target.up;
  }
}
