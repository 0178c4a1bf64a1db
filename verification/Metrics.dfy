/** The rate history of internal/web/metrics.go: rates from counters that may be reset or
    disappear, and how much of the true traffic they account for. */
module Metrics {
  import opened Streams

  datatype Kind = BytesIn | BytesOut | Connections | Failed

  datatype Counters = Counters(bytesIn: int, bytesOut: int, connections: int, failed: int)
  {
    function Get(k: Kind): int {
      match k case BytesIn => bytesIn case BytesOut => bytesOut case Connections => connections case Failed => failed
    }
  }

  const ZERO := Counters(0, 0, 0, 0)

  /** What one rule reports. */
  datatype Snapshot = Snapshot(id: string, counters: Counters, active: int)

  datatype Sample = Sample(at: real, bytesIn: real, bytesOut: real, connections: real, failed: real, active: int)
  {
    function Rate(k: Kind): real {
      match k case BytesIn => bytesIn case BytesOut => bytesOut case Connections => connections case Failed => failed
    }
  }

  const SAMPLES := 300

  datatype History = History(samples: seq<Sample>, previous: map<string, Counters>, last: Option<real>)

  /** What a counter says happened since; after a reset everything it shows is new. */
  function Delta(current: int, previous: int): int {
    if current < previous then current else current - previous
  }

  function Before(previous: map<string, Counters>, id: string): Counters {
    if id in previous then previous[id] else ZERO
  }

  /** The time since the last observation; rates need some. */
  predicate HasRates(last: Option<real>, now: real) { last.Some? && now > last.value }

  function RateSum(previous: map<string, Counters>, rules: seq<Snapshot>, k: Kind, elapsed: real): real
    requires elapsed > 0.0
  {
    if rules == [] then 0.0
    else
      var r := rules[|rules| - 1];
      RateSum(previous, rules[..|rules| - 1], k, elapsed)
      + Delta(r.counters.Get(k), Before(previous, r.id).Get(k)) as real / elapsed
  }

  function ActiveSum(rules: seq<Snapshot>): int {
    if rules == [] then 0 else ActiveSum(rules[..|rules| - 1]) + rules[|rules| - 1].active
  }

  function RateOf(h: History, rules: seq<Snapshot>, now: real, k: Kind): real {
    if HasRates(h.last, now) then RateSum(h.previous, rules, k, now - h.last.value) else 0.0
  }

  function SampleOf(h: History, rules: seq<Snapshot>, now: real): Sample {
    Sample(now, RateOf(h, rules, now, BytesIn), RateOf(h, rules, now, BytesOut),
           RateOf(h, rules, now, Connections), RateOf(h, rules, now, Failed), ActiveSum(rules))
  }

  /** The counters by rule; a later report of the same rule hides an earlier one. */
  function CountersOf(rules: seq<Snapshot>): map<string, Counters> {
    if rules == [] then map[]
    else CountersOf(rules[..|rules| - 1])[rules[|rules| - 1].id := rules[|rules| - 1].counters]
  }

  function Observed(h: History, rules: seq<Snapshot>, now: real): History {
    History(TakeLast(h.samples + [SampleOf(h, rules, now)], SAMPLES), CountersOf(rules), Some(now))
  }

  const EMPTY := History([], map[], None)

  // ----- rates against true traffic -----------------------------------------------------

  /** A report, and what really happened to the rule since the last observation. */
  datatype Measured = Measured(snapshot: Snapshot, truth: Counters)

  /** One observation; `vanished` is what rules did that were removed before it. */
  datatype Observation = Observation(now: real, rules: seq<Measured>, vanished: Counters)

  /** The counter went on from where it was. */
  predicate Unreset(before: int, m: Measured, k: Kind) { m.snapshot.counters.Get(k) == before + m.truth.Get(k) }

  /** It went on, or it was reset and shows at most what happened since. */
  predicate Plausible(before: int, m: Measured, k: Kind) {
    && m.truth.Get(k) >= 0 && m.snapshot.counters.Get(k) >= 0 && before >= 0
    && (Unreset(before, m, k) || m.snapshot.counters.Get(k) <= m.truth.Get(k))
  }

  function Snapshots(rules: seq<Measured>): seq<Snapshot> {
    seq(|rules|, i requires 0 <= i < |rules| => rules[i].snapshot)
  }

  function TruthSum(rules: seq<Measured>, k: Kind): int {
    if rules == [] then 0 else TruthSum(rules[..|rules| - 1], k) + rules[|rules| - 1].truth.Get(k)
  }

  /** The history after these observations. */
  function After(seen: seq<Observation>): History {
    if seen == [] then EMPTY
    else
      var o := seen[|seen| - 1];
      Observed(After(seen[..|seen| - 1]), Snapshots(o.rules), o.now)
  }

  /** What the rule last reported in these; 0 when it did not. */
  function Reported(rules: seq<Measured>, id: string, k: Kind): int {
    if rules == [] then 0
    else if rules[|rules| - 1].snapshot.id == id then rules[|rules| - 1].snapshot.counters.Get(k)
    else Reported(rules[..|rules| - 1], id, k)
  }

  /** What it showed at the latest observation; 0 when it was not there. */
  function Shown(seen: seq<Observation>, id: string, k: Kind): int {
    if seen == [] then 0 else Reported(seen[|seen| - 1].rules, id, k)
  }

  function LastSample(h: History): Sample {
    if h.samples == [] then Sample(0.0, 0.0, 0.0, 0.0, 0.0, 0) else h.samples[|h.samples| - 1]
  }

  /** The sum of rate times elapsed time over all samples that were stored, dropped ones too. */
  function Accounted(seen: seq<Observation>, k: Kind): real {
    if |seen| <= 1 then 0.0
    else
      var n := |seen| - 1;
      Accounted(seen[..n], k) + LastSample(After(seen)).Rate(k) * (seen[n].now - seen[n - 1].now)
  }

  /** What really happened since the first observation. */
  function Truth(seen: seq<Observation>, k: Kind): int {
    if |seen| <= 1 then 0
    else
      var o := seen[|seen| - 1];
      Truth(seen[..|seen| - 1], k) + TruthSum(o.rules, k) + o.vanished.Get(k)
  }

  predicate Increasing(seen: seq<Observation>) {
    forall i | 0 < i < |seen| :: seen[i - 1].now < seen[i].now
  }

  /** Every report is plausible after the one before it. */
  predicate PlausibleRun(seen: seq<Observation>, k: Kind) {
    seen == []
    || (var front, o := seen[..|seen| - 1], seen[|seen| - 1];
        && PlausibleRun(front, k) && o.vanished.Get(k) >= 0
        && forall m | m in o.rules :: Plausible(Shown(front, m.snapshot.id, k), m, k))
  }

  /** No counter was reset and no rule removed with traffic that was not seen. */
  predicate UnresetRun(seen: seq<Observation>, k: Kind) {
    |seen| <= 1
    || (var front, o := seen[..|seen| - 1], seen[|seen| - 1];
        && UnresetRun(front, k) && o.vanished.Get(k) == 0
        && forall m | m in o.rules :: Unreset(Shown(front, m.snapshot.id, k), m, k))
  }

  /** What the rates of these rules stand for. */
  function Worth(previous: map<string, Counters>, rules: seq<Measured>, k: Kind, elapsed: real): real
    requires elapsed > 0.0
  {
    RateSum(previous, Snapshots(rules), k, elapsed) * elapsed
  }

  function DeltaOf(previous: map<string, Counters>, m: Measured, k: Kind): int {
    Delta(m.snapshot.counters.Get(k), Before(previous, m.snapshot.id).Get(k))
  }

  lemma Scaled(sum: real, d: real, elapsed: real)
    requires elapsed > 0.0
    ensures (sum + d / elapsed) * elapsed == sum * elapsed + d
  {
  }

  lemma WorthNext(previous: map<string, Counters>, rules: seq<Measured>, k: Kind, elapsed: real)
    requires elapsed > 0.0 && rules != []
    ensures var n := |rules| - 1;
            Worth(previous, rules, k, elapsed) == Worth(previous, rules[..n], k, elapsed) + DeltaOf(previous, rules[n], k) as real
  {
    hide Delta, Before;
    var n := |rules| - 1;
    assert Snapshots(rules)[..n] == Snapshots(rules[..n]);
    Scaled(RateSum(previous, Snapshots(rules[..n]), k, elapsed), DeltaOf(previous, rules[n], k) as real, elapsed);
  }

  lemma DeltaIsTrue(previous: map<string, Counters>, m: Measured, k: Kind)
    requires Plausible(Before(previous, m.snapshot.id).Get(k), m, k)
    ensures DeltaOf(previous, m, k) <= m.truth.Get(k)
    ensures Unreset(Before(previous, m.snapshot.id).Get(k), m, k) ==> DeltaOf(previous, m, k) == m.truth.Get(k)
  {
  }

  predicate AllPlausible(previous: map<string, Counters>, rules: seq<Measured>, k: Kind) {
    forall m | m in rules :: Plausible(Before(previous, m.snapshot.id).Get(k), m, k)
  }

  predicate AllUnreset(previous: map<string, Counters>, rules: seq<Measured>, k: Kind) {
    forall m | m in rules :: Unreset(Before(previous, m.snapshot.id).Get(k), m, k)
  }

  lemma {:induction false} WorthIsTrue(previous: map<string, Counters>, rules: seq<Measured>, k: Kind, elapsed: real)
    requires elapsed > 0.0 && AllPlausible(previous, rules, k)
    ensures Worth(previous, rules, k, elapsed) <= TruthSum(rules, k) as real
    ensures AllUnreset(previous, rules, k) ==> Worth(previous, rules, k, elapsed) == TruthSum(rules, k) as real
  {
    hide Plausible, Unreset, Worth, DeltaOf;
    if rules == [] {
      WorthNone(previous, k, elapsed);
    } else {
      var n := |rules| - 1;
      WorthIsTrue(previous, rules[..n], k, elapsed);
      WorthNext(previous, rules, k, elapsed);
      assert rules[n] in rules;
      DeltaIsTrue(previous, rules[n], k);
    }
  }

  lemma WorthNone(previous: map<string, Counters>, k: Kind, elapsed: real)
    requires elapsed > 0.0
    ensures Worth(previous, [], k, elapsed) == 0.0
  {
    assert Snapshots([]) == [];
  }

  lemma {:induction false} CountersAreTheReported(rules: seq<Measured>, id: string, k: Kind)
    ensures Before(CountersOf(Snapshots(rules)), id).Get(k) == Reported(rules, id, k)
  {
    if rules == [] {
      assert Snapshots(rules) == [];
    } else {
      var n := |rules| - 1;
      CountersAreTheReported(rules[..n], id, k);
      assert Snapshots(rules)[..n] == Snapshots(rules[..n]);
    }
  }

  /** The history remembers the time and the counters of the latest observation. */
  lemma Remembered(seen: seq<Observation>, id: string, k: Kind)
    ensures seen != [] ==> After(seen).last == Some(seen[|seen| - 1].now)
    ensures Before(After(seen).previous, id).Get(k) == Shown(seen, id, k)
  {
    hide CountersOf, RateOf, ActiveSum, Reported;
    if seen != [] { CountersAreTheReported(seen[|seen| - 1].rules, id, k); }
  }

  lemma SampleIsWorth(h: History, o: Observation, k: Kind)
    requires h.last.Some? && h.last.value < o.now
    ensures LastSample(Observed(h, Snapshots(o.rules), o.now)).Rate(k) * (o.now - h.last.value)
         == Worth(h.previous, o.rules, k, o.now - h.last.value)
  {
    hide RateSum, CountersOf, ActiveSum;
  }

  lemma JudgedAlike(seen: seq<Observation>, rules: seq<Measured>, k: Kind)
    ensures AllPlausible(After(seen).previous, rules, k) <==> forall m | m in rules :: Plausible(Shown(seen, m.snapshot.id, k), m, k)
    ensures AllUnreset(After(seen).previous, rules, k) <==> forall m | m in rules :: Unreset(Shown(seen, m.snapshot.id, k), m, k)
  {
    hide Plausible, Unreset, After, Shown, Before, Counters.Get;
    forall m | m in rules
      ensures Before(After(seen).previous, m.snapshot.id).Get(k) == Shown(seen, m.snapshot.id, k)
    {
      Remembered(seen, m.snapshot.id, k);
    }
  }

  lemma AccountedNext(seen: seq<Observation>, k: Kind, elapsed: real)
    requires |seen| > 1 && elapsed == seen[|seen| - 1].now - seen[|seen| - 2].now > 0.0
    ensures var front, o := seen[..|seen| - 1], seen[|seen| - 1];
            Accounted(seen, k) == Accounted(front, k) + Worth(After(front).previous, o.rules, k, elapsed)
  {
    hide Observed, Worth, LastSample, Sample.Rate;
    var front := seen[..|seen| - 1];
    Remembered(front, "", k);
    SampleIsWorth(After(front), seen[|seen| - 1], k);
  }

  /** With sample times that increase, the rates that are stored never account for more than the true
      traffic, and for all of it when no counter was reset. */
  lemma {:induction false} RatesNeverExceedTraffic(seen: seq<Observation>, k: Kind)
    requires Increasing(seen) && PlausibleRun(seen, k)
    ensures Accounted(seen, k) <= Truth(seen, k) as real
    ensures UnresetRun(seen, k) ==> Accounted(seen, k) == Truth(seen, k) as real
  {
    hide After, TruthSum, Plausible, Unreset, AllPlausible, AllUnreset, Worth, Counters.Get, Shown, Accounted;
    if |seen| > 1 {
      var front, o := seen[..|seen| - 1], seen[|seen| - 1];
      var elapsed := o.now - seen[|seen| - 2].now;
      RatesNeverExceedTraffic(front, k);
      AccountedNext(seen, k, elapsed);
      JudgedAlike(front, o.rules, k);
      WorthIsTrue(After(front).previous, o.rules, k, elapsed);
    } else {
      NothingAccounted(seen, k);
    }
  }

  lemma NothingAccounted(seen: seq<Observation>, k: Kind)
    requires |seen| <= 1
    ensures Accounted(seen, k) == 0.0
  {
  }

  // ----- which samples there are ------------------------------------------------------------

  /** Every sample that was ever stored. */
  function Taken(seen: seq<Observation>): seq<Sample> {
    if seen == [] then [] else Taken(seen[..|seen| - 1]) + [LastSample(After(seen))]
  }

  function ActiveTotal(rules: seq<Measured>): int {
    if rules == [] then 0 else ActiveTotal(rules[..|rules| - 1]) + rules[|rules| - 1].snapshot.active
  }

  lemma {:induction false} ActiveIsTotal(rules: seq<Measured>)
    ensures ActiveSum(Snapshots(rules)) == ActiveTotal(rules)
  {
    if rules == [] {
      assert Snapshots(rules) == [];
    } else {
      var n := |rules| - 1;
      ActiveIsTotal(rules[..n]);
      assert Snapshots(rules)[..n] == Snapshots(rules[..n]);
    }
  }

  lemma SampleNext(seen: seq<Observation>)
    requires seen != []
    ensures var front, o, sample := seen[..|seen| - 1], seen[|seen| - 1], LastSample(After(seen));
            && After(seen).samples == TakeLast(After(front).samples + [sample], 300)
            && sample.at == o.now && sample.active == ActiveTotal(o.rules)
  {
    hide RateOf, CountersOf, ActiveSum, ActiveTotal;
    ActiveIsTotal(seen[|seen| - 1].rules);
  }

  lemma LastOfMore(all: seq<Sample>, sample: Sample)
    ensures TakeLast(TakeLast(all, 300) + [sample], 300) == TakeLast(all + [sample], 300)
  {
  }

  /** There is one sample for each observation, with its time and its active connections, and the
      history holds the last 300 of them. */
  lemma {:induction false} SamplesAreTheLast(seen: seq<Observation>)
    ensures After(seen).samples == TakeLast(Taken(seen), 300) && |Taken(seen)| == |seen|
    ensures forall i | 0 <= i < |seen| :: Taken(seen)[i].at == seen[i].now && Taken(seen)[i].active == ActiveTotal(seen[i].rules)
  {
    hide After, LastSample, ActiveTotal, TakeLast;
    if seen == [] {
      NoSamples();
    } else {
      SamplesAreTheLast(seen[..|seen| - 1]);
      SampleNext(seen);
      LastOfMore(Taken(seen[..|seen| - 1]), LastSample(After(seen)));
    }
  }

  lemma NoSamples()
    ensures After([]).samples == TakeLast([], 300)
  {
  }

  // ----- as the object that is sampled ----------------------------------------------------

  /** The rate of the first n rules. */
  function RateFirst(h: History, rules: seq<Snapshot>, now: real, k: Kind, n: nat): real
    requires n <= |rules|
  {
    RateOf(h, rules[..n], now, k)
  }

  /** The active connections and the counters of the first n rules. */
  function SumFirst(rules: seq<Snapshot>, n: nat): (int, map<string, Counters>)
    requires n <= |rules|
  {
    (ActiveSum(rules[..n]), CountersOf(rules[..n]))
  }

  lemma RateNext(h: History, rules: seq<Snapshot>, now: real, k: Kind, n: nat)
    requires n < |rules|
    ensures RateFirst(h, rules, now, k, n + 1) == RateFirst(h, rules, now, k, n)
      + if HasRates(h.last, now)
        then Delta(rules[n].counters.Get(k), Before(h.previous, rules[n].id).Get(k)) as real / (now - h.last.value) else 0.0
  {
    assert rules[..n + 1][..n] == rules[..n];
  }

  lemma SumNext(rules: seq<Snapshot>, n: nat)
    requires n < |rules|
    ensures SumFirst(rules, n + 1)
         == (SumFirst(rules, n).0 + rules[n].active, SumFirst(rules, n).1[rules[n].id := rules[n].counters])
  {
    assert rules[..n + 1][..n] == rules[..n];
  }

  lemma FirstEnds(h: History, rules: seq<Snapshot>, now: real, k: Kind)
    ensures RateFirst(h, rules, now, k, 0) == 0.0 && RateFirst(h, rules, now, k, |rules|) == RateOf(h, rules, now, k)
    ensures SumFirst(rules, 0) == (0, map[]) && SumFirst(rules, |rules|) == (ActiveSum(rules), CountersOf(rules))
  {
    assert rules[..|rules|] == rules;
  }

  class MetricsHistory {
    var samples: seq<Sample>
    var previous: map<string, Counters>
    var last: Option<real>

    function Value(): History
      reads this
    {
      History(samples, previous, last)
    }

    constructor ()
      ensures Value() == EMPTY
    {
      samples, previous, last := [], map[], None;
    }

    method Observe(rules: seq<Snapshot>, now: real)
      requires |samples| <= SAMPLES
      modifies this
      ensures |samples| <= SAMPLES && Value() == Observed(old(Value()), rules, now)
    {
      hide Sampled, RateOf, ActiveSum, CountersOf;
      ghost var h := Value();
      var sample, next := Sample(now, 0.0, 0.0, 0.0, 0.0, 0), map[];
      SampledEnds(h, rules, now);
      for n := 0 to |rules|
        invariant Value() == h && Sampled(h, rules, now, sample, next, n)
      {
        var r := rules[n];
        SampledNext(h, rules, now, sample, next, n);
        next := next[r.id := r.counters];
        sample := sample.(active := sample.active + r.active);
        if HasRates(last, now) {
          sample := WithRates(sample, r.counters, Before(previous, r.id), now - last.value);
        }
      }
      previous, last := next, Some(now);
      samples := if |samples| == SAMPLES then samples[1..] + [sample] else samples + [sample];
    }
  }

  /** The sample with one more rule's rates. */
  function WithRates(s: Sample, current: Counters, previous: Counters, elapsed: real): Sample
    requires elapsed > 0.0
  {
    s.(bytesIn := s.bytesIn + Delta(current.bytesIn, previous.bytesIn) as real / elapsed,
       bytesOut := s.bytesOut + Delta(current.bytesOut, previous.bytesOut) as real / elapsed,
       connections := s.connections + Delta(current.connections, previous.connections) as real / elapsed,
       failed := s.failed + Delta(current.failed, previous.failed) as real / elapsed)
  }

  /** The sample and the counters once the first n rules are in. */
  predicate Sampled(h: History, rules: seq<Snapshot>, now: real, s: Sample, next: map<string, Counters>, n: nat)
    requires n <= |rules|
  {
    && s.at == now && (s.active, next) == SumFirst(rules, n)
    && s.bytesIn == RateFirst(h, rules, now, BytesIn, n) && s.bytesOut == RateFirst(h, rules, now, BytesOut, n)
    && s.connections == RateFirst(h, rules, now, Connections, n) && s.failed == RateFirst(h, rules, now, Failed, n)
  }

  lemma SampledNext(h: History, rules: seq<Snapshot>, now: real, s: Sample, next: map<string, Counters>, n: nat)
    requires n < |rules| && Sampled(h, rules, now, s, next, n)
    ensures var r := rules[n];
            var t := s.(active := s.active + r.active);
            Sampled(h, rules, now,
                    if HasRates(h.last, now) then WithRates(t, r.counters, Before(h.previous, r.id), now - h.last.value) else t,
                    next[r.id := r.counters], n + 1)
  {
    hide RateFirst, SumFirst, Delta;
    RateNext(h, rules, now, BytesIn, n);
    RateNext(h, rules, now, BytesOut, n);
    RateNext(h, rules, now, Connections, n);
    RateNext(h, rules, now, Failed, n);
    SumNext(rules, n);
  }

  lemma SampledEnds(h: History, rules: seq<Snapshot>, now: real)
    ensures Sampled(h, rules, now, Sample(now, 0.0, 0.0, 0.0, 0.0, 0), map[], 0)
    ensures forall s, next | Sampled(h, rules, now, s, next, |rules|) :: s == SampleOf(h, rules, now) && next == CountersOf(rules)
  {
    FirstEnds(h, rules, now, BytesIn);
    FirstEnds(h, rules, now, BytesOut);
    FirstEnds(h, rules, now, Connections);
    FirstEnds(h, rules, now, Failed);
  }
}
