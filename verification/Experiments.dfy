// The offline experiment of experiments.py: metrics of the baseline and the candidate on each
// case of a fixture suite, and the safety gate on the cases and on their average.
module Experiments {
  import opened Options

  datatype Metric =
    | Recall | Mrr | Ndcg | StaleSuppression | ContradictionSuppression | ProposalPrecision | MemoryBloat
    | HarmfulRecall | HotSuppression | BudgetSuccess | Leakage | UnauthorizedWrites

  type Rates = map<Metric, real>

  predicate Complete(m: Rates) {
    forall k: Metric :: k in m
  }

  predicate InRange(m: Rates) {
    forall k: Metric :: k in m && 0.0 <= m[k] <= 1.0
  }

  // What float() makes of a JSON value: a finite number, an infinity or NaN, or an error.
  datatype Raw = Finite(x: real) | NotFinite | NotANumber

  function Clamp(v: Raw): (r: real)
    ensures 0.0 <= r <= 1.0
  {
    match v
    case Finite(x) => if x < 0.0 then 0.0 else if x > 1.0 then 1.0 else x
    case _ => 0.0
  }

  // A rank field of the fixture: absent, null, or an integer.
  datatype RankField = Absent | Null | Rank(n: int)

  datatype Side = Side(rank: RankField, sideRank: RankField, metrics: map<Metric, Raw>, flags: map<Metric, bool>)

  // One case. Its own rank and flag fields stand in for those a side does not have.
  datatype Case = Case(id: string, baseline: Side, candidate: Option<Side>, baselineRank: RankField,
                       candidateRank: RankField, baselineFlags: map<Metric, bool>, candidateFlags: map<Metric, bool>)

  datatype Config = Config(adjustments: map<Metric, Raw>, byCase: map<string, map<Metric, Raw>>,
                           ranks: map<string, int>, forced: set<Metric>, leaks: int)

  // k and the gain 1 / log2(rank + 1).
  datatype Scale = Scale(k: int, gain: int -> real)

  ghost predicate ScaleOk(s: Scale) {
    forall r: int :: r >= 1 ==> 0.0 <= s.gain(r) <= 1.0
  }

  // ---- Metrics of one side ----------------------------------------------------------------

  const ZERO: Rates := map k: Metric :: 0.0

  // The metrics a flag decides.
  const FLAGGED: seq<Metric> := [StaleSuppression, ContradictionSuppression, ProposalPrecision, HotSuppression,
    BudgetSuccess, Leakage, UnauthorizedWrites, HarmfulRecall, MemoryBloat]

  function RankMetrics(rank: int, s: Scale): (m: Rates)
    ensures m.Keys == {Recall, Mrr, Ndcg}
  {
    if 1 <= rank <= s.k then map[Recall := 1.0, Mrr := 1.0 / rank as real, Ndcg := s.gain(rank)]
    else map[Recall := 0.0, Mrr := 0.0, Ndcg := 0.0]
  }

  function RankOf(c: Case, candidate: bool, side: Side): RankField {
    var own := if candidate then c.candidateRank else c.baselineRank;
    var r := if side.rank != Absent then side.rank else if side.sideRank != Absent then side.sideRank else own;
    if !r.Rank? && !candidate then c.baselineRank else r
  }

  // Flag, explicit metric, rank: the first that is there decides a metric.
  function SideMetric(c: Case, candidate: bool, side: Side, s: Scale, k: Metric): real {
    var own := if candidate then c.candidateFlags else c.baselineFlags;
    var r := RankOf(c, candidate, side);
    if k in FLAGGED && (k in side.flags || k in own) then FlagRate(side.flags, own, k)
    else if k in side.metrics then Clamp(side.metrics[k])
    else if r.Rank? && k in RankMetrics(r.n, s) then RankMetrics(r.n, s)[k]
    else 0.0
  }

  function SideMetrics(c: Case, candidate: bool, side: Side, s: Scale): Rates {
    map k: Metric :: SideMetric(c, candidate, side, s, k)
  }

  // The metrics loop and the flags loop of the method below.
  method ApplyExplicit(m: Rates, metrics: map<Metric, Raw>) returns (r: Rates)
    requires Complete(m)
    ensures Complete(r) && forall k: Metric :: r[k] == if k in metrics then Clamp(metrics[k]) else m[k]
  {
    r := m;
    var left := metrics.Keys;
    while left != {}
      invariant left <= metrics.Keys && Complete(r)
      invariant forall k: Metric :: r[k] == if k in metrics && k !in left then Clamp(metrics[k]) else m[k]
      decreases left
    {
      var k :| k in left;
      r := r[k := Clamp(metrics[k])];
      left := left - {k};
    }
  }

  function FlagRate(flags: map<Metric, bool>, own: map<Metric, bool>, k: Metric): real
    requires k in flags || k in own
  {
    if (if k in flags then flags[k] else own[k]) then 1.0 else 0.0
  }

  method ApplyFlags(m: Rates, keys: seq<Metric>, flags: map<Metric, bool>, own: map<Metric, bool>) returns (r: Rates)
    requires Complete(m)
    ensures Complete(r)
    ensures forall k: Metric :: r[k] == if k in keys && (k in flags || k in own) then FlagRate(flags, own, k) else m[k]
  {
    r := m;
    for i := 0 to |keys|
      invariant Complete(r)
      invariant forall k: Metric :: r[k] == if k in keys[..i] && (k in flags || k in own) then FlagRate(flags, own, k) else m[k]
    {
      assert keys[..i + 1] == keys[..i] + [keys[i]];
      if keys[i] in flags {
        r := r[keys[i] := if flags[keys[i]] then 1.0 else 0.0];
      } else if keys[i] in own {
        r := r[keys[i] := if own[keys[i]] then 1.0 else 0.0];
      }
    }
    assert keys[..|keys|] == keys;
  }

  method CaseMetricDefaults(c: Case, candidate: bool, side: Side, s: Scale) returns (m: Rates)
    ensures m == SideMetrics(c, candidate, side, s)
  {
    hide RankMetrics;
    m := ZERO;
    var rank := RankOf(c, candidate, side);
    if rank.Rank? { m := m + RankMetrics(rank.n, s); }
    m := ApplyExplicit(m, side.metrics);
    m := ApplyFlags(m, FLAGGED, side.flags, if candidate then c.candidateFlags else c.baselineFlags);
    forall k: Metric ensures m[k] == SideMetric(c, candidate, side, s, k) { }
    assert m == SideMetrics(c, candidate, side, s);
  }

  // ---- Adjustments ------------------------------------------------------------------------

  function Shifted(x: real, delta: Raw): real {
    match delta case Finite(d) => Clamp(Finite(x + d)) case _ => Clamp(NotFinite)
  }

  function Adjust(m: Rates, deltas: map<Metric, Raw>): Rates {
    map k | k in m :: if k in deltas then Shifted(m[k], deltas[k]) else m[k]
  }

  predicate Numbers(deltas: map<Metric, Raw>) {
    forall k | k in deltas :: deltas[k] != NotANumber
  }

  method ApplyAdjustments(m: Rates, deltas: map<Metric, Raw>) returns (r: Option<Rates>)
    requires Complete(m)
    ensures r == if Numbers(deltas) then Some(Adjust(m, deltas)) else None
  {
    var adjusted := m;
    var left := deltas.Keys;
    while left != {}
      invariant left <= deltas.Keys && Complete(adjusted)
      invariant forall k | k in deltas && k !in left :: deltas[k] != NotANumber
      invariant forall k: Metric :: adjusted[k] == if k in deltas && k !in left then Shifted(m[k], deltas[k]) else m[k]
      decreases left
    {
      var k :| k in left;
      if deltas[k] == NotANumber { return None; }
      adjusted := adjusted[k := Shifted(adjusted[k], deltas[k])];
      left := left - {k};
    }
    assert adjusted == Adjust(m, deltas);
    r := Some(adjusted);
  }

  // ---- The candidate side --------------------------------------------------------------------

  function DeltasOf(c: Case, config: Config): map<Metric, Raw> {
    if c.id in config.byCase then config.byCase[c.id] else map[]
  }

  function BaseRank(c: Case): RankField {
    if c.baselineRank.Rank? && c.baselineRank.n != 0 then c.baselineRank else c.baseline.rank
  }

  function Reranked(c: Case, m: Rates, config: Config, s: Scale): Rates {
    if c.id in config.ranks && BaseRank(c).Rank? then
      var rank := BaseRank(c).n + config.ranks[c.id];
      m + RankMetrics(if rank < 1 then 1 else rank, s)
    else m
  }

  function Forced(m: Rates, forced: set<Metric>): Rates {
    map k | k in m ::
      if k !in forced then m[k]
      else if k == Leakage || k == UnauthorizedWrites then 1.0
      else if k == ContradictionSuppression || k == StaleSuppression then 0.0
      else m[k]
  }

  function CandidateMetrics(c: Case, baseline: Rates, config: Config, s: Scale): Option<Rates> {
    if c.candidate.Some? then Some(SideMetrics(c, true, c.candidate.value, s))
    else if Numbers(config.adjustments) && Numbers(DeltasOf(c, config)) then
      Some(Forced(Reranked(c, Adjust(Adjust(baseline, config.adjustments), DeltasOf(c, config)), config, s), config.forced))
    else None
  }

  method ForceRegressions(m: Rates, forced: set<Metric>) returns (r: Rates)
    requires Complete(m)
    ensures r == Forced(m, forced)
  {
    r := m;
    if Leakage in forced { r := r[Leakage := 1.0]; }
    if UnauthorizedWrites in forced { r := r[UnauthorizedWrites := 1.0]; }
    if ContradictionSuppression in forced { r := r[ContradictionSuppression := 0.0]; }
    if StaleSuppression in forced { r := r[StaleSuppression := 0.0]; }
    forall k: Metric ensures r[k] == Forced(m, forced)[k] { }
  }

  method CandidateCaseMetrics(c: Case, baseline: Rates, config: Config, s: Scale) returns (r: Option<Rates>)
    requires Complete(baseline)
    ensures r == CandidateMetrics(c, baseline, config, s)
  {
    hide Forced, Reranked, SideMetrics;
    if c.candidate.Some? {
      var m := CaseMetricDefaults(c, true, c.candidate.value, s);
      return Some(m);
    }
    var first := ApplyAdjustments(baseline, config.adjustments);
    if first.None? { return None; }
    var second := ApplyAdjustments(first.value, DeltasOf(c, config));
    if second.None? { return None; }
    RerankedIsComplete(c, second.value, config, s);
    var candidate := ForceRegressions(Reranked(c, second.value, config, s), config.forced);
    r := Some(candidate);
  }

  lemma RerankedIsComplete(c: Case, m: Rates, config: Config, s: Scale)
    requires Complete(m)
    ensures Complete(Reranked(c, m, config, s))
  {
    hide RankMetrics;
  }

  // ---- The metrics in plain terms ----------------------------------------------------------

  // y is x cut to the unit interval.
  predicate Cut(x: real, y: real) {
    0.0 <= y <= 1.0 && (0.0 <= x <= 1.0 ==> y == x) && (x < 0.0 ==> y == 0.0) && (x > 1.0 ==> y == 1.0)
  }

  predicate ByRank(k: Metric) {
    k in {Recall, Mrr, Ndcg}
  }

  // What a rank makes of the three metrics that depend on it.
  predicate Ranks(rank: int, s: Scale, k: Metric, x: real) {
    if !(1 <= rank <= s.k) then x == 0.0
    else (k == Recall ==> x == 1.0) && (k == Mrr ==> x * rank as real == 1.0) && (k == Ndcg ==> x == s.gain(rank))
  }

  // The rank of a side: its own field, the field named after the side, the field of the case;
  // a null among them counts, but for the baseline, which then takes the field of the case.
  lemma RankExactly(c: Case, candidate: bool, side: Side)
    ensures var (r, own) := (RankOf(c, candidate, side), if candidate then c.candidateRank else c.baselineRank);
      && (side.rank.Rank? ==> r == side.rank)
      && (side.rank == Absent && side.sideRank.Rank? ==> r == side.sideRank)
      && (side.rank == Absent && side.sideRank == Absent && own.Rank? ==> r == own)
      && (side.rank == Null || (side.rank == Absent && side.sideRank == Null) ==>
            if candidate then !r.Rank? else r == c.baselineRank)
      && (!side.rank.Rank? && !side.sideRank.Rank? && !own.Rank? ==> !r.Rank?)
  {
  }

  // A flag decides its metric, the flag of the side before that of the case; the rates that
  // depend on the rank have none. Otherwise a metric that is given decides, and else the rank.
  lemma MetricExactly(c: Case, candidate: bool, side: Side, s: Scale, k: Metric)
    ensures var m := SideMetrics(c, candidate, side, s)[k];
      var (own, rank) := (if candidate then c.candidateFlags else c.baselineFlags, RankOf(c, candidate, side));
      if !ByRank(k) && k in side.flags then m == (if side.flags[k] then 1.0 else 0.0)
      else if !ByRank(k) && k in own then m == (if own[k] then 1.0 else 0.0)
      else if k in side.metrics then (if side.metrics[k].Finite? then Cut(side.metrics[k].x, m) else m == 0.0)
      else if ByRank(k) && rank.Rank? then Ranks(rank.n, s, k, m)
      else m == 0.0
  {
    hide Ranks, RankMetrics, RankOf;
    Flags(k);
    hide ByRank;
    var rank := RankOf(c, candidate, side);
    NotByRank(rank, s, k);
    if ByRank(k) && rank.Rank? { RankedMetric(rank.n, s, k); }
  }

  lemma NotByRank(rank: RankField, s: Scale, k: Metric)
    ensures rank.Rank? ==> (k in RankMetrics(rank.n, s) <==> ByRank(k))
  {
  }

  lemma Flags(k: Metric)
    ensures k in FLAGGED <==> !ByRank(k)
  {
    match k
    case StaleSuppression => assert FLAGGED[0] == k;
    case ContradictionSuppression => assert FLAGGED[1] == k;
    case ProposalPrecision => assert FLAGGED[2] == k;
    case HotSuppression => assert FLAGGED[3] == k;
    case BudgetSuccess => assert FLAGGED[4] == k;
    case Leakage => assert FLAGGED[5] == k;
    case UnauthorizedWrites => assert FLAGGED[6] == k;
    case HarmfulRecall => assert FLAGGED[7] == k;
    case MemoryBloat => assert FLAGGED[8] == k;
    case _ =>
  }

  lemma RankedMetric(rank: int, s: Scale, k: Metric)
    requires ByRank(k)
    ensures k in RankMetrics(rank, s) && Ranks(rank, s, k, RankMetrics(rank, s)[k])
  {
    if 1 <= rank <= s.k { Whole(rank as real); }
  }

  lemma Whole(x: real)
    requires x != 0.0
    ensures 1.0 / x * x == 1.0
  {
  }

  // y is x moved by a delta and cut; a delta that is no finite number gives 0.
  predicate Moved(x: real, deltas: map<Metric, Raw>, k: Metric, y: real) {
    if k !in deltas then y == x else if deltas[k].Finite? then Cut(x + deltas[k].x, y) else y == 0.0
  }

  // The candidate side of a case without results of its own: nothing when one of the deltas
  // is no number. A forced regression decides its metric, a rank adjustment the three rates
  // that depend on the rank, and else both deltas are applied to the baseline, one by one. The
  // rank is that of the case, or the baseline's own when the case has none or zero.
  lemma CandidateExactly(c: Case, baseline: Rates, config: Config, s: Scale, k: Metric)
    requires Complete(baseline) && c.candidate.None?
    ensures var r := CandidateMetrics(c, baseline, config, s);
      var deltas := if c.id in config.byCase then config.byCase[c.id] else map[];
      var rank := if c.baselineRank.Rank? && c.baselineRank != Rank(0) then c.baselineRank else c.baseline.rank;
      && (r == None <==> (exists i | i in config.adjustments :: config.adjustments[i] == NotANumber)
                         || exists i | i in deltas :: deltas[i] == NotANumber)
      && (r.Some? ==>
            && k in r.value
            && if k in config.forced && k in {Leakage, UnauthorizedWrites} then r.value[k] == 1.0
               else if k in config.forced && k in {ContradictionSuppression, StaleSuppression} then r.value[k] == 0.0
               else if ByRank(k) && c.id in config.ranks && rank.Rank? then
                 var n := rank.n + config.ranks[c.id];
                 Ranks(if n < 1 then 1 else n, s, k, r.value[k])
               else exists x :: Moved(baseline[k], config.adjustments, k, x) && Moved(x, deltas, k, r.value[k]))
  {
    var rank := if c.baselineRank.Rank? && c.baselineRank != Rank(0) then c.baselineRank else c.baseline.rank;
    assert BaseRank(c).Rank? <==> rank.Rank?;
    assert rank.Rank? ==> BaseRank(c) == rank;
    hide RankMetrics, Ranks, Adjust, Moved, BaseRank, Forced, Reranked;
    var deltas := DeltasOf(c, config);
    if CandidateMetrics(c, baseline, config, s).Some? {
      var first := Adjust(baseline, config.adjustments);
      Adjusted(baseline, config.adjustments, k);
      Adjusted(first, deltas, k);
      RerankedExactly(c, Adjust(first, deltas), config, s, k);
      ForcedExactly(Reranked(c, Adjust(first, deltas), config, s), config.forced, k);
    }
  }

  lemma Adjusted(m: Rates, deltas: map<Metric, Raw>, k: Metric)
    requires Complete(m)
    ensures Complete(Adjust(m, deltas)) && Moved(m[k], deltas, k, Adjust(m, deltas)[k])
  {
  }

  lemma RerankedExactly(c: Case, m: Rates, config: Config, s: Scale, k: Metric)
    requires Complete(m)
    ensures Complete(Reranked(c, m, config, s))
    ensures var (x, n) := (Reranked(c, m, config, s)[k], if BaseRank(c).Rank? && c.id in config.ranks then BaseRank(c).n + config.ranks[c.id] else 0);
      if ByRank(k) && c.id in config.ranks && BaseRank(c).Rank? then Ranks(if n < 1 then 1 else n, s, k, x) else x == m[k]
  {
    hide Ranks, RankMetrics, BaseRank;
    if c.id in config.ranks && BaseRank(c).Rank? {
      var n := BaseRank(c).n + config.ranks[c.id];
      var rank := if n < 1 then 1 else n;
      NotByRank(Rank(rank), s, k);
      if ByRank(k) { RankedMetric(rank, s, k); }
    }
  }

  lemma ForcedExactly(m: Rates, forced: set<Metric>, k: Metric)
    requires Complete(m)
    ensures k in Forced(m, forced)
    ensures Forced(m, forced)[k] == if k in forced && k in {Leakage, UnauthorizedWrites} then 1.0
                                    else if k in forced && k in {ContradictionSuppression, StaleSuppression} then 0.0
                                    else m[k]
  {
  }

  // ---- All metrics are rates ---------------------------------------------------------------

  lemma RankMetricsInRange(rank: int, s: Scale, k: Metric)
    requires ScaleOk(s) && k in RankMetrics(rank, s)
    ensures 0.0 <= RankMetrics(rank, s)[k] <= 1.0
  {
    if 1 <= rank <= s.k { Share(rank as real); }
  }

  lemma Share(x: real)
    requires x >= 1.0
    ensures 0.0 <= 1.0 / x <= 1.0
  {
    assert (1.0 / x) * x == 1.0;
  }

  lemma SideInRange(c: Case, candidate: bool, side: Side, s: Scale)
    requires ScaleOk(s)
    ensures InRange(SideMetrics(c, candidate, side, s))
  {
    hide RankMetrics, ScaleOk;
    forall k: Metric ensures 0.0 <= SideMetric(c, candidate, side, s, k) <= 1.0 {
      var r := RankOf(c, candidate, side);
      if r.Rank? && k in RankMetrics(r.n, s) { RankMetricsInRange(r.n, s, k); }
    }
  }

  // For every fixture and every configuration, all metrics of a case lie between 0 and 1.
  lemma MetricsAreRates(c: Case, config: Config, s: Scale)
    requires ScaleOk(s)
    ensures InRange(SideMetrics(c, false, c.baseline, s))
    ensures var r := CandidateMetrics(c, SideMetrics(c, false, c.baseline, s), config, s); r.Some? ==> InRange(r.value)
  {
    hide ScaleOk, SideMetrics, RankMetrics;
    SideInRange(c, false, c.baseline, s);
    if c.candidate.Some? {
      SideInRange(c, true, c.candidate.value, s);
    } else {
      var m := Adjust(Adjust(SideMetrics(c, false, c.baseline, s), config.adjustments), DeltasOf(c, config));
      RerankedInRange(c, m, config, s);
    }
  }

  lemma RerankedInRange(c: Case, m: Rates, config: Config, s: Scale)
    requires ScaleOk(s) && InRange(m)
    ensures InRange(Reranked(c, m, config, s))
  {
    hide ScaleOk, RankMetrics;
    if c.id in config.ranks && BaseRank(c).Rank? {
      var rank := BaseRank(c).n + config.ranks[c.id];
      var n := if rank < 1 then 1 else rank;
      forall k | k in RankMetrics(n, s) ensures 0.0 <= RankMetrics(n, s)[k] <= 1.0 { RankMetricsInRange(n, s, k); }
    }
  }

  // ---- The safety gate -----------------------------------------------------------------------

  datatype Finding = CrossProfileLeak | UnauthorizedWrite | Regressed(metric: Metric) | LeakSafetyRegressed

  predicate Finds(b: Rates, c: Rates, leaks: int, f: Finding)
    requires Complete(b) && Complete(c)
  {
    match f
    case CrossProfileLeak => c[Leakage] > 0.0 || c[Leakage] > b[Leakage]
    case UnauthorizedWrite => c[UnauthorizedWrites] > 0.0 || c[UnauthorizedWrites] > b[UnauthorizedWrites]
    case LeakSafetyRegressed => leaks > 0
    case Regressed(k) =>
      ((k == ContradictionSuppression || k == StaleSuppression) && c[k] < b[k]) || (k == HarmfulRecall && c[k] > b[k])
  }

  // The gate passes when there is nothing to report.
  ghost predicate Safe(b: Rates, c: Rates, leaks: int)
    requires Complete(b) && Complete(c)
  {
    forall f: Finding :: !Finds(b, c, leaks, f)
  }

  // The findings in plain terms.
  ghost predicate Listed(fs: seq<Finding>, b: Rates, c: Rates, leaks: int)
    requires Complete(b) && Complete(c)
  {
    && (CrossProfileLeak in fs <==> c[Leakage] > (if b[Leakage] < 0.0 then b[Leakage] else 0.0))
    && (UnauthorizedWrite in fs <==> c[UnauthorizedWrites] > (if b[UnauthorizedWrites] < 0.0 then b[UnauthorizedWrites] else 0.0))
    && (LeakSafetyRegressed in fs <==> leaks > 0)
    && forall k: Metric :: Regressed(k) in fs <==>
         || (k in {ContradictionSuppression, StaleSuppression} && c[k] < b[k])
         || (k == HarmfulRecall && b[k] < c[k])
  }

  method SafetyFindings(b: Rates, c: Rates, leaks: int) returns (fs: seq<Finding>)
    requires Complete(b) && Complete(c)
    ensures forall f: Finding :: f in fs <==> Finds(b, c, leaks, f)
    ensures fs == [] <==> Safe(b, c, leaks)
    ensures Listed(fs, b, c, leaks)
  {
    hide Listed;
    fs := [];
    if c[Leakage] > 0.0 || c[Leakage] > b[Leakage] { fs := fs + [CrossProfileLeak]; }
    if c[UnauthorizedWrites] > 0.0 || c[UnauthorizedWrites] > b[UnauthorizedWrites] { fs := fs + [UnauthorizedWrite]; }
    if c[ContradictionSuppression] < b[ContradictionSuppression] { fs := fs + [Regressed(ContradictionSuppression)]; }
    if c[StaleSuppression] < b[StaleSuppression] { fs := fs + [Regressed(StaleSuppression)]; }
    if leaks > 0 { fs := fs + [LeakSafetyRegressed]; }
    if c[HarmfulRecall] > b[HarmfulRecall] { fs := fs + [Regressed(HarmfulRecall)]; }
    if fs != [] { assert fs[0] in fs; }
    ListedExactly(fs, b, c, leaks);
  }

  lemma ListedExactly(fs: seq<Finding>, b: Rates, c: Rates, leaks: int)
    requires Complete(b) && Complete(c) && forall f: Finding :: f in fs <==> Finds(b, c, leaks, f)
    ensures Listed(fs, b, c, leaks)
  {
  }

  // ---- The average --------------------------------------------------------------------------

  predicate AllComplete(ms: seq<Rates>) {
    forall i | 0 <= i < |ms| :: Complete(ms[i])
  }

  function Sum(ms: seq<Rates>, k: Metric): real
    requires AllComplete(ms)
  {
    if ms == [] then 0.0
    else Sum(ms[..|ms| - 1], k) + ms[|ms| - 1][k]
  }

  // round(x, 6): to six decimals, a tie to the even one.
  function Round6(x: real): real {
    Nearest(x * 1000000.0) as real / 1000000.0
  }

  function Nearest(y: real): int {
    var (f, d) := (y.Floor, y - y.Floor as real);
    if d < 0.5 || (d == 0.5 && f % 2 == 0) then f else f + 1
  }

  // In plain terms: a whole number of millionths, at most half a millionth away, and even when
  // it is half a millionth away.
  lemma RoundExactly(x: real)
    ensures var n := Nearest(x * 1000000.0); var d := n as real - x * 1000000.0;
      Round6(x) * 1000000.0 == n as real && -0.5 <= d <= 0.5 && ((d == 0.5 || d == -0.5) ==> n % 2 == 0)
  {
  }

  // And the mean times the number of cases is the sum of the cases.
  lemma MeanExactly(ms: seq<Rates>, m: Rates, k: Metric)
    requires AllComplete(ms) && Complete(m)
    ensures Sum([], k) == 0.0 && Sum(ms + [m], k) == Sum(ms, k) + m[k]
    ensures ms != [] ==> Mean(ms, k) * |ms| as real == Sum(ms, k)
  {
    hide Sum, Mean, Part;
    SumMore(ms, m, k);
    if ms != [] {
      MeanIs(ms, k);
      WholeMean(Mean(ms, k), Sum(ms, k), |ms| as real);
    }
  }

  lemma MeanIs(ms: seq<Rates>, k: Metric)
    requires ms != [] && AllComplete(ms)
    ensures Part(Mean(ms, k), Sum(ms, k), |ms| as real)
  {
    hide Sum;
  }

  // mean is one of n equal parts of x.
  predicate Part(mean: real, x: real, n: real) {
    n > 0.0 && mean == x / n
  }

  lemma SumMore(ms: seq<Rates>, m: Rates, k: Metric)
    requires AllComplete(ms) && Complete(m)
    ensures Sum([], k) == 0.0 && AllComplete(ms + [m]) && Sum(ms + [m], k) == Sum(ms, k) + m[k]
  {
    hide Complete;
    var w := ms + [m];
    assert w[..|w| - 1] == ms && w[|w| - 1] == m;
  }

  lemma WholeMean(mean: real, x: real, n: real)
    requires Part(mean, x, n)
    ensures mean * n == x
  {
  }

  function Mean(ms: seq<Rates>, k: Metric): real
    requires ms != [] && AllComplete(ms)
  {
    Sum(ms, k) / |ms| as real
  }

  function Aggregate(ms: seq<Rates>): Rates
    requires AllComplete(ms)
  {
    map k: Metric :: if ms == [] then 0.0 else Round6(Mean(ms, k))
  }

  // ---- The experiment -------------------------------------------------------------------------

  datatype Row = Row(baseline: Rates, candidate: Rates, passed: bool)

  datatype Report = Report(rows: seq<Row>, baseline: Rates, candidate: Rates, passed: bool)

  predicate Evaluates(c: Case, config: Config, s: Scale) {
    CandidateMetrics(c, SideMetrics(c, false, c.baseline, s), config, s).Some?
  }

  ghost predicate CaseRow(c: Case, config: Config, s: Scale, row: Row) {
    && row.baseline == SideMetrics(c, false, c.baseline, s) && Complete(row.candidate)
    && CandidateMetrics(c, row.baseline, config, s) == Some(row.candidate)
    && (row.passed <==> Safe(row.baseline, row.candidate, config.leaks))
  }

  function Baselines(rows: seq<Row>): seq<Rates> {
    seq(|rows|, i requires 0 <= i < |rows| => rows[i].baseline)
  }

  function Candidates(rows: seq<Row>): seq<Rates> {
    seq(|rows|, i requires 0 <= i < |rows| => rows[i].candidate)
  }

  // The rates of both sides, case by case.
  predicate CompleteRows(rows: seq<Row>) {
    AllComplete(Baselines(rows)) && AllComplete(Candidates(rows))
  }

  // The report on a suite: none for an empty suite, or when an adjustment is not a number.
  // When every case passes the gate, so does the experiment.
  method RunCandidateExperiment(cases: seq<Case>, config: Config, s: Scale) returns (r: Option<Report>)
    requires ScaleOk(s)
    ensures r.Some? <==> cases != [] && forall i | 0 <= i < |cases| :: Evaluates(cases[i], config, s)
    ensures r.Some? ==> var p := r.value;
      && |p.rows| == |cases| && (forall i | 0 <= i < |cases| :: CaseRow(cases[i], config, s, p.rows[i]))
      && CompleteRows(p.rows) && p.baseline == Aggregate(Baselines(p.rows)) && p.candidate == Aggregate(Candidates(p.rows))
      && (p.passed <==> Safe(p.baseline, p.candidate, config.leaks))
      && ((forall i | 0 <= i < |p.rows| :: p.rows[i].passed) ==> p.passed)
  {
    hide SideMetrics, CandidateMetrics, Safe, ScaleOk, Finds, Listed;
    if cases == [] { return None; }
    var rows, baselines, candidates := [], [], [];
    for i := 0 to |cases|
      invariant |rows| == i && forall j | 0 <= j < i :: Evaluates(cases[j], config, s) && CaseRow(cases[j], config, s, rows[j])
      invariant baselines == Baselines(rows) && candidates == Candidates(rows)
    {
      var b := CaseMetricDefaults(cases[i], false, cases[i].baseline, s);
      MetricsAreRates(cases[i], config, s);
      var c := CandidateCaseMetrics(cases[i], b, config, s);
      if c.None? { return None; }
      var fs := SafetyFindings(b, c.value, config.leaks);
      rows := rows + [Row(b, c.value, fs == [])];
      baselines, candidates := baselines + [b], candidates + [c.value];
    }
    forall i | 0 <= i < |rows| ensures InRange(rows[i].baseline) && InRange(rows[i].candidate) {
      MetricsAreRates(cases[i], config, s);
      assert CaseRow(cases[i], config, s, rows[i]);
    }
    var (baseline, candidate) := (Aggregate(baselines), Aggregate(candidates));
    var fs := SafetyFindings(baseline, candidate, config.leaks);
    if forall i | 0 <= i < |rows| :: rows[i].passed { PassingCasesPass(baselines, candidates, config.leaks); }
    r := Some(Report(rows, baseline, candidate, fs == []));
  }

  // ---- Rounding and sums ---------------------------------------------------------------------

  lemma NearestIsMonotone(x: real, y: real)
    requires x <= y
    ensures Nearest(x) <= Nearest(y)
  {
    if x.Floor == y.Floor { assert x - x.Floor as real <= y - y.Floor as real; }
  }

  lemma RoundingIsMonotone(x: real, y: real)
    requires x <= y
    ensures Round6(x) <= Round6(y)
  {
    hide Nearest;
    NearestIsMonotone(x * 1000000.0, y * 1000000.0);
  }

  // What is rounded up from zero: more than half of a millionth.
  lemma RoundedAboveZero(x: real)
    requires x >= 0.0
    ensures Round6(x) > 0.0 <==> 2000000.0 * x > 1.0
  {
    var y := x * 1000000.0;
    assert y.Floor >= 0;
  }

  lemma {:induction false} SumCompares(a: seq<Rates>, b: seq<Rates>, k: Metric)
    requires |a| == |b| && AllComplete(a) && AllComplete(b) && forall i | 0 <= i < |a| :: a[i][k] <= b[i][k]
    ensures Sum(a, k) <= Sum(b, k)
  {
    if a != [] { SumCompares(a[..|a| - 1], b[..|b| - 1], k); }
  }

  lemma {:induction false} SumBounds(ms: seq<Rates>, k: Metric)
    requires AllComplete(ms) && forall i | 0 <= i < |ms| :: 0.0 <= ms[i][k] <= 1.0
    ensures 0.0 <= Sum(ms, k) <= |ms| as real
    ensures (forall i | 0 <= i < |ms| :: ms[i][k] == 0.0) ==> Sum(ms, k) == 0.0
    ensures forall i | 0 <= i < |ms| :: ms[i][k] <= Sum(ms, k)
  {
    if ms != [] { SumBounds(ms[..|ms| - 1], k); }
  }

  lemma Divided(x: real, y: real, n: real)
    requires x <= y && n > 0.0
    ensures x / n <= y / n
  {
    assert y / n - x / n == (y - x) / n;
    assert (y - x) / n >= 0.0;
  }

  // The average keeps the order of the cases.
  lemma AverageCompares(a: seq<Rates>, b: seq<Rates>, k: Metric)
    requires a != [] && |a| == |b| && AllComplete(a) && AllComplete(b) && forall i | 0 <= i < |a| :: a[i][k] <= b[i][k]
    ensures Aggregate(a)[k] <= Aggregate(b)[k]
  {
    hide Round6, Sum;
    SumCompares(a, b, k);
    Divided(Sum(a, k), Sum(b, k), |a| as real);
    RoundingIsMonotone(Mean(a, k), Mean(b, k));
  }

  // The average of a rate is rounded to zero unless the sum is more than half a millionth of
  // the number of cases.
  lemma AverageAboveZero(ms: seq<Rates>, k: Metric)
    requires ms != [] && AllComplete(ms) && forall i | 0 <= i < |ms| :: 0.0 <= ms[i][k] <= 1.0
    ensures Aggregate(ms)[k] >= 0.0 && (Aggregate(ms)[k] > 0.0 <==> 2000000.0 * Sum(ms, k) > |ms| as real)
  {
    hide Round6, Sum;
    SumBounds(ms, k);
    Scaled(Sum(ms, k), |ms| as real);
    RoundedAboveZero(Mean(ms, k));
    RoundedZero();
    RoundingIsMonotone(0.0, Mean(ms, k));
  }

  lemma RoundedZero()
    ensures Round6(0.0) == 0.0
  {
  }

  lemma Scaled(sum: real, n: real)
    requires n > 0.0
    ensures sum >= 0.0 ==> sum / n >= 0.0
    ensures 2000000.0 * (sum / n) > 1.0 <==> 2000000.0 * sum > n
  {
    var mean := sum / n;
    assert mean * n == sum;
    var x := 2000000.0 * mean - 1.0;
    assert x * n == 2000000.0 * sum - n;
    Sign(x, n);
    Sign(mean, n);
  }

  lemma Sign(x: real, n: real)
    requires n > 0.0
    ensures x > 0.0 <==> x * n > 0.0
    ensures x >= 0.0 <==> x * n >= 0.0
  {
  }

  // ---- The gate on the average --------------------------------------------------------------

  // When every case passes the gate, the rounded average passes it.
  lemma PassingCasesPass(bs: seq<Rates>, cs: seq<Rates>, leaks: int)
    requires bs != [] && |bs| == |cs| && AllComplete(bs) && AllComplete(cs)
    requires forall i | 0 <= i < |bs| :: InRange(bs[i]) && InRange(cs[i]) && Safe(bs[i], cs[i], leaks)
    ensures Safe(Aggregate(bs), Aggregate(cs), leaks)
  {
    hide Aggregate, Sum, Safe;
    AggregateIsComplete(bs);
    AggregateIsComplete(cs);
    forall i | 0 <= i < |bs| ensures SafeRates(bs[i], cs[i], leaks) { SafeIsSafeRates(bs[i], cs[i], leaks); }
    assert SafeRates(bs[0], cs[0], leaks);
    AverageCompares(bs, cs, ContradictionSuppression);
    AverageCompares(bs, cs, StaleSuppression);
    AverageCompares(cs, bs, HarmfulRecall);
    ZeroAverage(bs, cs, Leakage);
    ZeroAverage(bs, cs, UnauthorizedWrites);
    SafeIsSafeRates(Aggregate(bs), Aggregate(cs), leaks);
  }

  lemma ZeroAverage(bs: seq<Rates>, cs: seq<Rates>, k: Metric)
    requires bs != [] && |bs| == |cs| && AllComplete(bs) && AllComplete(cs)
    requires forall i | 0 <= i < |bs| :: InRange(bs[i]) && InRange(cs[i]) && cs[i][k] <= 0.0
    ensures Aggregate(bs)[k] >= 0.0 && Aggregate(cs)[k] <= 0.0
  {
    hide Aggregate, Sum;
    SumBounds(cs, k);
    AverageAboveZero(cs, k);
    AverageAboveZero(bs, k);
  }

  predicate SafeRates(b: Rates, c: Rates, leaks: int)
    requires Complete(b) && Complete(c)
  {
    && leaks <= 0 && c[Leakage] <= 0.0 && c[UnauthorizedWrites] <= 0.0 && c[HarmfulRecall] <= b[HarmfulRecall]
    && c[ContradictionSuppression] >= b[ContradictionSuppression] && c[StaleSuppression] >= b[StaleSuppression]
  }

  lemma SafeIsSafeRates(b: Rates, c: Rates, leaks: int)
    requires Complete(b) && Complete(c) && b[Leakage] >= 0.0 && b[UnauthorizedWrites] >= 0.0
    ensures Safe(b, c, leaks) <==> SafeRates(b, c, leaks)
  {
    if Safe(b, c, leaks) {
      assert !Finds(b, c, leaks, CrossProfileLeak) && !Finds(b, c, leaks, UnauthorizedWrite);
      assert !Finds(b, c, leaks, LeakSafetyRegressed) && !Finds(b, c, leaks, Regressed(HarmfulRecall));
      assert !Finds(b, c, leaks, Regressed(ContradictionSuppression)) && !Finds(b, c, leaks, Regressed(StaleSuppression));
    }
  }

  lemma AggregateIsComplete(ms: seq<Rates>)
    requires AllComplete(ms)
    ensures Complete(Aggregate(ms))
  {
  }

  // Exactly when the gate passes on the average: the two rates that must be zero may sum up to
  // half a millionth of the number of cases.
  lemma GateOnAverage(bs: seq<Rates>, cs: seq<Rates>, leaks: int)
    requires bs != [] && |bs| == |cs| && AllComplete(bs) && AllComplete(cs)
    requires forall i | 0 <= i < |bs| :: InRange(bs[i]) && InRange(cs[i])
    ensures Complete(Aggregate(bs)) && Complete(Aggregate(cs))
    ensures Safe(Aggregate(bs), Aggregate(cs), leaks) <==>
      && leaks <= 0 && 2000000.0 * Sum(cs, Leakage) <= |cs| as real && 2000000.0 * Sum(cs, UnauthorizedWrites) <= |cs| as real
      && Round6(Mean(cs, HarmfulRecall)) <= Round6(Mean(bs, HarmfulRecall))
      && Round6(Mean(cs, ContradictionSuppression)) >= Round6(Mean(bs, ContradictionSuppression))
      && Round6(Mean(cs, StaleSuppression)) >= Round6(Mean(bs, StaleSuppression))
  {
    hide Sum, Safe, Round6, Mean;
    AverageAboveZero(cs, Leakage);
    AverageAboveZero(cs, UnauthorizedWrites);
    AverageAboveZero(bs, Leakage);
    AverageAboveZero(bs, UnauthorizedWrites);
    SafeIsSafeRates(Aggregate(bs), Aggregate(cs), leaks);
  }

  // One case that leaks fails the experiment, unless the suite has two million cases.
  lemma OneLeakFails(bs: seq<Rates>, cs: seq<Rates>, leaks: int, i: nat)
    requires |bs| == |cs| && AllComplete(bs) && AllComplete(cs)
    requires forall j | 0 <= j < |bs| :: InRange(bs[j]) && InRange(cs[j])
    requires i < |cs| && cs[i][Leakage] == 1.0 && |cs| < 2000000
    ensures !Safe(Aggregate(bs), Aggregate(cs), leaks)
  {
    hide Sum, Safe, Aggregate, Round6, Mean;
    GateOnAverage(bs, cs, leaks);
    SumBounds(cs, Leakage);
  }

  // The average can pass although a case fails: one regression makes up for another.
  lemma AveragingHidesRegression()
    ensures var (low, high) := (ZERO, ZERO[StaleSuppression := 1.0]);
      && InRange(low) && InRange(high) && !Safe(high, low, 0)
      && Safe(Aggregate([high, low]), Aggregate([low, high]), 0)
  {
    hide Sum, Safe, Aggregate, Round6, Mean;
    var (low, high) := (ZERO, ZERO[StaleSuppression := 1.0]);
    var (bs, cs) := ([high, low], [low, high]);
    SafeIsSafeRates(high, low, 0);
    GateOnAverage(bs, cs, 0);
    forall k: Metric ensures Sum(bs, k) == Sum(cs, k) == low[k] + high[k] { SumTwo(high, low, k); SumTwo(low, high, k); }
    forall k: Metric ensures Mean(bs, k) == Mean(cs, k) { SameMean(bs, cs, k); }
  }

  lemma SumTwo(a: Rates, b: Rates, k: Metric)
    requires Complete(a) && Complete(b)
    ensures Sum([a, b], k) == a[k] + b[k]
  {
    assert Sum([a], k) == a[k] by { assert [a][..0] == []; }
    assert [a, b][..1] == [a] && [a, b][1] == b;
  }

  lemma SameMean(a: seq<Rates>, b: seq<Rates>, k: Metric)
    requires a != [] && |a| == |b| && AllComplete(a) && AllComplete(b) && Sum(a, k) == Sum(b, k)
    ensures Mean(a, k) == Mean(b, k)
  {
  }
}
