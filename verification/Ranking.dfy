// Ranking metrics (benchmark.py): normalized discounted cumulative gain, average precision
// and the ceiling of precision at k. Arithmetic is exact; rounding is monotone.
module Ranking {
  type Id = string

  predicate Distinct(ids: seq<Id>) {
    forall i, j | 0 <= i < j < |ids| :: ids[i] != ids[j]
  }

  function Min(a: nat, b: nat): nat {
    if a <= b then a else b
  }

  // ---- Discounted cumulative gain ----------------------------------------------------------

  // Grades of the relevant ids, a gain that grows with the grade (2 ** grade - 1), and a
  // discount that falls with the position (1 / log2(position + 1)).
  datatype Scale = Scale(grades: map<Id, real>, gain: real -> real, discount: nat -> real)

  ghost predicate ScaleOk(s: Scale) {
    && s.gain(0.0) == 0.0 && (forall x, y {:trigger s.gain(x), s.gain(y)} :: x <= y ==> s.gain(x) <= s.gain(y))
    && (forall i {:trigger s.discount(i)} :: s.discount(i) >= 0.0)
    && (forall i, j {:trigger s.discount(i), s.discount(j)} :: i <= j ==> s.discount(j) <= s.discount(i))
    && forall id | id in s.grades :: s.grades[id] >= 0.0
  }

  function Grade(s: Scale, id: Id): real {
    if id in s.grades then s.grades[id] else 0.0
  }

  function Gain(s: Scale, id: Id): real {
    s.gain(Grade(s, id))
  }

  function Times(x: real, y: real): real {
    x * y
  }

  // Sum over the first n positions.
  function Dcg(s: Scale, ids: seq<Id>, n: nat): real
    requires n <= |ids|
  {
    if n == 0 then 0.0 else Dcg(s, ids, n - 1) + Times(Gain(s, ids[n - 1]), s.discount(n - 1))
  }

  function DcgAt(s: Scale, ids: seq<Id>, k: nat): real {
    Dcg(s, ids, Min(k, |ids|))
  }

  // In plain terms: an id at position n, counted from 0, adds its gain times the discount of
  // n as long as n < k; without a grade the gain is that of 0.
  lemma DcgExactly(s: Scale, ids: seq<Id>, id: Id, k: nat)
    ensures DcgAt(s, [], k) == 0.0
    ensures DcgAt(s, ids + [id], k) - DcgAt(s, ids, k) ==
            if |ids| < k then s.gain(if id in s.grades then s.grades[id] else 0.0) * s.discount(|ids|) else 0.0
  {
    var n := Min(k, |ids|);
    assert (ids + [id])[..n] == ids[..n];
    DcgPrefix(s, ids + [id], ids, n);
  }

  function GainSum(s: Scale, ids: seq<Id>, n: nat): real
    requires n <= |ids|
  {
    if n == 0 then 0.0 else GainSum(s, ids, n - 1) + Gain(s, ids[n - 1])
  }

  // The graded ids, from the highest grade to the lowest.
  predicate Ideal(s: Scale, ids: seq<Id>) {
    && Distinct(ids) && (forall id | id in s.grades :: id in ids) && (forall id | id in ids :: id in s.grades)
    && forall i, j | 0 <= i < j < |ids| :: Grade(s, ids[j]) <= Grade(s, ids[i])
  }

  function Without(ids: seq<Id>, j: nat): seq<Id>
    requires j < |ids|
  {
    ids[..j] + ids[j + 1..]
  }

  lemma {:induction false} SumPrefix(s: Scale, a: seq<Id>, b: seq<Id>, n: nat)
    requires n <= |a| && n <= |b| && a[..n] == b[..n]
    ensures GainSum(s, a, n) == GainSum(s, b, n)
  {
    if n > 0 {
      assert a[..n - 1] == a[..n][..n - 1] == b[..n][..n - 1] == b[..n - 1] && a[n - 1] == a[..n][n - 1];
      SumPrefix(s, a, b, n - 1);
    }
  }

  // Taking one id out of a ranking.
  lemma {:induction false} SumWithout(s: Scale, ids: seq<Id>, j: nat, n: nat)
    requires j < n <= |ids|
    ensures GainSum(s, ids, n) == GainSum(s, Without(ids, j), n - 1) + Gain(s, ids[j])
  {
    var w := Without(ids, j);
    if n == j + 1 {
      assert w[..j] == ids[..j];
      SumPrefix(s, ids, w, j);
    } else {
      assert w[n - 2] == ids[n - 1];
      SumWithout(s, ids, j, n - 1);
    }
  }

  // Ids of a ranking that are worth nothing at all.
  lemma {:induction false} SumOfNothing(s: Scale, ids: seq<Id>, n: nat)
    requires n <= |ids| && forall i | 0 <= i < n :: Gain(s, ids[i]) == 0.0
    ensures GainSum(s, ids, n) == 0.0
  {
    if n > 0 { SumOfNothing(s, ids, n - 1); }
  }

  // The same scale with one grade erased.
  function Erase(s: Scale, id: Id): Scale {
    s.(grades := s.grades - {id})
  }

  lemma {:induction false} SumErased(s: Scale, ids: seq<Id>, n: nat, id: Id)
    requires n <= |ids| && forall i | 0 <= i < n :: ids[i] != id
    ensures GainSum(Erase(s, id), ids, n) == GainSum(s, ids, n)
  {
    if n > 0 { SumErased(s, ids, n - 1, id); }
  }

  lemma {:induction false} SumShift(s: Scale, ids: seq<Id>, n: nat)
    requires 0 < n <= |ids|
    ensures GainSum(s, ids, n) == Gain(s, ids[0]) + GainSum(s, ids[1..], n - 1)
  {
    if n > 1 { SumShift(s, ids, n - 1); }
  }

  // The id to set against x: x itself, or the last one.
  lemma PickOut(ids: seq<Id>, x: Id) returns (j: nat)
    requires Distinct(ids) && ids != []
    ensures j < |ids| && |Without(ids, j)| + 1 == |ids| && Distinct(Without(ids, j))
            && forall i | 0 <= i < |Without(ids, j)| :: Without(ids, j)[i] != x
  {
    j := if x in ids then IndexOf(ids, x) else |ids| - 1;
    WithoutDistinct(ids, j);
    assert forall i | 0 <= i < |Without(ids, j)| :: Without(ids, j)[i] in Without(ids, j);
  }

  // The step of the comparison: both sides lose one id, and the one on the right is the best.
  lemma OneBest(s: Scale, best: seq<Id>, n: nat, left: real, less: real, gain: real)
    requires n < |best| && gain <= Gain(s, best[0]) && left == less + gain && less <= GainSum(s, best[1..], n)
    ensures left <= GainSum(s, best, n + 1)
  {
    hide Gain;
    SumShift(s, best, n + 1);
  }

  lemma ErasedSums(s: Scale, ids': seq<Id>, rest: seq<Id>, x: Id, n: nat)
    requires n <= |rest|
    requires forall i | 0 <= i < |ids'| :: ids'[i] != x
    requires forall i | 0 <= i < |rest| :: rest[i] != x
    requires GainSum(Erase(s, x), ids', |ids'|) <= GainSum(Erase(s, x), rest, n)
    ensures GainSum(s, ids', |ids'|) <= GainSum(s, rest, n)
  {
    SumErased(s, ids', |ids'|, x);
    SumErased(s, rest, n, x);
  }

  lemma RestDiffers(s: Scale, best: seq<Id>)
    requires Ideal(s, best) && best != []
    ensures forall i | 0 <= i < |best[1..]| :: best[1..][i] != best[0]
  {
    forall i | 0 <= i < |best[1..]| ensures best[1..][i] != best[0] { assert best[i + 1] != best[0]; }
  }

  // No choice of distinct ids is worth more than as many of the best ones.
  lemma {:induction false} BestAreBest(s: Scale, best: seq<Id>, ids: seq<Id>, n: nat)
    requires ScaleOk(s) && Ideal(s, best) && Distinct(ids) && n <= |best| && n <= |ids| && (n == |ids| || n == |best|)
    ensures GainSum(s, ids, |ids|) <= GainSum(s, best, n)
    decreases |best|
  {
    hide ScaleOk, Ideal, Distinct, Gain, Erase;
    if n == 0 {
      NoneIsBest(s, best, ids);
    } else {
      var j := PickOut(ids, best[0]);
      var (rest, ids') := (best[1..], Without(ids, j));
      IdealRest(s, best);
      BestAreBest(Erase(s, best[0]), rest, ids', n - 1);
      RestDiffers(s, best);
      ErasedSums(s, ids', rest, best[0], n - 1);
      SumWithout(s, ids, j, |ids|);
      BestFirst(s, best, ids[j]);
      OneBest(s, best, n - 1, GainSum(s, ids, |ids|), GainSum(s, ids', |ids'|), Gain(s, ids[j]));
    }
  }

  lemma NoneIsBest(s: Scale, best: seq<Id>, ids: seq<Id>)
    requires ScaleOk(s) && Ideal(s, best) && (ids == [] || best == [])
    ensures GainSum(s, ids, |ids|) == 0.0
  {
    if best == [] { NothingGraded(s, ids); }
    SumOfNothing(s, ids, |ids|);
  }

  lemma NothingGraded(s: Scale, ids: seq<Id>)
    requires ScaleOk(s) && Ideal(s, [])
    ensures forall i | 0 <= i < |ids| :: Gain(s, ids[i]) == 0.0
  {
    var none: seq<Id> := [];
    assert forall id | id in s.grades :: id in none;
  }

  function IndexOf(ids: seq<Id>, x: Id): (j: nat)
    requires x in ids
    ensures j < |ids| && ids[j] == x
  {
    if ids[0] == x then 0 else IndexOf(ids[1..], x) + 1
  }

  lemma WithoutDistinct(ids: seq<Id>, j: nat)
    requires Distinct(ids) && j < |ids|
    ensures Distinct(Without(ids, j)) && ids[j] !in Without(ids, j) && forall x | x in Without(ids, j) :: x in ids
  {
    var w := Without(ids, j);
    forall i | 0 <= i < |w| ensures w[i] == ids[if i < j then i else i + 1] {}
  }

  lemma BestFirst(s: Scale, best: seq<Id>, id: Id)
    requires ScaleOk(s) && Ideal(s, best) && best != []
    ensures Gain(s, id) <= Gain(s, best[0])
  {
    assert best[0] in best;
    assert Grade(s, id) <= Grade(s, best[0]);
  }

  lemma IdealRest(s: Scale, best: seq<Id>)
    requires ScaleOk(s) && Ideal(s, best) && best != []
    ensures ScaleOk(Erase(s, best[0])) && Ideal(Erase(s, best[0]), best[1..])
  {
    var (s', rest) := (Erase(s, best[0]), best[1..]);
    forall id | id in s'.grades ensures id in rest { assert id in best; }
    forall id | id in rest ensures id in s'.grades { assert id in best; }
    forall i, j | 0 <= i < j < |rest| ensures rest[i] != rest[j] && Grade(s', rest[j]) <= Grade(s', rest[i]) {
      assert Grade(s, best[j + 1]) <= Grade(s, best[i + 1]) && best[0] != best[i + 1] && best[0] != best[j + 1];
      assert best[i + 1] in best && best[j + 1] in best;
    }
  }

  // ---- Rearrangement -------------------------------------------------------------------------

  function Total(a: seq<real>, n: nat): real
    requires n <= |a|
  {
    if n == 0 then 0.0 else Total(a, n - 1) + a[n - 1]
  }

  function Weighted(a: seq<real>, d: nat -> real, n: nat): real
    requires n <= |a|
  {
    if n == 0 then 0.0 else Weighted(a, d, n - 1) + Times(a[n - 1], d(n - 1))
  }

  ghost predicate Falling(d: nat -> real) {
    && (forall i {:trigger d(i)} :: d(i) >= 0.0)
    && forall i, j {:trigger d(i), d(j)} :: i <= j ==> d(j) <= d(i)
  }

  // What the difference of the last partial sums weighs, at least.
  function Last(d: nat -> real, n: nat): real {
    if n == 0 then 0.0 else d(n - 1)
  }

  // Partial sums that are never smaller give a weighted sum that is not smaller.
  lemma {:induction false} PartialSumsDecide(a: seq<real>, b: seq<real>, d: nat -> real, n: nat)
    requires Falling(d) && n <= |a| && n <= |b|
    requires forall m | 0 <= m <= n :: Total(a, m) <= Total(b, m)
    ensures Weighted(b, d, n) - Weighted(a, d, n) >= Times(Total(b, n) - Total(a, n), Last(d, n))
  {
    hide Times;
    if n == 0 {
      TimesZero();
    } else {
      PartialSumsDecide(a, b, d, n - 1);
      assert Total(a, n - 1) <= Total(b, n - 1);
      assert n > 1 ==> Last(d, n) <= Last(d, n - 1);
      OneMore(Weighted(b, d, n - 1) - Weighted(a, d, n - 1), Total(b, n - 1) - Total(a, n - 1), Last(d, n - 1), Last(d, n),
        b[n - 1], a[n - 1], n == 1);
    }
  }

  lemma OneMore(sum: real, gap: real, w: real, d: real, x: real, y: real, first: bool)
    requires gap >= 0.0 && sum >= Times(gap, w) && (if first then gap == 0.0 else d <= w)
    ensures sum + Times(x, d) - Times(y, d) >= Times(gap + x - y, d)
  {
    assert (gap + x - y) * d == gap * d + x * d - y * d;
    if !first { assert gap * d <= gap * w; }
  }

  lemma TimesZero()
    ensures Times(0.0, 0.0) == 0.0
  {
  }

  lemma TimesPositive(x: real, y: real)
    requires x >= 0.0 && y >= 0.0
    ensures Times(x, y) >= 0.0
  {
  }

  // The gains of a ranking, with nothing after its end.
  function Gains(s: Scale, ids: seq<Id>, n: nat): seq<real> {
    seq(n, i requires 0 <= i < n => if i < |ids| then Gain(s, ids[i]) else 0.0)
  }

  lemma {:induction false} GainsTotal(s: Scale, ids: seq<Id>, n: nat, m: nat)
    requires m <= n
    ensures Total(Gains(s, ids, n), m) == GainSum(s, ids, Min(m, |ids|))
  {
    if m > 0 { GainsTotal(s, ids, n, m - 1); }
  }

  lemma {:induction false} GainsWeighted(s: Scale, ids: seq<Id>, n: nat, m: nat)
    requires m <= n
    ensures Weighted(Gains(s, ids, n), s.discount, m) == Dcg(s, ids, Min(m, |ids|))
  {
    hide Gain;
    if m > 0 {
      GainsWeighted(s, ids, n, m - 1);
      if m > |ids| { assert Times(0.0, s.discount(m - 1)) == 0.0; }
    }
  }

  lemma PartialRanking(s: Scale, best: seq<Id>, ids: seq<Id>, m: nat)
    requires ScaleOk(s) && Ideal(s, best) && Distinct(ids)
    ensures GainSum(s, ids, Min(m, |ids|)) <= GainSum(s, best, Min(m, |best|))
  {
    var n := Min(m, |ids|);
    var top := ids[..n];
    SumPrefix(s, ids, top, n);
    BestAreBest(s, best, top, Min(n, |best|));
    SumGrows(s, best, Min(n, |best|), Min(m, |best|));
  }

  lemma {:induction false} SumGrows(s: Scale, ids: seq<Id>, n: nat, m: nat)
    requires ScaleOk(s) && n <= m <= |ids|
    ensures GainSum(s, ids, n) <= GainSum(s, ids, m)
  {
    if n < m {
      assert Gain(s, ids[m - 1]) >= 0.0;
      SumGrows(s, ids, n, m - 1);
    }
  }

  // For a ranking without repeated ids, the discounted gain never exceeds that of the
  // sorted grades.
  lemma NoRankingBeatsTheIdeal(s: Scale, best: seq<Id>, ids: seq<Id>, k: nat)
    requires ScaleOk(s) && Ideal(s, best) && Distinct(ids)
    ensures DcgAt(s, ids, k) <= DcgAt(s, best, k)
  {
    var (a, b) := (Gains(s, ids, k), Gains(s, best, k));
    forall m | 0 <= m <= k ensures Total(a, m) <= Total(b, m) {
      GainsTotal(s, ids, k, m);
      GainsTotal(s, best, k, m);
      PartialRanking(s, best, ids, m);
    }
    PartialSumsDecide(a, b, s.discount, k);
    TimesPositive(Total(b, k) - Total(a, k), Last(s.discount, k));
    GainsWeighted(s, ids, k, k);
    GainsWeighted(s, best, k, k);
  }

  // Ties may be broken in any way: all sorted orders have the same discounted gain.
  lemma IdealIsUnique(s: Scale, best: seq<Id>, best': seq<Id>, k: nat)
    requires ScaleOk(s) && Ideal(s, best) && Ideal(s, best')
    ensures DcgAt(s, best, k) == DcgAt(s, best', k)
  {
    NoRankingBeatsTheIdeal(s, best, best', k);
    NoRankingBeatsTheIdeal(s, best', best, k);
  }

  // Rounding to six digits, of which only this much matters.
  ghost predicate Rounding(r: real -> real) {
    r(0.0) == 0.0 && r(1.0) == 1.0 && forall x, y {:trigger r(x), r(y)} :: x <= y ==> r(x) <= r(y)
  }

  function Ndcg(s: Scale, best: seq<Id>, ids: seq<Id>, k: nat, round: real -> real): real {
    if DcgAt(s, best, k) == 0.0 then 0.0 else round(DcgAt(s, ids, k) / DcgAt(s, best, k))
  }

  lemma {:induction false} DcgPositive(s: Scale, ids: seq<Id>, n: nat)
    requires ScaleOk(s) && n <= |ids|
    ensures Dcg(s, ids, n) >= 0.0
  {
    if n > 0 {
      DcgPositive(s, ids, n - 1);
      TimesPositive(Gain(s, ids[n - 1]), s.discount(n - 1));
    }
  }

  // Normalized, it lies between 0 and 1, and the sorted grades reach 1 unless nothing can
  // be gained at all.
  lemma NdcgIsNormalized(s: Scale, best: seq<Id>, ids: seq<Id>, k: nat, round: real -> real)
    requires ScaleOk(s) && Ideal(s, best) && Distinct(ids) && Rounding(round)
    ensures 0.0 <= Ndcg(s, best, ids, k, round) <= 1.0
    ensures Ndcg(s, best, best, k, round) == (if DcgAt(s, best, k) == 0.0 then 0.0 else 1.0)
    ensures DcgAt(s, best, k) != 0.0 ==>
              exists q: real :: q * DcgAt(s, best, k) == DcgAt(s, ids, k) && Ndcg(s, best, ids, k, round) == round(q)
  {
    hide ScaleOk;
    var (x, y) := (DcgAt(s, ids, k), DcgAt(s, best, k));
    NoRankingBeatsTheIdeal(s, best, ids, k);
    DcgPositive(s, ids, Min(k, |ids|));
    DcgPositive(s, best, Min(k, |best|));
    if y != 0.0 {
      Quotient(x, y);
      Quotient(y, y);
      Itself(y);
      assert round(0.0) <= round(x / y) <= round(1.0);
      assert x / y * y == x && Ndcg(s, best, ids, k, round) == round(x / y);
    }
  }

  lemma Itself(y: real)
    requires y != 0.0
    ensures y / y == 1.0
  {
  }

  lemma Quotient(x: real, y: real)
    requires 0.0 <= x <= y && y > 0.0
    ensures 0.0 <= x / y <= 1.0
  {
  }

  // A repeated id is counted again, and can beat the ideal order.
  lemma RepeatedIdBeatsTheIdeal(s: Scale, a: Id, b: Id)
    requires ScaleOk(s) && a != b && s.grades == map[a := 1.0, b := 0.0] && s.gain(1.0) > 0.0 && s.discount(1) > 0.0
    ensures Ideal(s, [a, b]) && DcgAt(s, [a, a], 2) > DcgAt(s, [a, b], 2)
  {
    assert Dcg(s, [a, a], 2) == Dcg(s, [a, a], 1) + Times(s.gain(1.0), s.discount(1));
    assert Dcg(s, [a, b], 2) == Dcg(s, [a, b], 1) + Times(s.gain(0.0), s.discount(1));
    assert Dcg(s, [a, a], 1) == Dcg(s, [a, b], 1) by { DcgPrefix(s, [a, a], [a, b], 1); }
    Bigger(s.gain(1.0), s.discount(1));
  }

  lemma Bigger(x: real, d: real)
    requires x > 0.0 && d > 0.0
    ensures Times(x, d) > 0.0 && Times(0.0, d) == 0.0
  {
  }

  lemma {:induction false} DcgPrefix(s: Scale, a: seq<Id>, b: seq<Id>, n: nat)
    requires n <= |a| && n <= |b| && a[..n] == b[..n]
    ensures Dcg(s, a, n) == Dcg(s, b, n)
  {
    if n > 0 {
      assert a[..n - 1] == a[..n][..n - 1] == b[..n][..n - 1] == b[..n - 1] && a[n - 1] == a[..n][n - 1] && b[n - 1] == b[..n][n - 1];
      DcgPrefix(s, a, b, n - 1);
    }
  }

  // ---- Average precision -------------------------------------------------------------------

  function Hits(ids: seq<Id>, relevant: set<Id>, n: nat): (h: nat)
    requires n <= |ids|
    ensures h <= n
  {
    if n == 0 then 0 else Hits(ids, relevant, n - 1) + (if ids[n - 1] in relevant then 1 else 0)
  }

  // The precision at every hit, summed over the first n positions.
  function PrecisionSum(ids: seq<Id>, relevant: set<Id>, n: nat): real
    requires n <= |ids|
  {
    if n == 0 then 0.0
    else PrecisionSum(ids, relevant, n - 1) + (if ids[n - 1] in relevant then Hits(ids, relevant, n) as real / n as real else 0.0)
  }

  // In plain terms: the hits among the first n positions are counted by position, and an id at
  // position n + 1 that is relevant adds the precision there.
  lemma {:induction false} HitsExactly(ids: seq<Id>, relevant: set<Id>, n: nat)
    requires n <= |ids|
    ensures Hits(ids, relevant, n) == |set i | 0 <= i < n && ids[i] in relevant|
  {
    var found := set i | 0 <= i < n && ids[i] in relevant;
    if n > 0 {
      HitsExactly(ids, relevant, n - 1);
      var before := set i | 0 <= i < n - 1 && ids[i] in relevant;
      if ids[n - 1] in relevant { assert found == before + {n - 1}; } else { assert found == before; }
    }
  }

  lemma PrecisionExactly(ids: seq<Id>, relevant: set<Id>, n: nat)
    requires n < |ids|
    ensures PrecisionSum(ids, relevant, 0) == 0.0
    ensures var hits := set i | 0 <= i <= n && ids[i] in relevant;
            PrecisionSum(ids, relevant, n + 1) - PrecisionSum(ids, relevant, n) ==
            if ids[n] in relevant then |hits| as real / (n + 1) as real else 0.0
  {
    HitsExactly(ids, relevant, n + 1);
    assert (set i | 0 <= i <= n && ids[i] in relevant) == set i | 0 <= i < n + 1 && ids[i] in relevant;
  }

  // The loop of average_precision, before rounding.
  method AveragePrecision(ids: seq<Id>, relevant: set<Id>) returns (r: real)
    ensures r == if relevant == {} then 0.0 else PrecisionSum(ids, relevant, |ids|) / |relevant| as real
    ensures Distinct(ids) ==> r <= 1.0
    ensures Distinct(ids) && relevant != {} ==>
              (r == 1.0 <==> |relevant| <= |ids| && forall i | 0 <= i < |relevant| :: ids[i] in relevant)
  {
    var hits, sum := 0, 0.0;
    for index := 0 to |ids|
      invariant hits == Hits(ids, relevant, index) && sum == PrecisionSum(ids, relevant, index)
    {
      if ids[index] in relevant {
        hits := hits + 1;
        sum := sum + hits as real / (index + 1) as real;
      }
    }
    if relevant == {} { return 0.0; }
    if Distinct(ids) { AveragePrecisionBound(ids, relevant); }
    r := sum / |relevant| as real;
  }

  // All hits come first.
  predicate InFront(ids: seq<Id>, relevant: set<Id>, n: nat)
    requires n <= |ids|
  {
    forall i | 0 <= i < Hits(ids, relevant, n) :: ids[i] in relevant
  }

  lemma {:induction false} HitsAtLeast(ids: seq<Id>, relevant: set<Id>, j: nat, n: nat)
    requires j <= n <= |ids| && forall i | 0 <= i < j :: ids[i] in relevant
    ensures Hits(ids, relevant, n) >= j
  {
    if n > 0 { HitsAtLeast(ids, relevant, if j == n then j - 1 else j, n - 1); }
  }

  lemma {:induction false} AllHits(ids: seq<Id>, relevant: set<Id>, n: nat)
    requires n <= |ids| && Hits(ids, relevant, n) == n
    ensures forall i | 0 <= i < n :: ids[i] in relevant
  {
    if n > 0 { AllHits(ids, relevant, n - 1); }
  }

  lemma {:induction false} PrecisionBelowHits(ids: seq<Id>, relevant: set<Id>, n: nat)
    requires n <= |ids|
    ensures PrecisionSum(ids, relevant, n) <= Hits(ids, relevant, n) as real
    ensures PrecisionSum(ids, relevant, n) == Hits(ids, relevant, n) as real <==> InFront(ids, relevant, n)
  {
    if n > 0 {
      PrecisionBelowHits(ids, relevant, n - 1);
      if ids[n - 1] in relevant {
        var h := Hits(ids, relevant, n);
        Share(h, n);
        if h == n {
          AllHits(ids, relevant, n);
        } else if InFront(ids, relevant, n) {
          HitsAtLeast(ids, relevant, h, n - 1);
          assert false;
        }
      }
    }
  }

  lemma Share(h: nat, n: nat)
    requires 0 < n && h <= n
    ensures h as real / n as real <= 1.0 && (h as real / n as real == 1.0 <==> h == n)
  {
    if h < n { assert (h as real / n as real) * n as real == h as real; }
  }

  // The hits of a ranking without repeated ids are relevant ids.
  lemma {:induction false} HitsAreRelevant(ids: seq<Id>, relevant: set<Id>, n: nat)
    requires Distinct(ids) && n <= |ids|
    ensures Hits(ids, relevant, n) == |set i | 0 <= i < n && ids[i] in relevant :: ids[i]|
    ensures Hits(ids, relevant, n) <= |relevant|
  {
    var found := set i | 0 <= i < n && ids[i] in relevant :: ids[i];
    if n > 0 {
      HitsAreRelevant(ids, relevant, n - 1);
      var before := set i | 0 <= i < n - 1 && ids[i] in relevant :: ids[i];
      if ids[n - 1] in relevant {
        assert found == before + {ids[n - 1]} && ids[n - 1] !in before;
      } else {
        assert found == before;
      }
    }
    Subset(found, relevant);
  }

  lemma {:induction false} Subset(a: set<Id>, b: set<Id>)
    requires a <= b
    ensures |a| <= |b|
  {
    if a != {} {
      var x :| x in a;
      Subset(a - {x}, b - {x});
    }
  }

  // Without repeated ids it is at most 1, and it is 1 exactly when the relevant ids come first.
  lemma AveragePrecisionBound(ids: seq<Id>, relevant: set<Id>)
    requires Distinct(ids) && relevant != {}
    ensures var r := PrecisionSum(ids, relevant, |ids|) / |relevant| as real;
            r <= 1.0 && (r == 1.0 <==> |relevant| <= |ids| && forall i | 0 <= i < |relevant| :: ids[i] in relevant)
  {
    var (n, h, sum, size) := (|ids|, Hits(ids, relevant, |ids|), PrecisionSum(ids, relevant, |ids|), |relevant|);
    PrecisionBelowHits(ids, relevant, n);
    HitsAreRelevant(ids, relevant, n);
    Below(sum, size as real);
    if size <= n && forall i | 0 <= i < size :: ids[i] in relevant { HitsAtLeast(ids, relevant, size, n); }
  }

  lemma Below(x: real, y: real)
    requires y > 0.0 && x <= y
    ensures x / y <= 1.0 && (x / y == 1.0 <==> x == y)
  {
    assert (x / y) * y == x;
  }

  // With a repeated id it can be 2.
  lemma RepeatedHitCountsTwice(a: Id)
    ensures PrecisionSum([a, a], {a}, 2) / |{a}| as real == 2.0
  {
    assert Hits([a, a], {a}, 1) == 1 && Hits([a, a], {a}, 2) == 2;
    assert PrecisionSum([a, a], {a}, 1) == 1.0;
  }

  // ---- The ceiling of precision at k ---------------------------------------------------------

  datatype Query = Query(ranked: seq<Id>, relevant: set<Id>)

  function Found(q: Query, k: nat): set<Id> {
    (set id | id in q.ranked[..Min(k, |q.ranked|)]) * q.relevant
  }

  // Sums over the queries, to be divided by their number times k.
  function FoundSum(qs: seq<Query>, k: nat): nat {
    if qs == [] then 0 else |Found(qs[0], k)| + FoundSum(qs[1..], k)
  }

  function CappedSum(qs: seq<Query>, k: nat): nat {
    if qs == [] then 0 else Min(|qs[0].relevant|, k) + CappedSum(qs[1..], k)
  }

  // The ranking starts with as many relevant ids as fit.
  predicate Perfect(q: Query, k: nat) {
    |Found(q, k)| == Min(|q.relevant|, k)
  }

  lemma {:induction false} PrefixSize(ids: seq<Id>)
    ensures |set id | id in ids| <= |ids|
  {
    if ids != [] {
      PrefixSize(ids[1..]);
      assert (set id | id in ids) == {ids[0]} + (set id | id in ids[1..]);
    }
  }

  lemma FoundBound(q: Query, k: nat)
    ensures |Found(q, k)| <= Min(|q.relevant|, k)
  {
    var top := q.ranked[..Min(k, |q.ranked|)];
    PrefixSize(top);
    Subset(Found(q, k), set id | id in top);
    Subset(Found(q, k), q.relevant);
  }

  predicate AllPerfect(qs: seq<Query>, k: nat) {
    forall q | q in qs :: Perfect(q, k)
  }

  lemma AllPerfectSplits(qs: seq<Query>, k: nat)
    requires qs != []
    ensures AllPerfect(qs, k) <==> Perfect(qs[0], k) && AllPerfect(qs[1..], k)
  {
    assert forall q | q in qs :: q == qs[0] || q in qs[1..];
    assert forall q | q in qs[1..] :: q in qs;
    assert qs[0] in qs;
  }

  lemma {:induction false} CeilingHolds(qs: seq<Query>, k: nat)
    ensures FoundSum(qs, k) <= CappedSum(qs, k)
    ensures FoundSum(qs, k) == CappedSum(qs, k) <==> AllPerfect(qs, k)
  {
    if qs != [] {
      FoundBound(qs[0], k);
      CeilingHolds(qs[1..], k);
      AllPerfectSplits(qs, k);
    }
  }

  // The number of places among the first k of all the rankings.
  function Places(qs: seq<Query>, k: nat): nat {
    |qs| * k
  }

  function MeanPrecision(qs: seq<Query>, k: nat): real {
    if qs == [] || k == 0 then 0.0 else FoundSum(qs, k) as real / Places(qs, k) as real
  }

  function Ceiling(qs: seq<Query>, k: nat): real {
    if qs == [] || k == 0 then 0.0 else CappedSum(qs, k) as real / Places(qs, k) as real
  }

  // Mean precision at k never exceeds the ceiling that the relevant ids allow, so that the
  // normalized precision is at most 1; it is 1 exactly when every ranking is perfect.
  lemma NormalizedPrecision(qs: seq<Query>, k: nat)
    requires qs != [] && k > 0
    ensures MeanPrecision(qs, k) <= Ceiling(qs, k)
    ensures Ceiling(qs, k) > 0.0 ==>
              var r := MeanPrecision(qs, k) / Ceiling(qs, k); r <= 1.0 && (r == 1.0 <==> AllPerfect(qs, k))
  {
    hide AllPerfect;
    CeilingHolds(qs, k);
    var d := Places(qs, k);
    SomePlaces(qs, k);
    hide Places, FoundSum, CappedSum;
    SameDivisor(FoundSum(qs, k) as real, CappedSum(qs, k) as real, d as real);
    var (mean, ceiling) := (MeanPrecision(qs, k), Ceiling(qs, k));
    assert mean == FoundSum(qs, k) as real / d as real && ceiling == CappedSum(qs, k) as real / d as real;
    if ceiling > 0.0 { Below(mean, ceiling); }
  }

  lemma SameDivisor(x: real, y: real, d: real)
    requires x <= y && d > 0.0
    ensures x / d <= y / d && (x / d == y / d <==> x == y)
  {
    assert (x / d) * d == x && (y / d) * d == y;
  }

  // In plain terms: one query more adds its relevant ids among the first k of its ranking to
  // the mean, and as many of its relevant ids as there are, at most k, to the ceiling.
  lemma OneQueryMore(q: Query, qs: seq<Query>, k: nat)
    requires k > 0
    ensures var (found, all) := (set i | 0 <= i < |q.ranked| && i < k && q.ranked[i] in q.relevant :: q.ranked[i], [q] + qs);
            && MeanPrecision(all, k) * Places(all, k) as real == MeanPrecision(qs, k) * Places(qs, k) as real + |found| as real
            && Ceiling(all, k) * Places(all, k) as real ==
               Ceiling(qs, k) * Places(qs, k) as real + if |q.relevant| < k then |q.relevant| as real else k as real
  {
    hide Found, MeanPrecision, Ceiling, Places;
    var all := [q] + qs;
    assert all[1..] == qs;
    FoundExactly(q, k);
    Undivided(all, k);
    Undivided(qs, k);
  }

  lemma FoundExactly(q: Query, k: nat)
    ensures Found(q, k) == set i | 0 <= i < |q.ranked| && i < k && q.ranked[i] in q.relevant :: q.ranked[i]
  {
  }

  lemma Undivided(qs: seq<Query>, k: nat)
    requires k > 0
    ensures MeanPrecision(qs, k) * Places(qs, k) as real == FoundSum(qs, k) as real
    ensures Ceiling(qs, k) * Places(qs, k) as real == CappedSum(qs, k) as real
  {
    hide MeanPrecision, Ceiling, FoundSum, CappedSum, Places, Quotes;
    if qs != [] { SomePlaces(qs, k); }
    Fractions(qs, k);
    Back(MeanPrecision(qs, k), FoundSum(qs, k) as real, Places(qs, k) as real);
    Back(Ceiling(qs, k), CappedSum(qs, k) as real, Places(qs, k) as real);
  }

  lemma Fractions(qs: seq<Query>, k: nat)
    requires k > 0 && (qs != [] ==> Places(qs, k) > 0)
    ensures Quotes(MeanPrecision(qs, k), FoundSum(qs, k) as real, Places(qs, k) as real)
    ensures Quotes(Ceiling(qs, k), CappedSum(qs, k) as real, Places(qs, k) as real)
  {
    hide Found;
    if qs == [] { assert Places(qs, k) == 0; }
  }

  predicate Quotes(q: real, x: real, d: real) {
    if d == 0.0 then q == 0.0 && x == 0.0 else q == x / d
  }

  lemma SomePlaces(qs: seq<Query>, k: nat)
    requires qs != [] && k > 0
    ensures Places(qs, k) > 0
  {
  }

  lemma Back(q: real, x: real, d: real)
    requires Quotes(q, x, d)
    ensures q * d == x
  {
  }
}
