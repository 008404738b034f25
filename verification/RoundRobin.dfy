// The selection of rows from four buckets in turn (_select_provider_eval_rows in benchmark.py).
module RoundRobin {
  type Row = string

  // A row and the bucket that it was taken from.
  datatype Pick = Pick(bucket: nat, row: Row)

  const BUCKETS: nat := 4

  function Min(a: nat, b: nat): nat {
    if a <= b then a else b
  }

  // How many of the first n picks come from a bucket.
  function Taken(picks: seq<Pick>, n: nat, bucket: nat): (t: nat)
    requires n <= |picks|
    ensures t <= n
  {
    if n == 0 then 0 else Taken(picks, n - 1, bucket) + (if picks[n - 1].bucket == bucket then 1 else 0)
  }

  function Available(buckets: seq<seq<Row>>): nat {
    if buckets == [] then 0 else |buckets[0]| + Available(buckets[1..])
  }

  // First in, first out: a pick is the row of its bucket that comes next.
  predicate InTurn(buckets: seq<seq<Row>>, picks: seq<Pick>, n: nat)
    requires n < |picks|
  {
    var b := picks[n].bucket;
    b < |buckets| && Taken(picks, n, b) < |buckets[b]| && picks[n].row == buckets[b][Taken(picks, n, b)]
  }

  // After n picks, no bucket is more than one pick ahead of a bucket that still has rows.
  predicate Fair(buckets: seq<seq<Row>>, picks: seq<Pick>, n: nat)
    requires n <= |picks|
  {
    forall i, j | 0 <= i < |buckets| && 0 <= j < |buckets| ::
      Taken(picks, n, j) < |buckets[j]| ==> Taken(picks, n, i) <= Taken(picks, n, j) + 1
  }

  // The rule of the rounds: of the buckets that still have rows, the one that was picked from
  // least often is next, and of several the one that is listed first.
  predicate LeastServed(buckets: seq<seq<Row>>, picks: seq<Pick>, n: nat)
    requires n < |picks|
  {
    var b := picks[n].bucket;
    forall i | 0 <= i < |buckets| && Taken(picks, n, i) < |buckets[i]| ::
      Taken(picks, n, b) < Taken(picks, n, i) || (Taken(picks, n, b) == Taken(picks, n, i) && b <= i)
  }

  predicate Selection(buckets: seq<seq<Row>>, picks: seq<Pick>) {
    && (forall n {:trigger InTurn(buckets, picks, n)} | 0 <= n < |picks| :: InTurn(buckets, picks, n))
    && (forall n {:trigger LeastServed(buckets, picks, n)} | 0 <= n < |picks| :: LeastServed(buckets, picks, n))
    && (forall n {:trigger Fair(buckets, picks, n)} | 0 <= n <= |picks| :: Fair(buckets, picks, n))
  }

  lemma {:induction false} TakenPrefix(picks: seq<Pick>, more: seq<Pick>, n: nat, bucket: nat)
    requires n <= |picks|
    ensures Taken(picks + more, n, bucket) == Taken(picks, n, bucket)
  {
    if n > 0 { TakenPrefix(picks, more, n - 1, bucket); }
  }

  lemma TakenOne(picks: seq<Pick>, pick: Pick, bucket: nat)
    ensures Taken(picks + [pick], |picks| + 1, bucket) == Taken(picks, |picks|, bucket) + (if pick.bucket == bucket then 1 else 0)
  {
    TakenPrefix(picks, [pick], |picks|, bucket);
  }

  // Where the selection stands: before bucket p of round r. Buckets before p have had
  // their turn in this round.
  predicate At(buckets: seq<seq<Row>>, picks: seq<Pick>, r: nat, p: nat) {
    forall b | 0 <= b < |buckets| :: Taken(picks, |picks|, b) == Min(if b < p then r + 1 else r, |buckets[b]|)
  }

  lemma AtIsFair(buckets: seq<seq<Row>>, picks: seq<Pick>, r: nat, p: nat)
    requires At(buckets, picks, r, p)
    ensures Fair(buckets, picks, |picks|)
  {
  }

  // Taking the next row of bucket p.
  lemma PickNext(buckets: seq<seq<Row>>, picks: seq<Pick>, r: nat, p: nat)
    requires Selection(buckets, picks) && At(buckets, picks, r, p) && p < |buckets| && r < |buckets[p]|
    ensures var picks' := picks + [Pick(p, buckets[p][r])];
            Selection(buckets, picks') && At(buckets, picks', r, p + 1)
  {
    var picks' := picks + [Pick(p, buckets[p][r])];
    forall b | 0 <= b < |buckets| ensures Taken(picks', |picks'|, b) == Min(if b < p + 1 then r + 1 else r, |buckets[b]|) {
      TakenOne(picks, Pick(p, buckets[p][r]), b);
    }
    AtIsFair(buckets, picks', r, p + 1);
    forall n | 0 <= n < |picks'| ensures InTurn(buckets, picks', n) && LeastServed(buckets, picks', n) && Fair(buckets, picks', n) {
      StillInTurn(buckets, picks, Pick(p, buckets[p][r]), n);
    }
  }

  lemma StillInTurn(buckets: seq<seq<Row>>, picks: seq<Pick>, pick: Pick, n: nat)
    requires Selection(buckets, picks) && n <= |picks|
    requires pick.bucket < |buckets| && Taken(picks, |picks|, pick.bucket) < |buckets[pick.bucket]|
    requires pick.row == buckets[pick.bucket][Taken(picks, |picks|, pick.bucket)]
    requires forall i | 0 <= i < |buckets| && Taken(picks, |picks|, i) < |buckets[i]| ::
               var (mine, other) := (Taken(picks, |picks|, pick.bucket), Taken(picks, |picks|, i));
               mine < other || (mine == other && pick.bucket <= i)
    ensures InTurn(buckets, picks + [pick], n) && LeastServed(buckets, picks + [pick], n) && Fair(buckets, picks + [pick], n)
  {
    hide Selection, InTurn, LeastServed, Fair;
    forall b: nat ensures Taken(picks + [pick], n, b) == Taken(picks, n, b) { TakenPrefix(picks, [pick], n, b); }
    SelectedAt(buckets, picks, n);
    if n < |picks| { SamePick(buckets, picks, pick, n); } else { NewPick(buckets, picks, pick); }
    SameFairness(buckets, picks, pick, n);
  }

  lemma SelectedAt(buckets: seq<seq<Row>>, picks: seq<Pick>, n: nat)
    requires Selection(buckets, picks) && n <= |picks|
    ensures Fair(buckets, picks, n) && (n < |picks| ==> InTurn(buckets, picks, n) && LeastServed(buckets, picks, n))
  {
    hide InTurn, LeastServed, Fair;
  }

  lemma SamePick(buckets: seq<seq<Row>>, picks: seq<Pick>, pick: Pick, n: nat)
    requires n < |picks| && InTurn(buckets, picks, n) && LeastServed(buckets, picks, n)
    requires forall b: nat :: Taken(picks + [pick], n, b) == Taken(picks, n, b)
    ensures InTurn(buckets, picks + [pick], n) && LeastServed(buckets, picks + [pick], n)
  {
    hide Taken;
  }

  lemma NewPick(buckets: seq<seq<Row>>, picks: seq<Pick>, pick: Pick)
    requires pick.bucket < |buckets| && Taken(picks, |picks|, pick.bucket) < |buckets[pick.bucket]|
    requires pick.row == buckets[pick.bucket][Taken(picks, |picks|, pick.bucket)]
    requires forall i | 0 <= i < |buckets| && Taken(picks, |picks|, i) < |buckets[i]| ::
               var (mine, other) := (Taken(picks, |picks|, pick.bucket), Taken(picks, |picks|, i));
               mine < other || (mine == other && pick.bucket <= i)
    requires forall b: nat :: Taken(picks + [pick], |picks|, b) == Taken(picks, |picks|, b)
    ensures InTurn(buckets, picks + [pick], |picks|) && LeastServed(buckets, picks + [pick], |picks|)
  {
    hide Taken;
  }

  lemma SameFairness(buckets: seq<seq<Row>>, picks: seq<Pick>, pick: Pick, n: nat)
    requires n <= |picks| && Fair(buckets, picks, n) && forall b: nat :: Taken(picks + [pick], n, b) == Taken(picks, n, b)
    ensures Fair(buckets, picks + [pick], n)
  {
    hide Taken;
  }

  // ---- How many rows are left ----------------------------------------------------------

  lemma {:induction false} AvailableNone(queues: seq<seq<Row>>)
    requires forall b | 0 <= b < |queues| :: queues[b] == []
    ensures Available(queues) == 0
  {
    if queues != [] { AvailableNone(queues[1..]); }
  }

  lemma {:induction false} AvailableDrops(queues: seq<seq<Row>>, p: nat)
    requires p < |queues| && queues[p] != []
    ensures Available(queues[p := queues[p][1..]]) + 1 == Available(queues)
  {
    var q := queues[p := queues[p][1..]];
    if p == 0 {
      assert q[1..] == queues[1..];
    } else {
      assert q[1..] == queues[1..][p - 1 := queues[p][1..]];
      AvailableDrops(queues[1..], p - 1);
    }
  }

  // The queues hold what has not been taken.
  predicate Left(buckets: seq<seq<Row>>, queues: seq<seq<Row>>, picks: seq<Pick>) {
    && |queues| == |buckets| && |picks| + Available(queues) == Available(buckets)
    && forall b | 0 <= b < |buckets| :: Taken(picks, |picks|, b) <= |buckets[b]| && queues[b] == buckets[b][Taken(picks, |picks|, b)..]
  }

  lemma LeftNext(buckets: seq<seq<Row>>, queues: seq<seq<Row>>, picks: seq<Pick>, p: nat)
    requires Left(buckets, queues, picks) && p < |buckets| && queues[p] != []
    ensures Left(buckets, queues[p := queues[p][1..]], picks + [Pick(p, queues[p][0])])
  {
    AvailableDrops(queues, p);
    forall b | 0 <= b < |buckets|
      ensures Taken(picks + [Pick(p, queues[p][0])], |picks| + 1, b) == Taken(picks, |picks|, b) + (if b == p then 1 else 0)
    {
      TakenOne(picks, Pick(p, queues[p][0]), b);
    }
  }

  // The turn of bucket p.
  lemma TakeRow(buckets: seq<seq<Row>>, queues: seq<seq<Row>>, picks: seq<Pick>, r: nat, p: nat)
    requires Left(buckets, queues, picks) && Selection(buckets, picks) && At(buckets, picks, r, p) && p < |queues| && queues[p] != []
    ensures var (queues', picks') := (queues[p := queues[p][1..]], picks + [Pick(p, queues[p][0])]);
            && Left(buckets, queues', picks') && Selection(buckets, picks') && At(buckets, picks', r, p + 1)
            && Available(queues') + 1 == Available(queues)
  {
    assert Taken(picks, |picks|, p) == Min(r, |buckets[p]|);
    assert r < |buckets[p]| && queues[p][0] == buckets[p][r];
    hide Selection, Left, At;
    LeftNext(buckets, queues, picks, p);
    PickNext(buckets, picks, r, p);
    AvailableDrops(queues, p);
  }

  lemma HowManyLeft(buckets: seq<seq<Row>>, queues: seq<seq<Row>>, picks: seq<Pick>)
    requires Left(buckets, queues, picks)
    ensures |picks| + Available(queues) == Available(buckets)
  {
  }

  // The loops: round after round, one row from every bucket that has one, until the limit
  // is reached or all buckets are empty.
  method Select(buckets: seq<seq<Row>>, limit: nat) returns (picks: seq<Pick>)
    requires |buckets| == BUCKETS
    ensures Selection(buckets, picks) && |picks| == Min(limit, Available(buckets))
  {
    hide Selection, Left, At, Available;
    picks := [];
    var queues := buckets;
    ghost var r := 0;
    Start(buckets);
    while |picks| < limit && exists b | 0 <= b < BUCKETS :: queues[b] != []
      invariant |queues| == BUCKETS && Left(buckets, queues, picks) && Selection(buckets, picks) && |picks| <= limit
      invariant |picks| < limit ==> At(buckets, picks, r, 0)
      decreases Available(queues)
    {
      ghost var before := Available(queues);
      ghost var b :| 0 <= b < BUCKETS && queues[b] != [];
      for p := 0 to BUCKETS
        invariant |queues| == BUCKETS && Left(buckets, queues, picks) && Selection(buckets, picks) && |picks| <= limit
        invariant Available(queues) <= before && (|picks| < limit ==> At(buckets, picks, r, p))
        invariant Available(queues) == before ==> queues[b] != [] && p <= b && |picks| < limit
      {
        if queues[p] != [] && |picks| < limit {
          TakeRow(buckets, queues, picks, r, p);
          picks := picks + [Pick(p, queues[p][0])];
          queues := queues[p := queues[p][1..]];
        } else if |picks| < limit {
          SkipEmpty(buckets, queues, picks, r, p);
        }
      }
      if |picks| < limit { NextRound(buckets, picks, r); }
      r := r + 1;
    }
    HowManyLeft(buckets, queues, picks);
    if |picks| < limit { AvailableNone(queues); }
  }

  lemma Start(buckets: seq<seq<Row>>)
    ensures Selection(buckets, []) && At(buckets, [], 0, 0) && Left(buckets, buckets, [])
  {
    assert Fair(buckets, [], 0);
  }

  lemma SkipEmpty(buckets: seq<seq<Row>>, queues: seq<seq<Row>>, picks: seq<Pick>, r: nat, p: nat)
    requires Left(buckets, queues, picks) && At(buckets, picks, r, p) && p < |buckets| && queues[p] == []
    ensures At(buckets, picks, r, p + 1)
  {
  }

  lemma NextRound(buckets: seq<seq<Row>>, picks: seq<Pick>, r: nat)
    requires At(buckets, picks, r, |buckets|)
    ensures At(buckets, picks, r + 1, 0)
  {
  }

  // Rows of one bucket are picked in their order, and no row of it twice.
  lemma PicksAreDistinct(buckets: seq<seq<Row>>, picks: seq<Pick>, m: nat, n: nat)
    requires Selection(buckets, picks) && m < n < |picks| && picks[m].bucket == picks[n].bucket
    ensures Taken(picks, m, picks[m].bucket) < Taken(picks, n, picks[n].bucket)
  {
    TakenGrows(picks, m + 1, n, picks[m].bucket);
  }

  lemma {:induction false} TakenGrows(picks: seq<Pick>, m: nat, n: nat, bucket: nat)
    requires m <= n <= |picks|
    ensures Taken(picks, m, bucket) <= Taken(picks, n, bucket)
  {
    if m < n { TakenGrows(picks, m, n - 1, bucket); }
  }

  // The rule leaves no choice: two selections of the same length are equal.
  lemma {:induction false} OneSelection(buckets: seq<seq<Row>>, picks: seq<Pick>, picks': seq<Pick>)
    requires Selection(buckets, picks) && Selection(buckets, picks') && |picks| == |picks'|
    ensures picks == picks'
  {
    if picks != [] {
      var n := |picks| - 1;
      Shortened(buckets, picks, n);
      Shortened(buckets, picks', n);
      OneSelection(buckets, picks[..n], picks'[..n]);
      assert picks == picks[..n] + [picks[n]] && picks' == picks'[..n] + [picks'[n]];
      forall b: nat ensures Taken(picks, n, b) == Taken(picks', n, b) {
        TakenPrefix(picks[..n], [picks[n]], n, b);
        TakenPrefix(picks'[..n], [picks'[n]], n, b);
      }
      assert InTurn(buckets, picks, n) && InTurn(buckets, picks', n);
      assert LeastServed(buckets, picks, n) && LeastServed(buckets, picks', n);
    }
  }

  // The picks so far are a selection.
  lemma Shortened(buckets: seq<seq<Row>>, picks: seq<Pick>, n: nat)
    requires Selection(buckets, picks) && n <= |picks|
    ensures Selection(buckets, picks[..n])
  {
    var p := picks[..n];
    assert p + picks[n..] == picks;
    forall m: nat, b: nat | m <= n ensures Taken(p, m, b) == Taken(picks, m, b) { TakenPrefix(p, picks[n..], m, b); }
    forall m | 0 <= m < n ensures InTurn(buckets, p, m) && LeastServed(buckets, p, m) {
      assert InTurn(buckets, picks, m) && LeastServed(buckets, picks, m);
    }
    forall m | 0 <= m <= n ensures Fair(buckets, p, m) { assert Fair(buckets, picks, m); }
  }
}
