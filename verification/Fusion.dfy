// Reciprocal rank fusion of two session rankings (_rank_sessions_rrf_overlap_tfidf in benchmark.py).
module Fusion {
  type Session = string

  // The position of a session, counted from 1. When it is repeated the last one counts, as
  // in the dictionary that is built from the ranking; 9999 stands for none.
  function RankOf(ids: seq<Session>, x: Session): (r: nat)
    ensures r > 0 && (x in ids ==> r <= |ids| && ids[r - 1] == x && forall i | r <= i < |ids| :: ids[i] != x)
    ensures x !in ids ==> r == 9999
  {
    if ids == [] then 9999
    else if ids[|ids| - 1] == x then |ids|
    else RankOf(ids[..|ids| - 1], x)
  }

  function Reciprocal(rank: nat): real {
    1.0 / (60 + rank) as real
  }

  function Score(overlap: seq<Session>, tfidf: seq<Session>, x: Session): real {
    Reciprocal(RankOf(overlap, x)) + Reciprocal(RankOf(tfidf, x))
  }

  // An entry of the list that is sorted: the score, then the rank of the overlap ranking.
  // Two sessions never share that rank, so that the rest of the sort key is not looked at.
  datatype Entry = Entry(score: real, rank: nat, session: Session)

  predicate Ahead(a: Entry, b: Entry) {
    a.score > b.score || (a.score == b.score && a.rank <= b.rank)
  }

  predicate Sorted(es: seq<Entry>) {
    forall i, j | 0 <= i < j < |es| :: Ahead(es[i], es[j])
  }

  // sort(reverse=True)
  function Insert(e: Entry, es: seq<Entry>): seq<Entry> {
    if es == [] then [e] else if Ahead(e, es[0]) then [e] + es else [es[0]] + Insert(e, es[1..])
  }

  function Sort(es: seq<Entry>): seq<Entry> {
    if es == [] then [] else Insert(es[0], Sort(es[1..]))
  }

  function EntryOf(overlap: seq<Session>, tfidf: seq<Session>, x: Session): Entry {
    Entry(Score(overlap, tfidf, x), RankOf(overlap, x), x)
  }

  function Entries(overlap: seq<Session>, tfidf: seq<Session>, sessions: seq<Session>): seq<Entry> {
    seq(|sessions|, i requires 0 <= i < |sessions| => EntryOf(overlap, tfidf, sessions[i]))
  }

  function Sessions(es: seq<Entry>): seq<Session> {
    seq(|es|, i requires 0 <= i < |es| => es[i].session)
  }

  function Fused(overlap: seq<Session>, tfidf: seq<Session>, sessions: seq<Session>): seq<Session> {
    Sessions(Sort(Entries(overlap, tfidf, sessions)))
  }

  // x may come before y: the sum of the two reciprocals is larger, or it is the same and the
  // overlap ranking has x first.
  predicate NotAfter(overlap: seq<Session>, tfidf: seq<Session>, x: Session, y: Session) {
    var (a, b, c, d) := (RankOf(overlap, x), RankOf(tfidf, x), RankOf(overlap, y), RankOf(tfidf, y));
    var (sum, sum') := (1.0 / (60 + a) as real + 1.0 / (60 + b) as real, 1.0 / (60 + c) as real + 1.0 / (60 + d) as real);
    sum > sum' || (sum == sum' && a <= c)
  }

  method FuseRankings(overlap: seq<Session>, tfidf: seq<Session>, sessions: seq<Session>) returns (r: seq<Session>)
    ensures r == Fused(overlap, tfidf, sessions)
    ensures multiset(r) == multiset(sessions)
    ensures forall i, j | 0 <= i < j < |r| :: NotAfter(overlap, tfidf, r[i], r[j])
  {
    var ranked := [];
    for i := 0 to |sessions|
      invariant ranked == Entries(overlap, tfidf, sessions)[..i]
    {
      var score := 1.0 / (60 + RankOf(overlap, sessions[i])) as real + 1.0 / (60 + RankOf(tfidf, sessions[i])) as real;
      ranked := ranked + [Entry(score, RankOf(overlap, sessions[i]), sessions[i])];
    }
    assert ranked == Entries(overlap, tfidf, sessions);
    FusedIsPermutation(overlap, tfidf, sessions);
    r := Sessions(Sort(ranked));
    forall i, j | 0 <= i < j < |r| ensures NotAfter(overlap, tfidf, r[i], r[j]) { FusedOrder(overlap, tfidf, sessions, i, j); }
  }

  // ---- The sort ------------------------------------------------------------------------

  predicate Leads(e: Entry, es: seq<Entry>) {
    forall i | 0 <= i < |es| :: Ahead(e, es[i])
  }

  lemma {:induction false} InsertLeads(x: Entry, e: Entry, es: seq<Entry>)
    requires Ahead(x, e) && Leads(x, es)
    ensures Leads(x, Insert(e, es))
  {
    hide Ahead;
    if es != [] && !Ahead(e, es[0]) {
      assert forall i | 0 <= i < |es[1..]| :: es[1..][i] == es[i + 1];
      InsertLeads(x, e, es[1..]);
    }
  }

  lemma {:induction false} InsertSorted(e: Entry, es: seq<Entry>)
    requires Sorted(es)
    ensures Sorted(Insert(e, es))
  {
    if es != [] && !Ahead(e, es[0]) {
      InsertSorted(e, es[1..]);
      assert forall i | 0 <= i < |es[1..]| :: es[1..][i] == es[i + 1];
      InsertLeads(es[0], e, es[1..]);
    }
  }

  lemma {:induction false} InsertMultiset(e: Entry, es: seq<Entry>)
    ensures multiset(Insert(e, es)) == multiset{e} + multiset(es)
  {
    hide Ahead;
    if es != [] {
      assert es == [es[0]] + es[1..];
      if !Ahead(e, es[0]) { InsertMultiset(e, es[1..]); }
    }
  }

  lemma {:induction false} SortSorted(es: seq<Entry>)
    ensures Sorted(Sort(es)) && multiset(Sort(es)) == multiset(es)
  {
    if es != [] {
      SortSorted(es[1..]);
      InsertSorted(es[0], Sort(es[1..]));
      InsertMultiset(es[0], Sort(es[1..]));
      assert es == [es[0]] + es[1..];
    }
  }

  lemma SessionsCons(e: Entry, es: seq<Entry>)
    ensures multiset(Sessions([e] + es)) == multiset{e.session} + multiset(Sessions(es))
  {
    assert Sessions([e] + es) == [e.session] + Sessions(es);
  }

  lemma {:induction false} InsertSession(e: Entry, es: seq<Entry>)
    ensures multiset(Sessions(Insert(e, es))) == multiset{e.session} + multiset(Sessions(es))
  {
    hide Ahead, Sessions;
    if es == [] || Ahead(e, es[0]) {
      SessionsCons(e, es);
      assert es == [] ==> [e] + es == [e];
    } else {
      InsertSession(e, es[1..]);
      SessionsCons(es[0], Insert(e, es[1..]));
      SessionsCons(es[0], es[1..]);
      assert es == [es[0]] + es[1..];
    }
  }

  lemma {:induction false} SortSessions(es: seq<Entry>)
    ensures multiset(Sessions(Sort(es))) == multiset(Sessions(es))
  {
    if es != [] {
      SortSessions(es[1..]);
      InsertSession(es[0], Sort(es[1..]));
      assert Sessions(es) == [es[0].session] + Sessions(es[1..]);
    }
  }

  // The fused ranking is a permutation of the sessions.
  lemma FusedIsPermutation(overlap: seq<Session>, tfidf: seq<Session>, sessions: seq<Session>)
    ensures multiset(Fused(overlap, tfidf, sessions)) == multiset(sessions)
  {
    var es := Entries(overlap, tfidf, sessions);
    SortSessions(es);
    assert Sessions(es) == sessions;
  }

  // ---- Agreement -------------------------------------------------------------------------

  lemma ReciprocalFalls(a: nat, b: nat)
    ensures a < b <==> Reciprocal(a) > Reciprocal(b)
    ensures Reciprocal(a) > 0.0
  {
    var (x, y) := ((60 + a) as real, (60 + b) as real);
    assert (1.0 / x) * x == 1.0 && (1.0 / y) * y == 1.0;
    if a < b { Compare(x, y); } else if b < a { Compare(y, x); }
  }

  lemma Compare(x: real, y: real)
    requires 0.0 < x < y
    ensures 1.0 / x > 1.0 / y > 0.0
  {
    assert (1.0 / x) * x == 1.0 && (1.0 / y) * y == 1.0;
  }

  // Every entry of the sorted list is the entry of its session.
  lemma SortedEntries(overlap: seq<Session>, tfidf: seq<Session>, sessions: seq<Session>, i: nat)
    requires i < |Fused(overlap, tfidf, sessions)|
    ensures Sort(Entries(overlap, tfidf, sessions))[i] == EntryOf(overlap, tfidf, Fused(overlap, tfidf, sessions)[i])
  {
    var es := Entries(overlap, tfidf, sessions);
    SortSorted(es);
    var e := Sort(es)[i];
    assert e in multiset(Sort(es));
    assert e in es;
  }

  // In the fused ranking, whoever comes first has the better score, or the same score and
  // the better overlap rank.
  lemma FusedOrder(overlap: seq<Session>, tfidf: seq<Session>, sessions: seq<Session>, i: nat, j: nat)
    requires i < j < |Fused(overlap, tfidf, sessions)|
    ensures var r := Fused(overlap, tfidf, sessions); Ahead(EntryOf(overlap, tfidf, r[i]), EntryOf(overlap, tfidf, r[j]))
  {
    SortSorted(Entries(overlap, tfidf, sessions));
    SortedEntries(overlap, tfidf, sessions, i);
    SortedEntries(overlap, tfidf, sessions, j);
  }

  // A session that is ahead of another one in both rankings is ahead of it in the fused one.
  // Ahead in one and level in the other is enough.
  lemma FusionRespectsAgreement(overlap: seq<Session>, tfidf: seq<Session>, sessions: seq<Session>, i: nat, j: nat)
    requires i < |Fused(overlap, tfidf, sessions)| && j < |Fused(overlap, tfidf, sessions)|
    requires var r := Fused(overlap, tfidf, sessions);
             && RankOf(overlap, r[i]) <= RankOf(overlap, r[j]) && RankOf(tfidf, r[i]) <= RankOf(tfidf, r[j])
             && (RankOf(overlap, r[i]) < RankOf(overlap, r[j]) || RankOf(tfidf, r[i]) < RankOf(tfidf, r[j]))
    ensures i < j
  {
    var r := Fused(overlap, tfidf, sessions);
    ReciprocalFalls(RankOf(overlap, r[i]), RankOf(overlap, r[j]));
    ReciprocalFalls(RankOf(tfidf, r[i]), RankOf(tfidf, r[j]));
    if j < i { FusedOrder(overlap, tfidf, sessions, j, i); }
  }

  // Sessions of the overlap ranking never tie, so that the order is determined by the two
  // rankings alone: listing the sessions differently changes nothing.
  lemma RanksDiffer(ids: seq<Session>, x: Session, y: Session)
    requires x in ids && y in ids && x != y
    ensures RankOf(ids, x) != RankOf(ids, y)
  {
  }

  lemma FusionIsDetermined(overlap: seq<Session>, tfidf: seq<Session>, sessions: seq<Session>, sessions': seq<Session>)
    requires multiset(sessions) == multiset(sessions') && (forall x | x in sessions :: x in overlap)
    ensures Fused(overlap, tfidf, sessions) == Fused(overlap, tfidf, sessions')
  {
    FusedIsPermutation(overlap, tfidf, sessions);
    FusedIsPermutation(overlap, tfidf, sessions');
    var (a, b) := (Fused(overlap, tfidf, sessions), Fused(overlap, tfidf, sessions'));
    forall i, j | 0 <= i < j < |a| ensures Ahead(EntryOf(overlap, tfidf, a[i]), EntryOf(overlap, tfidf, a[j])) {
      FusedOrder(overlap, tfidf, sessions, i, j);
    }
    forall i, j | 0 <= i < j < |b| ensures Ahead(EntryOf(overlap, tfidf, b[i]), EntryOf(overlap, tfidf, b[j])) {
      FusedOrder(overlap, tfidf, sessions', i, j);
    }
    forall x | x in a ensures x in overlap {
      assert x in multiset(a);
      assert x in sessions;
    }
    SameOrder(overlap, tfidf, a, b);
  }

  predicate InOrder(overlap: seq<Session>, tfidf: seq<Session>, r: seq<Session>) {
    forall i, j | 0 <= i < j < |r| :: Ahead(EntryOf(overlap, tfidf, r[i]), EntryOf(overlap, tfidf, r[j]))
  }

  lemma Occurs(a: seq<Session>, x: Session) returns (k: nat)
    requires x in multiset(a)
    ensures k < |a| && a[k] == x
  {
    k :| k < |a| && a[k] == x;
  }

  lemma SameFirst(overlap: seq<Session>, tfidf: seq<Session>, a: seq<Session>, b: seq<Session>)
    requires a != [] && b != [] && multiset(a) == multiset(b) && InOrder(overlap, tfidf, a) && InOrder(overlap, tfidf, b)
    requires a[0] in overlap && b[0] in overlap
    ensures a[0] == b[0]
  {
    hide EntryOf;
    var k := Occurs(b, a[0]);
    var m := Occurs(a, b[0]);
    if a[0] != b[0] {
      assert Ahead(EntryOf(overlap, tfidf, b[0]), EntryOf(overlap, tfidf, b[k]));
      assert Ahead(EntryOf(overlap, tfidf, a[0]), EntryOf(overlap, tfidf, a[m]));
      RanksDiffer(overlap, a[0], b[0]);
      SameRank(overlap, tfidf, a[0], b[0]);
    }
  }

  lemma SameRank(overlap: seq<Session>, tfidf: seq<Session>, x: Session, y: Session)
    requires Ahead(EntryOf(overlap, tfidf, x), EntryOf(overlap, tfidf, y)) && Ahead(EntryOf(overlap, tfidf, y), EntryOf(overlap, tfidf, x))
    ensures RankOf(overlap, x) == RankOf(overlap, y)
  {
  }

  lemma {:induction false} SameOrder(overlap: seq<Session>, tfidf: seq<Session>, a: seq<Session>, b: seq<Session>)
    requires multiset(a) == multiset(b) && InOrder(overlap, tfidf, a) && InOrder(overlap, tfidf, b) && forall x | x in a :: x in overlap
    ensures a == b
    decreases |a|
  {
    hide EntryOf, Ahead;
    assert |multiset(a)| == |a| && |multiset(b)| == |b|;
    if a != [] {
      assert b[0] in multiset(a);
      SameFirst(overlap, tfidf, a, b);
      RestMultiset(a);
      RestMultiset(b);
      RestInOrder(overlap, tfidf, a);
      RestInOrder(overlap, tfidf, b);
      SameOrder(overlap, tfidf, a[1..], b[1..]);
    }
  }

  lemma RestMultiset(a: seq<Session>)
    requires a != []
    ensures multiset(a[1..]) == multiset(a) - multiset{a[0]}
  {
    assert a == [a[0]] + a[1..];
  }

  lemma RestInOrder(overlap: seq<Session>, tfidf: seq<Session>, r: seq<Session>)
    requires r != [] && InOrder(overlap, tfidf, r)
    ensures InOrder(overlap, tfidf, r[1..])
  {
    hide EntryOf, Ahead;
    var t := r[1..];
    forall i, j | 0 <= i < j < |t| ensures Ahead(EntryOf(overlap, tfidf, t[i]), EntryOf(overlap, tfidf, t[j])) {
      assert t[i] == r[i + 1] && t[j] == r[j + 1];
    }
  }
}
