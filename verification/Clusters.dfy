// The failure clusters that learning.py keeps beside its event log.
module Clusters {
  import opened Options

  type EventId = string
  datatype Severity = Info | Watch | Warning | Critical

  datatype Event = Event(id: EventId, kind: string, failure: Option<string>, severity: Severity, profile: Option<string>,
                         session: Option<string>, source: Option<string>, at: nat)

  // Key of a group, and of its cluster: the id is a hash of it, taken to be injective. A
  // missing profile or session counts as an empty one.
  datatype Group = Group(failure: string, kind: string, profile: string, session: string)

  datatype Status = Open | Watched | Resolved
  datatype Cluster = Cluster(count: nat, severity: Severity, first: nat, last: nat, coverage: map<string, nat>,
    status: Status, updated: nat)
  type Table = map<Group, Cluster>

  function Coalesce(s: Option<string>): string {
    if s.Some? then s.value else ""
  }

  function GroupOf(e: Event): Group
    requires e.failure.Some?
  {
    Group(e.failure.value, e.kind, Coalesce(e.profile), Coalesce(e.session))
  }

  predicate Belongs(e: Event, g: Group) {
    e.failure.Some? && GroupOf(e) == g
  }

  // ---- The log, group by group --------------------------------------------------------

  function Members(log: seq<Event>, g: Group): seq<Event> {
    if log == [] then []
    else Members(log[..|log| - 1], g) + (if Belongs(log[|log| - 1], g) then [log[|log| - 1]] else [])
  }

  function Rank(s: Severity): nat {
    match s case Info => 0 case Watch => 1 case Warning => 2 case Critical => 3
  }

  function Worse(a: Severity, b: Severity): Severity {
    if Rank(a) >= Rank(b) then a else b
  }

  function WorstOf(es: seq<Event>): Severity {
    if es == [] then Info else Worse(WorstOf(es[..|es| - 1]), es[|es| - 1].severity)
  }

  function FirstOf(es: seq<Event>): nat
    requires es != []
  {
    var e := es[|es| - 1];
    if |es| == 1 then e.at else (var t := FirstOf(es[..|es| - 1]); if e.at < t then e.at else t)
  }

  function LastOf(es: seq<Event>): nat
    requires es != []
  {
    var e := es[|es| - 1];
    if |es| == 1 then e.at else (var t := LastOf(es[..|es| - 1]); if e.at > t then e.at else t)
  }

  function SourceKey(e: Event): string {
    if e.source.Some? && e.source.value != "" then e.source.value else "unlinked"
  }

  function Counted(c: map<string, nat>, key: string): map<string, nat> {
    c[key := (if key in c then c[key] else 0) + 1]
  }

  function CoverageOf(es: seq<Event>): map<string, nat> {
    if es == [] then map[] else Counted(CoverageOf(es[..|es| - 1]), SourceKey(es[|es| - 1]))
  }

  // The row that the events of a group amount to.
  function RowOf(es: seq<Event>, status: Status, now: nat): (row: Cluster)
    requires es != []
    ensures row.status == status && row.updated == now
  {
    Cluster(|es|, WorstOf(es), FirstOf(es), LastOf(es), CoverageOf(es), status, now)
  }

  function StatusFor(table: Table, g: Group, es: seq<Event>): Status {
    if g in table then table[g].status else if Rank(WorstOf(es)) >= Rank(Warning) then Watched else Open
  }

  function GroupsOf(log: seq<Event>): set<Group> {
    set i | 0 <= i < |log| && log[i].failure.Some? :: GroupOf(log[i])
  }

  lemma GroupsGrow(log: seq<Event>)
    requires log != []
    ensures GroupsOf(log) == GroupsOf(log[..|log| - 1]) + (if log[|log| - 1].failure.Some? then {GroupOf(log[|log| - 1])} else {})
  {
    var (init, e) := (log[..|log| - 1], log[|log| - 1]);
    forall g | g in GroupsOf(log) ensures g in GroupsOf(init) || (e.failure.Some? && GroupOf(e) == g) {
      var i :| 0 <= i < |log| && log[i].failure.Some? && GroupOf(log[i]) == g;
      if i < |init| { assert init[i] == log[i]; }
    }
    forall g | g in GroupsOf(init) ensures g in GroupsOf(log) {
      var i :| 0 <= i < |init| && init[i].failure.Some? && GroupOf(init[i]) == g;
      assert log[i] == init[i];
    }
  }

  lemma {:induction false} GroupsHaveMembers(log: seq<Event>, g: Group)
    ensures g in GroupsOf(log) <==> Members(log, g) != []
  {
    if log != [] {
      GroupsGrow(log);
      GroupsHaveMembers(log[..|log| - 1], g);
    }
  }

  // Groups with events get the row of their events and keep their status; clusters whose
  // events are gone are resolved, and keep the rest.
  function Refreshed(log: seq<Event>, table: Table, now: nat): Table {
    map g | g in GroupsOf(log) + table.Keys ::
      if g in GroupsOf(log) then Current(log, table, g, now) else table[g].(status := Resolved, updated := now)
  }

  function Current(log: seq<Event>, table: Table, g: Group, now: nat): Cluster
    requires g in GroupsOf(log)
  {
    GroupsHaveMembers(log, g);
    RowOf(Members(log, g), StatusFor(table, g, Members(log, g)), now)
  }

  // ---- The refresh ----------------------------------------------------------------------

  // The table after the groups in `touched` have been upserted.
  predicate Progress(log: seq<Event>, before: Table, t: Table, touched: set<Group>, now: nat) {
    && touched <= GroupsOf(log) && t.Keys == before.Keys + touched
    && (forall g | g in before && g !in touched :: t[g] == before[g])
    && (forall g | g in touched :: t[g] == Current(log, before, g, now))
  }

  // The clusters that were not touched are resolved.
  function Resolve(t: Table, touched: set<Group>, now: nat): Table {
    map g | g in t :: if g in touched then t[g] else t[g].(status := Resolved, updated := now)
  }

  lemma NoProgress(log: seq<Event>, before: Table, now: nat)
    ensures Progress(log, before, before, {}, now)
  {
  }

  lemma OneGroup(log: seq<Event>, before: Table, t: Table, touched: set<Group>, g: Group, now: nat)
    requires Progress(log, before, t, touched, now) && g in GroupsOf(log) && g !in touched
    ensures Progress(log, before, t[g := Current(log, t, g, now)], touched + {g}, now)
  {
  }

  lemma AllGroups(log: seq<Event>, before: Table, t: Table, touched: set<Group>, now: nat)
    requires Progress(log, before, t, touched, now) && touched == GroupsOf(log)
    ensures Resolve(t, touched, now) == Refreshed(log, before, now)
  {
    hide Current;
  }

  class Ledger {
    var log: seq<Event>
    var table: Table
    // The calls so far.
    ghost var calls: seq<Call>

    ghost predicate Valid()
      reads this
    {
      State(log, table) == After(calls)
    }

    constructor ()
      ensures Valid() && calls == []
    {
      log, table, calls := [], map[], [];
    }

    // The loop over the events of one group: the worst severity and the counts per source.
    method Summarize(es: seq<Event>) returns (severity: Severity, coverage: map<string, nat>)
      requires es != []
      ensures severity == WorstOf(es) && coverage == CoverageOf(es)
    {
      severity, coverage := Info, map[];
      for i := 0 to |es|
        invariant severity == WorstOf(es[..i]) && coverage == CoverageOf(es[..i])
      {
        assert es[..i + 1][..i] == es[..i];
        if Rank(es[i].severity) > Rank(severity) { severity := es[i].severity; }
        var key := SourceKey(es[i]);
        coverage := coverage[key := (if key in coverage then coverage[key] else 0) + 1];
      }
      assert es[..|es|] == es;
    }

    // INSERT of the cluster of a group, or UPDATE of all but its status.
    method Upsert(g: Group, now: nat)
      requires g in GroupsOf(log)
      modifies `table
      ensures table == old(table)[g := Current(log, old(table), g, now)]
    {
      GroupsHaveMembers(log, g);
      var es := Members(log, g);
      var severity, coverage := Summarize(es);
      var status := if g in table then table[g].status else if Rank(severity) >= Rank(Warning) then Watched else Open;
      table := table[g := Cluster(|es|, severity, FirstOf(es), LastOf(es), coverage, status, now)];
    }

    // _refresh_failure_clusters: upsert the cluster of every group, then resolve the
    // clusters that were not touched.
    method Refresh(now: nat)
      modifies `table
      ensures table == Refreshed(log, old(table), now)
    {
      hide Current, GroupsOf, Progress;
      var groups, touched := GroupsOf(log), {};
      NoProgress(log, table, now);
      while groups != {}
        invariant groups + touched == GroupsOf(log) && groups !! touched
        invariant Progress(log, old(table), table, touched, now)
        decreases |groups|
      {
        var g :| g in groups;
        OneGroup(log, old(table), table, touched, g, now);
        Upsert(g, now);
        touched, groups := touched + {g}, groups - {g};
      }
      AllGroups(log, old(table), table, touched, now);
      table := Resolve(table, touched, now);
    }

    // record_learning_event: INSERT OR IGNORE, then refresh.
    method Record(e: Event, now: nat)
      requires Valid()
      modifies this
      ensures Valid() && calls == old(calls) + [Recording(e, now)]
      ensures log == Recorded(old(log), e) && table == Refreshed(log, old(table), now)
    {
      hide Refreshed;
      if forall i | 0 <= i < |log| :: log[i].id != e.id { log := log + [e]; }
      Refresh(now);
      calls := calls + [Recording(e, now)];
      assert calls[..|calls| - 1] == old(calls);
    }

    // learning_failure_clusters, up to the order of the rows.
    method Read(now: nat) returns (rows: Table)
      requires Valid()
      modifies this
      ensures Valid() && calls == old(calls) + [Reading(now)]
      ensures log == old(log) && rows == table == Refreshed(log, old(table), now)
    {
      hide Refreshed;
      Refresh(now);
      calls := calls + [Reading(now)];
      assert calls[..|calls| - 1] == old(calls);
      rows := table;
    }
  }

  function Recorded(log: seq<Event>, e: Event): seq<Event> {
    if exists i :: 0 <= i < |log| && log[i].id == e.id then log else log + [e]
  }

  // ---- The folds of a row --------------------------------------------------------------------

  // The folds mean what they say.
  lemma {:induction false} FoldsAreBounds(es: seq<Event>)
    requires es != []
    ensures forall e | e in es :: Rank(e.severity) <= Rank(WorstOf(es)) && FirstOf(es) <= e.at <= LastOf(es)
    ensures (exists e | e in es :: e.severity == WorstOf(es)) && (exists e | e in es :: e.at == FirstOf(es))
            && (exists e | e in es :: e.at == LastOf(es))
    ensures Rank(Info) < Rank(Watch) < Rank(Warning) < Rank(Critical)
  {
    var (init, e) := (es[..|es| - 1], es[|es| - 1]);
    assert es == init + [e] && e in es;
    if init != [] {
      FoldsAreBounds(init);
      forall x | x in init ensures x in es {}
    } else {
      assert forall x | x in es :: x == e;
    }
  }

  // The events of a group, place by place in the order of the log: those with its failure
  // class and kind whose profile and session are its own, a missing one counting as empty.
  predicate InGroup(e: Event, g: Group) {
    && e.failure == Some(g.failure) && e.kind == g.kind
    && (e.profile == Some(g.profile) || (e.profile == None && g.profile == ""))
    && (e.session == Some(g.session) || (e.session == None && g.session == ""))
  }

  lemma MembersExactly(log: seq<Event>, g: Group, i: nat)
    ensures |Members(log, g)| == |set j | 0 <= j < |log| && InGroup(log[j], g)|
    ensures i < |log| && InGroup(log[i], g) ==>
              var before := Members(log[..i], g); |before| < |Members(log, g)| && Members(log, g)[|before|] == log[i]
  {
    hide Members, InGroup;
    MembersCounted(log, g);
    if i < |log| && InGroup(log[i], g) { MemberAt(log, g, i); }
  }

  lemma {:induction false} MembersCounted(log: seq<Event>, g: Group)
    ensures |Members(log, g)| == |set j | 0 <= j < |log| && InGroup(log[j], g)|
  {
    hide InGroup, Belongs;
    var found := set j | 0 <= j < |log| && InGroup(log[j], g);
    if log != [] {
      var (n, init) := (|log| - 1, log[..|log| - 1]);
      MembersCounted(init, g);
      var before := set j | 0 <= j < n && InGroup(init[j], g);
      BelongsExactly(log[n], g);
      if InGroup(log[n], g) { assert found == before + {n}; } else { assert found == before; }
    }
  }

  lemma {:induction false} MemberAt(log: seq<Event>, g: Group, i: nat)
    requires i < |log| && InGroup(log[i], g)
    ensures var before := Members(log[..i], g); |before| < |Members(log, g)| && Members(log, g)[|before|] == log[i]
  {
    hide InGroup, Belongs;
    var (n, init) := (|log| - 1, log[..|log| - 1]);
    BelongsExactly(log[i], g);
    if i < n {
      MemberAt(init, g, i);
      assert init[..i] == log[..i] && init[i] == log[i];
    }
  }

  lemma BelongsExactly(e: Event, g: Group)
    ensures Belongs(e, g) <==> InGroup(e, g)
  {
  }

  // The count of a source is the number of its events; events without a source, or with an
  // empty one, are counted as unlinked.
  predicate From(e: Event, key: string) {
    (e.source == Some(key) && key != "") || (key == "unlinked" && (e.source == None || e.source == Some("")))
  }

  function EventsFrom(es: seq<Event>, key: string): set<int> {
    set i | 0 <= i < |es| && From(es[i], key)
  }

  lemma EventsFromGrow(es: seq<Event>, key: string)
    requires es != []
    ensures var (n, init) := (|es| - 1, es[..|es| - 1]);
            EventsFrom(es, key) == EventsFrom(init, key) + (if SourceKey(es[n]) == key then {n} else {}) && n !in EventsFrom(init, key)
  {
    var (n, init) := (|es| - 1, es[..|es| - 1]);
    FromExactly(es[n], key);
    hide From, SourceKey;
    assert forall i | 0 <= i < n :: es[i] == init[i];
  }

  lemma FromExactly(e: Event, key: string)
    ensures From(e, key) <==> SourceKey(e) == key
  {
  }

  lemma {:induction false} CoverageExactly(es: seq<Event>, key: string)
    ensures var (c, found) := (CoverageOf(es), EventsFrom(es, key));
            (key in c <==> found != {}) && (key in c ==> c[key] == |found|)
  {
    hide From, SourceKey;
    if es != [] {
      CoverageExactly(es[..|es| - 1], key);
      EventsFromGrow(es, key);
      hide EventsFrom;
    }
  }

  // One refresh of any table, in plain terms. A group with events gets their count, worst
  // severity, first and last time and counts per source; it keeps the status of its cluster,
  // and a new cluster is watched if and only if one of the events is a warning or worse. A
  // cluster without events is resolved and keeps the rest; there are no other clusters.
  lemma RefreshExactly(log: seq<Event>, table: Table, now: nat, g: Group)
    ensures var (t, es) := (Refreshed(log, table, now), Members(log, g));
      && (g in t <==> es != [] || g in table)
      && (es == [] && g in table ==> t[g] == table[g].(status := Resolved, updated := now))
      && (es != [] ==>
            && t[g].count == |es| && t[g].severity == WorstOf(es) && t[g].first == FirstOf(es) && t[g].last == LastOf(es)
            && t[g].coverage == CoverageOf(es) && t[g].updated == now
            && t[g].status == if g in table then table[g].status
                              else if exists e | e in es :: e.severity in {Warning, Critical} then Watched else Open)
  {
    hide Members, WorstOf, FirstOf, LastOf, CoverageOf, GroupsOf;
    var es := Members(log, g);
    GroupsHaveMembers(log, g);
    if es != [] { FoldsAreBounds(es); }
  }

  // ---- Conservation ------------------------------------------------------------------------

  predicate Lists<T>(xs: seq<T>, s: set<T>) {
    (forall i, j | 0 <= i < j < |xs| :: xs[i] != xs[j]) && (forall x | x in xs :: x in s) && (forall x | x in s :: x in xs)
  }

  function CountSum(c: map<string, nat>, keys: seq<string>): nat {
    if keys == [] then 0 else (if keys[0] in c then c[keys[0]] else 0) + CountSum(c, keys[1..])
  }

  lemma {:induction false} CountSumOne(c: map<string, nat>, key: string, keys: seq<string>)
    requires forall i, j | 0 <= i < j < |keys| :: keys[i] != keys[j]
    ensures CountSum(Counted(c, key), keys) == CountSum(c, keys) + (if key in keys then 1 else 0)
  {
    if keys != [] { CountSumOne(c, key, keys[1..]); }
  }

  // The counts per source add up to the number of events.
  lemma {:induction false} CoverageAddsUp(es: seq<Event>, keys: seq<string>)
    requires (forall i, j | 0 <= i < j < |keys| :: keys[i] != keys[j]) && (forall e | e in es :: SourceKey(e) in keys)
    ensures CountSum(CoverageOf(es), keys) == |es|
  {
    if es == [] {
      NothingCounted(keys);
    } else {
      var (init, e) := (es[..|es| - 1], es[|es| - 1]);
      assert e in es && forall x | x in init :: x in es;
      CoverageAddsUp(init, keys);
      CountSumOne(CoverageOf(init), SourceKey(e), keys);
    }
  }

  lemma {:induction false} NothingCounted(keys: seq<string>)
    ensures CountSum(map[], keys) == 0
  {
    if keys != [] { NothingCounted(keys[1..]); }
  }

  lemma {:induction false} CoverageKeys(es: seq<Event>)
    ensures forall e | e in es :: SourceKey(e) in CoverageOf(es)
    ensures forall k | k in CoverageOf(es) :: exists e | e in es :: SourceKey(e) == k
  {
    if es != [] {
      var (init, e) := (es[..|es| - 1], es[|es| - 1]);
      assert es == init + [e] && e in es;
      CoverageKeys(init);
      forall k | k in CoverageOf(es) ensures exists x | x in es :: SourceKey(x) == k {
        if k in CoverageOf(init) {
          var x :| x in init && SourceKey(x) == k;
          assert x in es;
        }
      }
    }
  }

  function Failures(log: seq<Event>): nat {
    if log == [] then 0 else Failures(log[..|log| - 1]) + (if log[|log| - 1].failure.Some? then 1 else 0)
  }

  function GroupSum(log: seq<Event>, gs: seq<Group>): nat {
    if gs == [] then 0 else |Members(log, gs[0])| + GroupSum(log, gs[1..])
  }

  lemma {:induction false} GroupSumOne(log: seq<Event>, gs: seq<Group>)
    requires log != [] && forall i, j | 0 <= i < j < |gs| :: gs[i] != gs[j]
    ensures var e := log[|log| - 1];
            GroupSum(log, gs) == GroupSum(log[..|log| - 1], gs) + (if e.failure.Some? && GroupOf(e) in gs then 1 else 0)
  {
    if gs != [] { GroupSumOne(log, gs[1..]); }
  }

  lemma {:induction false} GroupsPartition(log: seq<Event>, gs: seq<Group>)
    requires (forall i, j | 0 <= i < j < |gs| :: gs[i] != gs[j]) && forall g | g in GroupsOf(log) :: g in gs
    ensures GroupSum(log, gs) == Failures(log)
  {
    if log == [] {
      EmptyLog(gs);
    } else {
      GroupsGrow(log);
      GroupsPartition(log[..|log| - 1], gs);
      GroupSumOne(log, gs);
    }
  }

  lemma {:induction false} EmptyLog(gs: seq<Group>)
    ensures GroupSum([], gs) == 0
  {
    if gs != [] { EmptyLog(gs[1..]); }
  }

  function TableSum(t: Table, gs: seq<Group>): nat {
    if gs == [] then 0 else (if gs[0] in t then t[gs[0]].count else 0) + TableSum(t, gs[1..])
  }

  // ---- Refreshing again, and one more event -----------------------------------------------

  // Equal but for the time of the update.
  predicate SameButTime(t: Table, t': Table) {
    t.Keys == t'.Keys && forall g | g in t :: t'[g] == t[g].(updated := t'[g].updated)
  }

  lemma RefreshTwice(log: seq<Event>, table: Table, now: nat, later: nat)
    ensures SameButTime(Refreshed(log, table, now), Refreshed(log, Refreshed(log, table, now), later))
  {
    var t := Refreshed(log, table, now);
    forall g | g in t ensures Refreshed(log, t, later)[g] == t[g].(updated := later) { GroupsHaveMembers(log, g); }
  }

  // Recording an event that is in the log already is another refresh.
  lemma RecordTwice(log: seq<Event>, table: Table, e: Event, now: nat, later: nat)
    ensures var log' := Recorded(log, e);
            Recorded(log', e) == log' && SameButTime(Refreshed(log', table, now),
              Refreshed(Recorded(log', e), Refreshed(log', table, now), later))
  {
    var log' := Recorded(log, e);
    if log' != log { assert log'[|log|].id == e.id; }
    RefreshTwice(log', table, now, later);
  }

  // One event more in a row.
  function Extended(row: Cluster, e: Event, now: nat): Cluster {
    Cluster(row.count + 1, Worse(row.severity, e.severity), if e.at < row.first then e.at else row.first, if e.at > row.last
      then e.at else row.last,
            Counted(row.coverage, SourceKey(e)), row.status, now)
  }

  // A new failure event adds one to its own cluster, in all its columns, and changes nothing
  // but the time in the others.
  lemma OneMoreEvent(log: seq<Event>, table: Table, e: Event, now: nat, later: nat, g: Group)
    requires e.failure.Some?
    ensures var (t, t', own) := (Refreshed(log, table, now), Refreshed(log + [e], Refreshed(log, table, now), later), GroupOf(e));
            && t'.Keys == t.Keys + {own}
            && (g in t && g != own ==> t'[g] == t[g].(updated := later))
            && (if own in GroupsOf(log) then own in t && t'[own] == Extended(t[own], e, later)
                else t'[own] == RowOf([e], t'[own].status, later))
  {
    hide Current, GroupsOf, RowOf, Extended;
    OneMoreMember(log, e, g);
    OneMoreOwn(log, table, e, now, later);
    if g != GroupOf(e) && g in Refreshed(log, table, now) { OneMoreOther(log, table, e, now, later, g); }
  }

  lemma OneMoreOther(log: seq<Event>, table: Table, e: Event, now: nat, later: nat, g: Group)
    requires e.failure.Some? && g != GroupOf(e) && g in Refreshed(log, table, now)
    ensures g in Refreshed(log + [e], Refreshed(log, table, now), later)
    ensures Refreshed(log + [e], Refreshed(log, table, now), later)[g] == Refreshed(log, table, now)[g].(updated := later)
  {
    hide Current, GroupsOf, Members, RowOf;
    OneMoreMember(log, e, g);
    if g in GroupsOf(log) { CurrentAgain(log, log + [e], table, Refreshed(log, table, now), g, now, later); }
  }

  lemma CurrentAgain(log: seq<Event>, log': seq<Event>, table: Table, t: Table, g: Group, now: nat, later: nat)
    requires g in GroupsOf(log) && g in GroupsOf(log') && Members(log', g) == Members(log, g)
    requires g in t && t[g] == Current(log, table, g, now)
    ensures Current(log', t, g, later) == Current(log, table, g, now).(updated := later)
  {
    hide GroupsOf, WorstOf, FirstOf, LastOf, CoverageOf;
  }

  lemma OneMoreOwn(log: seq<Event>, table: Table, e: Event, now: nat, later: nat)
    requires e.failure.Some?
    ensures var (t, t', own) := (Refreshed(log, table, now), Refreshed(log + [e], Refreshed(log, table, now), later), GroupOf(e));
            own in t' && (if own in GroupsOf(log) then own in t && t'[own] == Extended(t[own], e, later)
                          else t'[own] == RowOf([e], t'[own].status, later))
  {
    hide GroupsOf, RowOf;
    var own := GroupOf(e);
    OneMoreMember(log, e, own);
    GroupsHaveMembers(log, own);
    GroupsHaveMembers(log + [e], own);
    var es := Members(log, own);
    if own in GroupsOf(log) {
      OneMoreRow(es, e, StatusFor(table, own, es), now, later);
    } else {
      assert es + [e] == [e];
    }
  }

  lemma OneMoreRow(es: seq<Event>, e: Event, status: Status, now: nat, later: nat)
    requires es != []
    ensures RowOf(es + [e], status, later) == Extended(RowOf(es, status, now), e, later) && RowOf(es, status, now).status == status
  {
    assert (es + [e])[..|es|] == es;
  }

  lemma OneMoreMember(log: seq<Event>, e: Event, g: Group)
    requires e.failure.Some?
    ensures GroupsOf(log + [e]) == GroupsOf(log) + {GroupOf(e)}
    ensures Members(log + [e], g) == Members(log, g) + (if GroupOf(e) == g then [e] else [])
  {
    assert (log + [e])[..|log|] == log;
    GroupsGrow(log + [e]);
  }

  // ---- Every run from an empty ledger -------------------------------------------------------

  // record_learning_event, and learning_failure_clusters, which refreshes before it reads.
  datatype Call = Recording(event: Event, now: nat) | Reading(now: nat)
  datatype State = State(log: seq<Event>, table: Table)

  function Do(s: State, c: Call): State {
    match c
    case Recording(e, now) => var log := Recorded(s.log, e); State(log, Refreshed(log, s.table, now))
    case Reading(now) => State(s.log, Refreshed(s.log, s.table, now))
  }

  function After(cs: seq<Call>): State {
    if cs == [] then State([], map[]) else Do(After(cs[..|cs| - 1]), cs[|cs| - 1])
  }

  // The status that the first event of a group gives it.
  function FirstStatus(es: seq<Event>): Status
    requires es != []
  {
    if Rank(es[0].severity) >= Rank(Warning) then Watched else Open
  }

  predicate RowFits(log: seq<Event>, g: Group, row: Cluster) {
    var es := Members(log, g);
    es != [] && row == RowOf(es, FirstStatus(es), row.updated)
  }

  // One cluster for every group and no other; each is the row of its events.
  predicate Fits(s: State) {
    s.table.Keys == GroupsOf(s.log) && forall g | g in s.table :: RowFits(s.log, g, s.table[g])
  }

  lemma RefreshFits(s: State, now: nat)
    requires Fits(s)
    ensures Fits(State(s.log, Refreshed(s.log, s.table, now)))
  {
    var t := Refreshed(s.log, s.table, now);
    forall g | g in t ensures RowFits(s.log, g, t[g]) {
      assert RowFits(s.log, g, s.table[g]);
    }
  }

  // The group of a new event, and every other one.
  lemma NewMember(s: State, e: Event, now: nat, g: Group)
    requires Fits(s) && g in GroupsOf(s.log + [e])
    ensures RowFits(s.log + [e], g, Current(s.log + [e], s.table, g, now))
  {
    var log := s.log + [e];
    assert log[..|s.log|] == s.log;
    GroupsHaveMembers(s.log, g);
    GroupsHaveMembers(log, g);
    if g in s.table {
      assert RowFits(s.log, g, s.table[g]);
      assert Members(log, g)[0] == Members(s.log, g)[0];
    } else {
      assert Members(log, g) == [e];
      assert WorstOf([e]) == Worse(WorstOf([]), e.severity);
    }
  }

  lemma EventFits(s: State, e: Event, now: nat)
    requires Fits(s)
    ensures var log := s.log + [e]; Fits(State(log, Refreshed(log, s.table, now)))
  {
    hide Current, RowFits;
    var log := s.log + [e];
    var t := Refreshed(log, s.table, now);
    assert log[..|s.log|] == s.log;
    GroupsGrow(log);
    forall g | g in t ensures RowFits(log, g, t[g]) { NewMember(s, e, now, g); }
  }

  predicate DistinctIds(log: seq<Event>) {
    forall i, j | 0 <= i < j < |log| :: log[i].id != log[j].id
  }

  lemma {:induction false} RunFits(cs: seq<Call>)
    ensures Fits(After(cs)) && DistinctIds(After(cs).log)
  {
    hide Fits, Refreshed;
    if cs == [] {
      assert Fits(After([])) by { NothingFits(); }
    } else {
      var (s, c) := (After(cs[..|cs| - 1]), cs[|cs| - 1]);
      RunFits(cs[..|cs| - 1]);
      match c
      case Reading(now) => RefreshFits(s, now);
      case Recording(e, now) => if Recorded(s.log, e) == s.log { RefreshFits(s, now); } else { EventFits(s, e, now); }
    }
  }

  lemma NothingFits()
    ensures Fits(State([], map[]))
  {
  }

  // After any calls: the clusters are exactly the groups of the log, the row of each is what
  // its events amount to, its status is the one that its first event gave it, and none is
  // ever resolved.
  lemma TableOfEveryRun(cs: seq<Call>, g: Group)
    ensures var (log, t) := (After(cs).log, After(cs).table);
            && (g in t <==> exists i :: 0 <= i < |log| && Belongs(log[i], g))
            && (g in t ==>
                  var es := Members(log, g);
                  && es != [] && t[g].count == |es| && t[g].severity == WorstOf(es) && t[g].coverage == CoverageOf(es)
                  && t[g].first == FirstOf(es) && t[g].last == LastOf(es)
                  && t[g].status == FirstStatus(es) && t[g].status != Resolved)
  {
    RunFits(cs);
    var (log, t) := (After(cs).log, After(cs).table);
    assert g in GroupsOf(log) <==> exists i :: 0 <= i < |log| && Belongs(log[i], g);
    if g in t { assert RowFits(log, g, t[g]); }
  }

  // The event counts of the whole table add up to the number of failure events in the log,
  // and the counts per source of a cluster to its event count.
  lemma CountsAreConserved(cs: seq<Call>, gs: seq<Group>, g: Group, keys: seq<string>)
    requires Lists(gs, After(cs).table.Keys)
    requires g in After(cs).table && Lists(keys, After(cs).table[g].coverage.Keys)
    ensures var (log, t) := (After(cs).log, After(cs).table);
            TableSum(t, gs) == Failures(log) && CountSum(t[g].coverage, keys) == t[g].count
  {
    RunFits(cs);
    var s := After(cs);
    GroupsPartition(s.log, gs);
    SameSums(s, gs);
    assert RowFits(s.log, g, s.table[g]);
    CoverageKeys(Members(s.log, g));
    CoverageAddsUp(Members(s.log, g), keys);
  }

  lemma {:induction false} SameSums(s: State, gs: seq<Group>)
    requires Fits(s) && forall g | g in gs :: g in s.table
    ensures TableSum(s.table, gs) == GroupSum(s.log, gs)
  {
    if gs != [] {
      SameSums(s, gs[1..]);
      assert RowFits(s.log, gs[0], s.table[gs[0]]);
    }
  }

  // Severity grows and status does not: a group that begins with an event of little weight
  // stays open when a critical one comes.
  lemma CriticalStaysOpen(e: Event, e': Event, now: nat, later: nat)
    requires e.failure.Some? && e'.failure.Some? && GroupOf(e) == GroupOf(e') && e.id != e'.id
    requires e.severity == Info && e'.severity == Critical
    ensures var t := After([Recording(e, now), Recording(e', later)]).table;
            t.Keys == {GroupOf(e)} && t[GroupOf(e)].severity == Critical && t[GroupOf(e)].status == Open
  {
    hide Fits, Refreshed, RowFits, After;
    var (two, g) := ([Recording(e, now), Recording(e', later)], GroupOf(e));
    var log := [e, e'];
    TwoRecorded(e, e', now, later);
    TwoMembers(e, e', g);
    TableOfEveryRun(two, g);
    assert Belongs(log[0], g);
    forall h | h in After(two).table ensures h == g { OnlyGroup(two, e, e', h); }
  }

  lemma OnlyGroup(cs: seq<Call>, e: Event, e': Event, h: Group)
    requires After(cs).log == [e, e'] && e.failure.Some? && e'.failure.Some? && GroupOf(e) == GroupOf(e') && h in After(cs).table
    ensures h == GroupOf(e)
  {
    hide After, Fits, RowFits;
    TableOfEveryRun(cs, h);
    var log := [e, e'];
    var i :| 0 <= i < |log| && Belongs(log[i], h);
  }

  lemma TwoRecorded(e: Event, e': Event, now: nat, later: nat)
    requires e.id != e'.id
    ensures After([Recording(e, now), Recording(e', later)]).log == [e, e']
  {
    hide Refreshed;
    var (one, two) := ([Recording(e, now)], [Recording(e, now), Recording(e', later)]);
    assert two[..1] == one && one[..0] == [];
    assert After(one).log == [] + [e];
    assert Recorded([e], e') == [e] + [e'];
  }

  lemma TwoMembers(e: Event, e': Event, g: Group)
    requires Belongs(e, g) && Belongs(e', g)
    ensures Members([e, e'], g) == [e, e'] && WorstOf([e, e']) == Worse(Worse(Info, e.severity), e'.severity)
  {
    var (one, two) := ([e], [e, e']);
    assert one[..|one| - 1] == [] && two[..|two| - 1] == one;
    assert Members(one, g) == Members([], g) + [e];
    assert Members(two, g) == Members(one, g) + [e'];
    assert WorstOf(one) == Worse(WorstOf([]), e.severity);
  }
}
