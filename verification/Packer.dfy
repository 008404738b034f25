// The cited-context packer of hermes_provider.py: candidates in rank order are packed into a
// payload of limited length, each with as much of its snippet as the truncation ladder allows.
module Packer {
  import opened Options

  // ---- Lengths of the JSON text ----------------------------------------------------------

  // The characters that a character of a string takes when everything but printable ASCII
  // is escaped.
  function CharLen(c: char): (n: nat)
    ensures n > 0
  {
    if c == '"' || c == '\\' || c == '\n' || c == '\r' || c == '\t' || c as int == 8 || c as int == 12 then 2
    else if ' ' <= c <= '~' then 1
    else if c as int > 0xFFFF then 12
    else 6
  }

  function TextLen(s: string): nat {
    if s == "" then 0 else TextLen(s[..|s| - 1]) + CharLen(s[|s| - 1])
  }

  function Digits(n: nat): (d: nat)
    ensures d > 0 && (n >= 10 ==> d > 1)
  {
    if n < 10 then 1 else Digits(n / 10) + 1
  }

  // A candidate: rank, the JSON text of its item before the snippet and between the two other
  // parts that depend on the truncation, and the snippet. The id stands for all other fields.
  datatype Candidate = Candidate(id: nat, rank: int, head: string, middle: string, snippet: string)

  const LIMIT_KEY: string := "\",\"snippet_char_limit\":"

  // The length of an item apart from the parts that depend on the truncation.
  function Base(c: Candidate): nat {
    |c.head| + |LIMIT_KEY| + |c.middle| + 1
  }

  datatype Item = Item(of: Candidate, snippet: string, truncated: bool, limit: Option<nat>)

  function ItemLen(x: Item): (n: nat)
    ensures n > 0
  {
    Base(x.of) + TextLen(x.snippet) + (if x.truncated then 4 else 5)
    + match x.limit case None => 4 case Some(n) => Digits(n)
  }

  // The items and the commas between them.
  function ListLen(items: seq<Item>): nat {
    if items == [] then 0
    else ListLen(items[..|items| - 1]) + ItemLen(items[|items| - 1]) + (if |items| > 1 then 1 else 0)
  }

  // {"items":[...]}
  function PayloadLen(items: seq<Item>): nat {
    12 + ListLen(items)
  }

  // ---- The JSON text ---------------------------------------------------------------------

  // A character of a string: escaped by a letter, as it is, or by one or two code units.
  function Escape(c: char): string {
    match c
    case '"' => "\\\""
    case '\\' => "\\\\"
    case '\n' => "\\n"
    case '\r' => "\\r"
    case '\t' => "\\t"
    case _ =>
      var n := c as int;
      if n == 8 then "\\b"
      else if n == 12 then "\\f"
      else if ' ' <= c <= '~' then [c]
      else if n <= 0xFFFF then Unit(n)
      else Unit(0xD800 + (n - 0x10000) / 0x400) + Unit(0xDC00 + (n - 0x10000) % 0x400)
  }

  // A code unit of UTF-16.
  function Unit(n: nat): string {
    "\\u" + [Hex(n / 0x1000 % 16), Hex(n / 0x100 % 16), Hex(n / 0x10 % 16), Hex(n % 16)]
  }

  function Hex(d: nat): char
    requires d < 16
  {
    "0123456789abcdef"[d]
  }

  function Escaped(s: string): string {
    if s == "" then "" else Escaped(s[..|s| - 1]) + Escape(s[|s| - 1])
  }

  function Decimal(n: nat): string {
    if n < 10 then ["0123456789"[n]] else Decimal(n / 10) + ["0123456789"[n % 10]]
  }

  function ItemText(x: Item): string {
    x.of.head + Escaped(x.snippet) + LIMIT_KEY + (match x.limit case None => "null" case Some(n) => Decimal(n))
    + x.of.middle + (if x.truncated then "true" else "false") + "}"
  }

  function ListText(items: seq<Item>): string {
    if items == [] then ""
    else if |items| == 1 then ItemText(items[0])
    else ListText(items[..|items| - 1]) + "," + ItemText(items[|items| - 1])
  }

  function PayloadText(items: seq<Item>): string {
    "{\"items\":[" + ListText(items) + "]}"
  }

  lemma {:induction false} EscapedLength(s: string)
    ensures |Escaped(s)| == TextLen(s)
  {
    if s != "" { EscapedLength(s[..|s| - 1]); }
  }

  lemma {:induction false} DecimalLength(n: nat)
    ensures |Decimal(n)| == Digits(n)
  {
    if n >= 10 { DecimalLength(n / 10); }
  }

  lemma ItemLength(x: Item)
    ensures |ItemText(x)| == ItemLen(x)
  {
    EscapedLength(x.snippet);
    if x.limit.Some? { DecimalLength(x.limit.value); }
  }

  lemma {:induction false} ListLength(items: seq<Item>)
    ensures |ListText(items)| == ListLen(items)
  {
    hide ItemText, ItemLen;
    if items != [] {
      ItemLength(items[|items| - 1]);
      ListLength(items[..|items| - 1]);
    }
  }

  // The lengths are those of the text.
  lemma PayloadLength(items: seq<Item>)
    ensures |PayloadText(items)| == PayloadLen(items)
  {
    ListLength(items);
  }

  // ---- The budget -----------------------------------------------------------------------

  // What int() makes of the requested budget.
  datatype Request = Default | Number(n: int) | NotANumber

  function Normalize(r: Request): Option<nat> {
    match r
    case Default => Some(4000)
    case NotANumber => None
    case Number(n) => if n < 1 then None else Some(if n < 64 then 64 else if n > 50000 then 50000 else n)
  }

  // ---- One candidate -----------------------------------------------------------------------

  const LADDER: seq<Option<nat>> := [None, Some(500), Some(240), Some(120), Some(60), Some(20), Some(0)]

  function Trial(c: Candidate, limit: Option<nat>): Item {
    match limit
    case None => Item(c, c.snippet, false, None)
    case Some(n) => if |c.snippet| > n then Item(c, c.snippet[..n], true, limit) else Item(c, c.snippet, false, limit)
  }

  predicate Fits(items: seq<Item>, x: Item, budget: nat) {
    PayloadLen(items + [x]) <= budget
  }

  // The first step of the ladder, from step j on, that fits.
  function FirstFit(items: seq<Item>, c: Candidate, budget: nat, j: nat): Option<Item>
    requires j <= |LADDER|
    decreases |LADDER| - j
  {
    if j == |LADDER| then None
    else if Fits(items, Trial(c, LADDER[j]), budget) then Some(Trial(c, LADDER[j]))
    else FirstFit(items, c, budget, j + 1)
  }

  // ---- All candidates ----------------------------------------------------------------------

  function Insert(c: Candidate, cs: seq<Candidate>): seq<Candidate> {
    if cs == [] || c.rank <= cs[0].rank then [c] + cs else [cs[0]] + Insert(c, cs[1..])
  }

  // sorted(), which is stable.
  function SortByRank(cs: seq<Candidate>): seq<Candidate> {
    if cs == [] then [] else Insert(cs[0], SortByRank(cs[1..]))
  }

  function Kept(decisions: seq<Option<Item>>): seq<Item> {
    if decisions == [] then []
    else
      var x := decisions[|decisions| - 1];
      Kept(decisions[..|decisions| - 1]) + if x.None? then [] else [x.value]
  }

  function Dropped(order: seq<Candidate>, decisions: seq<Option<Item>>): seq<Candidate>
    requires |order| == |decisions|
  {
    if order == [] then []
    else
      var n := |order| - 1;
      Dropped(order[..n], decisions[..n]) + if decisions[n].None? then [order[n]] else []
  }

  function Decisions(order: seq<Candidate>, budget: nat): (d: seq<Option<Item>>)
    ensures |d| == |order|
  {
    if order == [] then []
    else
      var d := Decisions(order[..|order| - 1], budget);
      d + [FirstFit(Kept(d), order[|order| - 1], budget, 0)]
  }

  function Truncated(items: seq<Item>): nat {
    if items == [] then 0
    else Truncated(items[..|items| - 1]) + if items[|items| - 1].truncated then 1 else 0
  }

  datatype Status = Fine | Degraded | Blocked

  datatype Packing = Packing(items: seq<Item>, omitted: seq<Candidate>, used: nat, remaining: nat,
                             truncations: nat, status: Status)

  method Pack(candidates: seq<Candidate>, budget: nat) returns (p: Packing)
    ensures var order := SortByRank(candidates); var d := Decisions(order, budget);
      p.items == Kept(d) && p.omitted == Dropped(order, d)
    ensures p.used == |PayloadText(p.items)| && p.remaining == (if p.used < budget then budget - p.used else 0)
    ensures p.truncations == |set i | 0 <= i < |p.items| && p.items[i].truncated|
    ensures p.status == Blocked <==> p.items == [] && candidates != []
    ensures p.status == Fine <==> p.omitted == [] && p.truncations == 0
  {
    hide FirstFit, Decisions, Kept, Dropped, Truncated, SortByRank, Trial, ItemLen, ListLen;
    var order := SortByRank(candidates);
    var selected, omitted, truncations := [], [], 0;
    NoDecisions(budget);
    for i := 0 to |order|
      invariant selected == Kept(Decisions(order[..i], budget))
      invariant omitted == Dropped(order[..i], Decisions(order[..i], budget))
      invariant truncations == Truncated(selected) && |selected| + |omitted| == i
    {
      assert order[..i + 1] == order[..i] + [order[i]];
      var accepted := None;
      var j := 0;
      while j < |LADDER|
        invariant j <= |LADDER| && accepted.None?
        invariant FirstFit(selected, order[i], budget, 0) == FirstFit(selected, order[i], budget, j)
        decreases |LADDER| - j
      {
        var trial := Trial(order[i], LADDER[j]);
        FirstFitStep(selected, order[i], budget, j);
        if PayloadLen(selected + [trial]) <= budget {
          accepted := Some(trial);
          break;
        }
        j := j + 1;
      }
      FirstFitEnds(selected, order[i], budget);
      NextDecision(order[..i], order[i], budget);
      if accepted.None? {
        omitted := omitted + [order[i]];
      } else {
        TruncatedStep(selected, accepted.value);
        if accepted.value.truncated { truncations := truncations + 1; }
        selected := selected + [accepted.value];
      }
    }
    assert order[..|order|] == order;
    SortLength(candidates);
    var used := PayloadLen(selected);
    PayloadLength(selected);
    TruncatedItems(selected);
    var status := Fine;
    if omitted != [] || truncations != 0 { status := Degraded; }
    if selected == [] && candidates != [] { status := Blocked; }
    p := Packing(selected, omitted, used, if budget > used then budget - used else 0, truncations, status);
  }

  lemma NoDecisions(budget: nat)
    ensures Decisions([], budget) == [] && Kept([]) == [] && Dropped([], []) == [] && Truncated([]) == 0
  {
  }

  lemma FirstFitStep(items: seq<Item>, c: Candidate, budget: nat, j: nat)
    requires j < |LADDER|
    ensures var x := Trial(c, LADDER[j]);
      FirstFit(items, c, budget, j) == if PayloadLen(items + [x]) <= budget then Some(x) else FirstFit(items, c, budget, j + 1)
  {
    hide Trial, PayloadLen;
  }

  lemma FirstFitEnds(items: seq<Item>, c: Candidate, budget: nat)
    ensures FirstFit(items, c, budget, |LADDER|) == None
  {
  }

  lemma {:induction false} TruncatedItems(items: seq<Item>)
    ensures Truncated(items) == |set i | 0 <= i < |items| && items[i].truncated|
  {
    var found := set i | 0 <= i < |items| && items[i].truncated;
    if items != [] {
      var (init, n) := (items[..|items| - 1], |items| - 1);
      TruncatedItems(init);
      var before := set i | 0 <= i < |init| && init[i].truncated;
      if items[n].truncated { assert found == before + {n}; } else { assert found == before; }
    }
  }

  lemma TruncatedStep(items: seq<Item>, x: Item)
    ensures Truncated(items + [x]) == Truncated(items) + if x.truncated then 1 else 0
  {
    assert (items + [x])[..|items|] == items;
  }

  lemma NextDecision(order: seq<Candidate>, c: Candidate, budget: nat)
    ensures var d := Decisions(order, budget); var a := FirstFit(Kept(d), c, budget, 0);
      && Decisions(order + [c], budget) == d + [a]
      && Kept(d + [a]) == Kept(d) + (if a.None? then [] else [a.value])
      && Dropped(order + [c], d + [a]) == Dropped(order, d) + (if a.None? then [c] else [])
  {
    hide FirstFit;
    var (w, n) := (order + [c], |order|);
    var d := Decisions(order, budget);
    var e := d + [FirstFit(Kept(d), c, budget, 0)];
    assert w[..n] == order && w[n] == c && e[..n] == d;
  }

  // ---- The sort --------------------------------------------------------------------------

  predicate Ranked(cs: seq<Candidate>) {
    forall i, j | 0 <= i < j < |cs| :: cs[i].rank <= cs[j].rank
  }

  // The candidates of one rank, in the order they came.
  function OfRank(cs: seq<Candidate>, r: int): seq<Candidate> {
    if cs == [] then [] else (if cs[0].rank == r then [cs[0]] else []) + OfRank(cs[1..], r)
  }

  lemma {:induction false} InsertRanked(c: Candidate, cs: seq<Candidate>)
    requires Ranked(cs)
    ensures var w := Insert(c, cs); |w| == |cs| + 1 && Ranked(w) && multiset(w) == multiset(cs) + multiset{c}
    ensures Insert(c, cs)[0] == c || (cs != [] && Insert(c, cs)[0] == cs[0])
  {
    hide Ranked;
    if cs != [] && c.rank > cs[0].rank {
      assert cs == [cs[0]] + cs[1..];
      RankedTail(cs);
      InsertRanked(c, cs[1..]);
      RankedCons(cs[0], Insert(c, cs[1..]));
    } else {
      RankedCons(c, cs);
    }
  }

  lemma RankedTail(cs: seq<Candidate>)
    requires Ranked(cs) && cs != []
    ensures Ranked(cs[1..]) && (|cs| > 1 ==> cs[0].rank <= cs[1].rank)
  {
    assert forall k | 0 <= k < |cs| - 1 :: cs[1..][k] == cs[k + 1];
  }

  lemma OfRankCons(c: Candidate, cs: seq<Candidate>, r: int)
    ensures OfRank([c] + cs, r) == (if c.rank == r then [c] else []) + OfRank(cs, r)
  {
    assert ([c] + cs)[1..] == cs;
  }

  lemma {:induction false} InsertOfRank(c: Candidate, cs: seq<Candidate>, r: int)
    ensures OfRank(Insert(c, cs), r) == (if c.rank == r then [c] else []) + OfRank(cs, r)
  {
    hide OfRank;
    if cs != [] && c.rank > cs[0].rank {
      InsertOfRank(c, cs[1..], r);
      OfRankCons(cs[0], Insert(c, cs[1..]), r);
      OfRankCons(cs[0], cs[1..], r);
      assert cs == [cs[0]] + cs[1..];
    } else {
      OfRankCons(c, cs, r);
    }
  }

  lemma RankedCons(c: Candidate, cs: seq<Candidate>)
    requires Ranked(cs) && (cs != [] ==> c.rank <= cs[0].rank)
    ensures Ranked([c] + cs)
  {
  }

  lemma {:induction false} SortLength(cs: seq<Candidate>)
    ensures |SortByRank(cs)| == |cs|
  {
    SortLaw(cs, 0);
  }

  // The order is by rank, and candidates of the same rank keep the order they came in.
  lemma {:induction false} SortLaw(cs: seq<Candidate>, r: int)
    ensures var order := SortByRank(cs);
      |order| == |cs| && Ranked(order) && multiset(order) == multiset(cs) && OfRank(order, r) == OfRank(cs, r)
  {
    hide Ranked;
    if cs == [] {
      EmptyIsRanked();
    } else {
      SortLaw(cs[1..], r);
      var rest := SortByRank(cs[1..]);
      InsertRanked(cs[0], rest);
      InsertOfRank(cs[0], rest, r);
      assert cs == [cs[0]] + cs[1..];
    }
  }

  // ---- What is packed ------------------------------------------------------------------------

  // x is what the ladder makes of a candidate after some items: no earlier step fits.
  predicate FirstThatFits(items: seq<Item>, c: Candidate, budget: nat, x: Item) {
    exists j | 0 <= j < |LADDER| ::
      x == Trial(c, LADDER[j]) && Fits(items, x, budget) && forall i | 0 <= i < j :: !Fits(items, Trial(c, LADDER[i]), budget)
  }

  predicate NothingFits(items: seq<Item>, c: Candidate, budget: nat) {
    forall j | 0 <= j < |LADDER| :: !Fits(items, Trial(c, LADDER[j]), budget)
  }

  lemma {:induction false} FirstFitLaw(items: seq<Item>, c: Candidate, budget: nat, j: nat)
    requires j <= |LADDER| && forall i | 0 <= i < j :: !Fits(items, Trial(c, LADDER[i]), budget)
    ensures match FirstFit(items, c, budget, j)
      case Some(x) => FirstThatFits(items, c, budget, x)
      case None => NothingFits(items, c, budget)
    decreases |LADDER| - j
  {
    hide Trial, Fits;
    if j < |LADDER| && !Fits(items, Trial(c, LADDER[j]), budget) { FirstFitLaw(items, c, budget, j + 1); }
  }

  lemma {:induction false} DecisionsPrefix(order: seq<Candidate>, budget: nat, n: nat)
    requires n <= |order|
    ensures Decisions(order[..n], budget) == Decisions(order, budget)[..n]
  {
    hide FirstFit;
    if n == |order| {
      assert order[..n] == order && Decisions(order, budget)[..n] == Decisions(order, budget);
    } else {
      var init := order[..|order| - 1];
      assert init[..n] == order[..n];
      DecisionsPrefix(init, budget, n);
    }
  }

  // Each decision is the one the ladder gives after the items packed before.
  lemma DecisionAt(order: seq<Candidate>, budget: nat, i: nat)
    requires i < |order|
    ensures var d := Decisions(order, budget); d[i] == FirstFit(Kept(d[..i]), order[i], budget, 0)
  {
    hide FirstFit, Kept;
    DecisionsPrefix(order, budget, i);
    DecisionsPrefix(order, budget, i + 1);
    assert order[..i + 1][..i] == order[..i] && order[..i + 1][i] == order[i];
    assert Decisions(order, budget)[i] == Decisions(order, budget)[..i + 1][i];
  }

  lemma ListGrows(items: seq<Item>, x: Item)
    ensures ListLen(items + [x]) == ListLen(items) + ItemLen(x) + (if items != [] then 1 else 0)
  {
    var w := items + [x];
    assert w[..|w| - 1] == items && w[|w| - 1] == x;
  }

  lemma {:induction false} KeptGrows(d: seq<Option<Item>>, i: nat)
    requires i <= |d|
    ensures Kept(d[..i]) <= Kept(d) && ListLen(Kept(d[..i])) <= ListLen(Kept(d))
  {
    hide ItemLen, ListLen;
    if i == |d| {
      assert d[..i] == d;
    } else {
      var init := d[..|d| - 1];
      assert init[..i] == d[..i];
      KeptGrows(init, i);
      var x := d[|d| - 1];
      if x.None? {
        assert Kept(d) == Kept(init);
      } else {
        assert Kept(d) == Kept(init) + [x.value];
        ListGrows(Kept(init), x.value);
      }
    }
  }

  // The payload stays within the budget, unless even an empty one is too long.
  lemma {:induction false} WithinBudget(order: seq<Candidate>, budget: nat)
    requires budget >= PayloadLen([])
    ensures PayloadLen(Kept(Decisions(order, budget))) <= budget
  {
    hide Trial, FirstFit, ListLen, Kept;
    NoDecisions(budget);
    if order != [] {
      var (init, c) := (order[..|order| - 1], order[|order| - 1]);
      WithinBudget(init, budget);
      var kept := Kept(Decisions(init, budget));
      FirstFitLaw(kept, c, budget, 0);
      NextDecision(init, c, budget);
      assert order == init + [c];
      var x := FirstFit(kept, c, budget, 0);
      if x.None? {
        assert Kept(Decisions(order, budget)) == kept;
      } else {
        assert Fits(kept, x.value, budget);
      }
    }
  }

  // For every requested budget that is accepted.
  lemma RequestedBudgetHolds(candidates: seq<Candidate>, request: Request)
    requires Normalize(request).Some?
    ensures var budget := Normalize(request).value;
      64 <= budget <= 50000 && |PayloadText(Kept(Decisions(SortByRank(candidates), budget)))| <= budget
  {
    hide Decisions, SortByRank, Kept, PayloadText;
    EmptyPayload();
    PayloadLength(Kept(Decisions(SortByRank(candidates), Normalize(request).value)));
    WithinBudget(SortByRank(candidates), Normalize(request).value);
  }

  // A request is refused exactly when it is no number or a number below 1; an accepted one
  // stands for itself, or for the nearest of 64 and 50000, and none for 4000.
  lemma BudgetExactly(request: Request)
    ensures Normalize(request) == None <==> request == NotANumber || (request.Number? && request.n < 1)
    ensures match Normalize(request)
      case None => true
      case Some(b) =>
        match request
        case Number(n) => if b == 64 then n <= 64 else if b == 50000 then n >= 50000 else b == n && 64 < b < 50000
        case _ => b == 4000
  {
  }

  lemma EmptyPayload()
    ensures PayloadLen([]) == 12
  {
  }

  // ---- What is omitted ---------------------------------------------------------------------

  lemma LimitDigits()
    ensures Digits(0) == 1 && forall j | 1 <= j < |LADDER| - 1 :: LADDER[j].Some? && LADDER[j].value >= 10
  {
  }

  // The last step gives the shortest item.
  lemma LastStepIsShortest(c: Candidate, j: nat)
    requires j < |LADDER|
    ensures ItemLen(Trial(c, LADDER[|LADDER| - 1])) <= ItemLen(Trial(c, LADDER[j]))
  {
    LimitDigits();
    assert c.snippet[..0] == "" && TextLen("") == 0;
    assert |c.snippet| == 0 ==> c.snippet == "";
  }

  // A candidate that does not fit after some items does not fit after more of them.
  lemma NothingFitsLater(items: seq<Item>, more: seq<Item>, c: Candidate, budget: nat)
    requires NothingFits(items, c, budget) && ListLen(items) <= ListLen(more) && (items != [] ==> more != [])
    ensures NothingFits(more, c, budget)
  {
    hide Trial, ItemLen, ListLen;
    forall j | 0 <= j < |LADDER| ensures !Fits(more, Trial(c, LADDER[j]), budget) {
      assert !Fits(items, Trial(c, LADDER[j]), budget);
      ListGrows(items, Trial(c, LADDER[j]));
      ListGrows(more, Trial(c, LADDER[j]));
    }
  }

  // A limit on the snippet, from no limit down to no snippet.
  predicate Rung(limit: Option<nat>) {
    limit == None || limit.value in {500, 240, 120, 60, 20, 0}
  }

  predicate Longer(a: Option<nat>, b: Option<nat>) {
    b.Some? && (a == None || a.value > b.value)
  }

  // x is the item of c whose snippet is cut to the limit.
  predicate CutTo(x: Item, c: Candidate, limit: Option<nat>) {
    && x.of == c && x.limit == limit && x.snippet <= c.snippet
    && match limit
       case None => x.snippet == c.snippet && !x.truncated
       case Some(n) =>
         |x.snippet| == (if |c.snippet| < n then |c.snippet| else n) && (x.truncated <==> |c.snippet| > n)
  }

  // x is the item of c with the longest snippet whose payload is not too long after `items`.
  ghost predicate LongestThatFits(items: seq<Item>, c: Candidate, budget: nat, x: Item) {
    && Rung(x.limit) && CutTo(x, c, x.limit) && |PayloadText(items + [x])| <= budget
    && forall y: Item | CutTo(y, c, y.limit) && Rung(y.limit) && Longer(y.limit, x.limit) :: |PayloadText(items + [y])| > budget
  }

  ghost predicate NoneFits(items: seq<Item>, c: Candidate, budget: nat) {
    forall y: Item | CutTo(y, c, y.limit) && Rung(y.limit) :: |PayloadText(items + [y])| > budget
  }

  lemma CutIsTrial(x: Item, c: Candidate)
    ensures CutTo(x, c, x.limit) <==> x == Trial(c, x.limit)
  {
    if x.limit.Some? && CutTo(x, c, x.limit) { assert x.snippet == c.snippet[..|x.snippet|]; }
  }

  // The ladder holds the rungs, from the longest on.
  lemma Rungs(limit: Option<nat>) returns (j: nat)
    requires Rung(limit)
    ensures j < |LADDER| && LADDER[j] == limit && forall i | 0 <= i < |LADDER| :: Longer(LADDER[i], limit) <==> i < j
  {
    if limit == None { j := 0; }
    else if limit.value == 500 { j := 1; }
    else if limit.value == 240 { j := 2; }
    else if limit.value == 120 { j := 3; }
    else if limit.value == 60 { j := 4; }
    else if limit.value == 20 { j := 5; }
    else { j := 6; }
  }

  lemma OnRungs(j: nat)
    requires j < |LADDER|
    ensures Rung(LADDER[j])
  {
  }

  lemma FirstIsLongest(items: seq<Item>, c: Candidate, budget: nat, x: Item)
    requires FirstThatFits(items, c, budget, x)
    ensures LongestThatFits(items, c, budget, x)
  {
    hide Trial, CutTo, PayloadText, PayloadLen, Rung, Longer;
    var j :| 0 <= j < |LADDER| && x == Trial(c, LADDER[j]) && forall i | 0 <= i < j :: !Fits(items, Trial(c, LADDER[i]), budget);
    TrialLimit(c, LADDER[j]);
    CutIsTrial(x, c);
    OnRungs(j);
    PayloadLength(items + [x]);
    forall y: Item | CutTo(y, c, y.limit) && Rung(y.limit) && Longer(y.limit, x.limit)
      ensures |PayloadText(items + [y])| > budget
    {
      CutIsTrial(y, c);
      PayloadLength(items + [y]);
      var i := Rungs(y.limit);
      var k := Rungs(x.limit);
      Steps(j, k);
      assert Longer(LADDER[i], LADDER[k]);
    }
  }

  lemma Steps(j: nat, k: nat)
    requires j < |LADDER| && k < |LADDER| && LADDER[j] == LADDER[k]
    ensures j == k
  {
  }

  lemma TrialLimit(c: Candidate, limit: Option<nat>)
    ensures Trial(c, limit).limit == limit
  {
  }

  lemma NothingIsNone(items: seq<Item>, c: Candidate, budget: nat)
    requires NothingFits(items, c, budget)
    ensures NoneFits(items, c, budget)
  {
    hide Trial, CutTo, PayloadText, PayloadLen, Rung, Longer;
    forall y: Item | CutTo(y, c, y.limit) && Rung(y.limit) ensures |PayloadText(items + [y])| > budget {
      CutIsTrial(y, c);
      PayloadLength(items + [y]);
      var i := Rungs(y.limit);
    }
  }

  // The packing law, candidate by candidate in rank order: what was packed of one is the item
  // with its longest snippet that fits after the items packed before it; one that was omitted
  // would not fit the final payload, not even without its snippet.
  lemma EachDecision(order: seq<Candidate>, budget: nat, i: nat)
    requires i < |order|
    ensures var d := Decisions(order, budget);
      match d[i]
      case Some(x) => LongestThatFits(Kept(d[..i]), order[i], budget, x)
      case None => NoneFits(Kept(d), order[i], budget)
  {
    hide FirstThatFits, NothingFits, LongestThatFits, NoneFits, Decisions, Kept;
    EachStep(order, budget, i);
    var d := Decisions(order, budget);
    match d[i]
    case Some(x) => FirstIsLongest(Kept(d[..i]), order[i], budget, x);
    case None => NothingIsNone(Kept(d), order[i], budget);
  }

  lemma EachStep(order: seq<Candidate>, budget: nat, i: nat)
    requires i < |order|
    ensures var d := Decisions(order, budget);
      match d[i]
      case Some(x) => FirstThatFits(Kept(d[..i]), order[i], budget, x)
      case None => NothingFits(Kept(d), order[i], budget)
  {
    hide FirstFit, Fits, Decisions, Kept, ListLen, NothingFits;
    var d := Decisions(order, budget);
    DecisionAt(order, budget, i);
    FirstFitLaw(Kept(d[..i]), order[i], budget, 0);
    KeptGrows(d, i);
    if d[i].None? { NothingFitsLater(Kept(d[..i]), Kept(d), order[i], budget); }
  }

  // The lists of a packing, place by place: a packed item stands after those of the candidates
  // before it, and so does an omitted candidate; nothing else is in the lists.
  lemma ListsExactly(order: seq<Candidate>, d: seq<Option<Item>>, i: nat)
    requires |d| == |order|
    ensures |Kept(d)| == |set j | 0 <= j < |d| && d[j].Some?| && |Kept(d)| + |Dropped(order, d)| == |d|
    ensures i < |d| ==>
              var (kept, dropped) := (Kept(d[..i]), Dropped(order[..i], d[..i]));
              match d[i]
              case Some(x) => |kept| < |Kept(d)| && Kept(d)[|kept|] == x
              case None => |dropped| < |Dropped(order, d)| && Dropped(order, d)[|dropped|] == order[i]
  {
    hide Kept, Dropped;
    HowMany(order, d);
    if i < |d| { PlaceOf(order, d, i); }
  }

  lemma {:induction false} HowMany(order: seq<Candidate>, d: seq<Option<Item>>)
    requires |d| == |order|
    ensures |Kept(d)| == |set j | 0 <= j < |d| && d[j].Some?| && |Kept(d)| + |Dropped(order, d)| == |d|
  {
    var packed := set j | 0 <= j < |d| && d[j].Some?;
    if d != [] {
      var n := |d| - 1;
      HowMany(order[..n], d[..n]);
      var before := set j | 0 <= j < n && d[..n][j].Some?;
      if d[n].Some? { assert packed == before + {n}; } else { assert packed == before; }
    }
  }

  lemma {:induction false} PlaceOf(order: seq<Candidate>, d: seq<Option<Item>>, i: nat)
    requires |d| == |order| && i < |d|
    ensures var (kept, dropped) := (Kept(d[..i]), Dropped(order[..i], d[..i]));
      match d[i]
      case Some(x) => |kept| < |Kept(d)| && Kept(d)[|kept|] == x
      case None => |dropped| < |Dropped(order, d)| && Dropped(order, d)[|dropped|] == order[i]
  {
    var n := |d| - 1;
    if i < n {
      assert d[..n][..i] == d[..i] && order[..n][..i] == order[..i] && d[..n][i] == d[i];
      PlaceOf(order[..n], d[..n], i);
    }
  }

  // ---- Partition ------------------------------------------------------------------------

  function Sources(items: seq<Item>): seq<Candidate> {
    seq(|items|, k requires 0 <= k < |items| => items[k].of)
  }

  // Every candidate is either packed or omitted, and both lists are in rank order.
  lemma Partition(candidates: seq<Candidate>, budget: nat)
    ensures var order := SortByRank(candidates); var d := Decisions(order, budget);
      && multiset(Sources(Kept(d))) + multiset(Dropped(order, d)) == multiset(candidates)
      && Ranked(Sources(Kept(d))) && Ranked(Dropped(order, d))
  {
    hide Decisions, SortByRank, Dropped, Kept, Sources;
    SortLaw(candidates, 0);
    Split(SortByRank(candidates), budget);
  }

  lemma RankedSnoc(cs: seq<Candidate>, c: Candidate)
    requires Ranked(cs) && forall x | x in cs :: x.rank <= c.rank
    ensures Ranked(cs + [c])
  {
  }

  lemma {:induction false} Split(order: seq<Candidate>, budget: nat)
    requires Ranked(order)
    ensures var d := Decisions(order, budget); var (a, b) := (Sources(Kept(d)), Dropped(order, d));
      multiset(a) + multiset(b) == multiset(order) && Ranked(a) && Ranked(b)
  {
    hide FirstFit, Decisions, Kept, Dropped, Ranked, Sources;
    NoDecisions(budget);
    if order == [] {
      EmptyIsRanked();
    } else {
      var (init, c) := (order[..|order| - 1], order[|order| - 1]);
      assert order == init + [c];
      SplitRanked(init, c);
      Split(init, budget);
      var d := Decisions(init, budget);
      NextDecision(init, c, budget);
      FirstFitOf(Kept(d), c, budget, 0);
      SplitNext(init, c, Kept(d), Dropped(init, d), FirstFit(Kept(d), c, budget, 0));
    }
  }

  lemma SplitNext(init: seq<Candidate>, c: Candidate, kept: seq<Item>, dropped: seq<Candidate>, x: Option<Item>)
    requires multiset(Sources(kept)) + multiset(dropped) == multiset(init)
    requires Ranked(Sources(kept)) && Ranked(dropped) && forall y | y in multiset(init) :: y.rank <= c.rank
    requires x.Some? ==> x.value.of == c
    ensures var (a, b) := (Sources(kept + if x.None? then [] else [x.value]), dropped + if x.None? then [c] else []);
      multiset(a) + multiset(b) == multiset(init + [c]) && Ranked(a) && Ranked(b)
  {
    hide Ranked;
    var (a, b) := (Sources(kept), dropped);
    assert forall y | y in a || y in b :: y in multiset(a) + multiset(b);
    if x.None? {
      assert kept + [] == kept;
      RankedSnoc(b, c);
    } else {
      assert Sources(kept + [x.value]) == a + [c] && dropped + [] == dropped;
      RankedSnoc(a, c);
    }
  }

  lemma EmptyIsRanked()
    ensures Ranked([]) && Sources([]) == []
  {
  }

  lemma SplitRanked(init: seq<Candidate>, c: Candidate)
    requires Ranked(init + [c])
    ensures Ranked(init) && forall x | x in multiset(init) :: x.rank <= c.rank
  {
    var w := init + [c];
    assert forall i | 0 <= i < |init| :: w[i] == init[i];
    forall x | x in multiset(init) ensures x.rank <= c.rank {
      var i :| 0 <= i < |init| && init[i] == x;
      assert w[i].rank <= w[|init|].rank;
    }
  }

  lemma {:induction false} FirstFitOf(items: seq<Item>, c: Candidate, budget: nat, j: nat)
    requires j <= |LADDER|
    ensures var x := FirstFit(items, c, budget, j); x.Some? ==> x.value.of == c
    decreases |LADDER| - j
  {
    hide Fits;
    if j < |LADDER| { FirstFitOf(items, c, budget, j + 1); }
  }

  // ---- Status -----------------------------------------------------------------------------

  lemma {:induction false} NoneKept(order: seq<Candidate>, budget: nat)
    requires forall i | 0 <= i < |order| :: NothingFits([], order[i], budget)
    ensures Kept(Decisions(order, budget)) == []
  {
    hide FirstFit, Decisions, Kept, NothingFits;
    NoDecisions(budget);
    if order != [] {
      var (init, c) := (order[..|order| - 1], order[|order| - 1]);
      assert forall i | 0 <= i < |init| :: init[i] == order[i];
      NoneKept(init, budget);
      NothingThen([], c, budget);
      NextDecision(init, c, budget);
      assert order == init + [c];
    }
  }

  lemma NothingThen(items: seq<Item>, c: Candidate, budget: nat)
    requires NothingFits(items, c, budget)
    ensures FirstFit(items, c, budget, 0) == None
  {
    hide Fits, Trial;
    FirstFitLaw(items, c, budget, 0);
  }

  // The packer is blocked exactly when there are candidates and none of them, alone and
  // without its snippet, fits the budget.
  lemma BlockedExactly(candidates: seq<Candidate>, budget: nat)
    ensures var kept := Kept(Decisions(SortByRank(candidates), budget));
      kept == [] <==> forall c | c in candidates :: !Fits([], Trial(c, Some(0)), budget)
  {
    hide FirstFit, Decisions, Kept, Fits, Trial, SortByRank;
    var order := SortByRank(candidates);
    SortLaw(candidates, 0);
    assert forall c :: c in multiset(candidates) <==> c in multiset(order);
    if Kept(Decisions(order, budget)) == [] {
      forall c | c in candidates ensures !Fits([], Trial(c, Some(0)), budget) {
        assert c in multiset(order);
        var i :| 0 <= i < |order| && order[i] == c;
        EachStep(order, budget, i);
        KeptIsThere(Decisions(order, budget), i);
        assert !Fits([], Trial(c, LADDER[6]), budget);
      }
    }
    if forall c | c in candidates :: !Fits([], Trial(c, Some(0)), budget) {
      forall i | 0 <= i < |order| ensures NothingFits([], order[i], budget) {
        assert order[i] in multiset(order) && order[i] in candidates;
        NotAtLast(order[i], budget);
      }
      NoneKept(order, budget);
    }
  }

  lemma KeptIsThere(d: seq<Option<Item>>, i: nat)
    requires i < |d|
    ensures Kept(d) == [] ==> d[i].None?
  {
    KeptGrows(d, i + 1);
    assert d[..i + 1][i] == d[i];
  }

  lemma NotAtLast(c: Candidate, budget: nat)
    requires !Fits([], Trial(c, Some(0)), budget)
    ensures NothingFits([], c, budget)
  {
    hide Trial, ItemLen, ListLen;
    forall j | 0 <= j < |LADDER| ensures !Fits([], Trial(c, LADDER[j]), budget) {
      LastStepIsShortest(c, j);
      ListGrows([], Trial(c, LADDER[j]));
      ListGrows([], Trial(c, Some(0)));
    }
  }

  // ---- A larger budget -----------------------------------------------------------------------

  function Letters(n: nat): string {
    seq(n, i => 'a')
  }

  lemma {:induction false} LettersLen(n: nat)
    ensures TextLen(Letters(n)) == n
  {
    if n > 0 {
      assert Letters(n)[..n - 1] == Letters(n - 1);
      LettersLen(n - 1);
    }
  }

  lemma DecideTwo(a: Candidate, b: Candidate, budget: nat)
    ensures var x := FirstFit([], a, budget, 0); var first := if x.None? then [] else [x.value];
      var y := FirstFit(first, b, budget, 0);
      Kept(Decisions([a, b], budget)) == first + if y.None? then [] else [y.value]
  {
    hide FirstFit, Decisions, Kept, Dropped;
    NoDecisions(budget);
    NextDecision([], a, budget);
    NextDecision([a], b, budget);
    assert [] + [a] == [a] && [a] + [b] == [a, b];
    var x := FirstFit([], a, budget, 0);
    assert [] + (if x.None? then [] else [x.value]) == if x.None? then [] else [x.value];
  }

  lemma TrialLens(a: Candidate, b: Candidate)
    requires Base(a) == Base(b) == 100 && a.snippet == Letters(1000) && b.snippet == ""
    ensures ItemLen(Trial(a, None)) == 1109 && ItemLen(Trial(a, Some(500))) == 607
    ensures ItemLen(Trial(b, None)) == 109 && ItemLen(Trial(b, Some(0))) == 106
  {
    LettersLen(1000);
    LettersLen(500);
    assert a.snippet[..500] == Letters(500);
    assert Digits(500) == 3;
  }

  // A larger budget can pack fewer candidates: one that then fits whole leaves no room for
  // the next, which fits beside it when the budget is so small that its snippet is cut.
  lemma LargerBudgetPacksLess()
    ensures exists order: seq<Candidate>, small: nat, large: nat ::
      64 <= small < large <= 50000 && |Kept(Decisions(order, large))| < |Kept(Decisions(order, small))|
  {
    hide Trial, ItemLen, ListLen, Decisions, Kept, FirstFit;
    var (a, b) := (Candidate(0, 1, Letters(76), "", Letters(1000)), Candidate(1, 2, Letters(76), "", ""));
    assert Base(a) == Base(b) == 100;
    hide Letters;
    TrialLens(a, b);
    Small(a, b);
    Large(a, b);
    assert |Kept(Decisions([a, b], 1121))| < |Kept(Decisions([a, b], 729))|;
  }

  lemma Small(a: Candidate, b: Candidate)
    requires ItemLen(Trial(a, None)) == 1109 && ItemLen(Trial(a, Some(500))) == 607 && ItemLen(Trial(b, None)) == 109
    ensures |Kept(Decisions([a, b], 729))| == 2
  {
    hide Trial, ItemLen, ListLen, Decisions, Kept, FirstFit;
    EmptyPayload();
    ListGrows([], Trial(a, None));
    ListGrows([], Trial(a, Some(500)));
    ListGrows([Trial(a, Some(500))], Trial(b, None));
    FirstFitStep([], a, 729, 0);
    FirstFitStep([], a, 729, 1);
    assert [] + [Trial(a, Some(500))] == [Trial(a, Some(500))];
    FirstFitStep([Trial(a, Some(500))], b, 729, 0);
    DecideTwo(a, b, 729);
  }

  lemma Large(a: Candidate, b: Candidate)
    requires ItemLen(Trial(a, None)) == 1109 && ItemLen(Trial(b, Some(0))) == 106
    ensures |Kept(Decisions([a, b], 1121))| == 1
  {
    hide Trial, ItemLen, ListLen, Decisions, Kept, FirstFit;
    EmptyPayload();
    var x := Trial(a, None);
    ListGrows([], x);
    FirstFitStep([], a, 1121, 0);
    assert [] + [x] == [x];
    forall j | 0 <= j < |LADDER| ensures !Fits([x], Trial(b, LADDER[j]), 1121) {
      LastStepIsShortest(b, j);
      ListGrows([x], Trial(b, LADDER[j]));
    }
    NothingThen([x], b, 1121);
    DecideTwo(a, b, 1121);
  }
}
