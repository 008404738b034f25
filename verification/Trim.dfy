// Pressure arithmetic (overflow_policy.py) and the trim loop (_trim_blocks of live_overflow.py).
module Trim {
  import opened Text
  import opened Blocks

  datatype Result<+T> = Ok(value: T) | Err(error: PolicyError)
  datatype PolicyError = UnsupportedMarkdownFile | InvalidMarkdownLimit | UnknownMarkdownKind

  // The thresholds are decimal fractions in the source; here they are exact.
  datatype Fraction = Fraction(num: nat, den: nat)
  type Ratio = f: Fraction | f.den > 0 witness Fraction(0, 1)

  datatype Policy = Policy(warning: Ratio, trigger: Ratio, trimTarget: Ratio, limits: map<string, int>)

  const MARKDOWN_LIMITS: map<string, int> := map["MEMORY.md" := 2200, "USER.md" := 1375]
  const DEFAULT_POLICY := Policy(Fraction(80, 100), Fraction(90, 100), Fraction(50, 100), map[])

  function LimitFor(policy: Policy, file: string): Result<int> {
    var limits := if policy.limits == map[] then MARKDOWN_LIMITS else policy.limits;
    if file !in limits then Err(UnsupportedMarkdownFile)
    else if limits[file] <= 0 then Err(InvalidMarkdownLimit)
    else Ok(limits[file])
  }

  datatype PressureState = OverLimit | Trigger | Warning | BelowWarning

  predicate AtLeast(current: nat, limit: nat, r: Ratio) {
    current * r.den >= r.num * limit
  }

  function Pressure(current: nat, limit: nat, policy: Policy): PressureState {
    if current > limit then OverLimit
    else if AtLeast(current, limit, policy.trigger) then Trigger
    else if AtLeast(current, limit, policy.warning) then Warning
    else BelowWarning
  }

  predicate Triggered(current: nat, limit: nat, policy: Policy) {
    Pressure(current, limit, policy) in {Trigger, OverLimit}
  }

  // floor(limit * trim_target_ratio)
  function TargetChars(limit: nat, policy: Policy): nat {
    limit * policy.trimTarget.num / policy.trimTarget.den
  }

  const MARKERS: seq<string> := ["api key", "api_key", "token", "password", "secret", "credential"]

  predicate Protected(block: string) {
    exists m | m in MARKERS :: Contains(Lower(block), m)
  }

  datatype Reason = BelowTrigger | Trimmed | TargetUnreachable
  datatype Plan = Plan(after: string, removed: seq<string>, reason: Reason, reached: bool)

  // ---- What the loop removes: the first m unprotected blocks ------------------------

  function Keep(bs: seq<string>, m: nat): seq<string> {
    if m == 0 || bs == [] then bs
    else if Protected(bs[0]) then [bs[0]] + Keep(bs[1..], m)
    else Keep(bs[1..], m - 1)
  }

  function Gone(bs: seq<string>, m: nat): seq<string> {
    if m == 0 || bs == [] then []
    else if Protected(bs[0]) then Gone(bs[1..], m)
    else [bs[0]] + Gone(bs[1..], m - 1)
  }

  function Unprotected(bs: seq<string>): nat {
    if bs == [] then 0 else (if Protected(bs[0]) then 0 else 1) + Unprotected(bs[1..])
  }

  // Removing stops here: short enough, or one block left, or only protected blocks left.
  predicate Done(bs: seq<string>, target: nat, m: nat) {
    || |Join(Keep(bs, m))| <= target
    || |Keep(bs, m)| <= 1
    || forall b | b in Keep(bs, m) :: Protected(b)
  }

  // The least number of removals, counted from m, after which the loop stops.
  function CutFrom(bs: seq<string>, target: nat, m: nat): (n: nat)
    requires m <= Unprotected(bs)
    ensures m <= n <= Unprotected(bs) && Done(bs, target, n)
    ensures forall k | m <= k < n :: !Done(bs, target, k)
    decreases Unprotected(bs) - m
  {
    AllGone(bs);
    if Done(bs, target, m) then m else CutFrom(bs, target, m + 1)
  }

  function Cut(bs: seq<string>, target: nat): nat {
    CutFrom(bs, target, 0)
  }

  function PlanTrim(text: string, file: string, policy: Policy): Result<Plan> {
    match LimitFor(policy, file)
    case Err(e) => Err(e)
    case Ok(limit) =>
      if file !in MARKDOWN_LIMITS then Err(UnknownMarkdownKind)
      else if !Triggered(|text|, limit, policy) then Ok(Plan(text, [], BelowTrigger, false))
      else
        var (bs, target) := (Split(text), TargetChars(limit, policy));
        var m := Cut(bs, target);
        var after := if m == 0 then text else Join(Keep(bs, m));
        Ok(Plan(after, Gone(bs, m), if m > 0 && |after| <= target then Trimmed else TargetUnreachable, |after| <= target))
  }

  lemma {:induction false} AllGone(bs: seq<string>)
    ensures forall b | b in Keep(bs, Unprotected(bs)) :: Protected(b)
  {
    if bs != [] { AllGone(bs[1..]); }
  }

  lemma {:induction false} KeepMore(bs: seq<string>, m: nat)
    ensures Keep(bs, m + 1) == Keep(Keep(bs, m), 1)
    ensures Gone(bs, m + 1) == Gone(bs, m) + Gone(Keep(bs, m), 1)
  {
    if m == 0 {
      assert [] + Gone(bs, 1) == Gone(bs, 1);
    } else if bs != [] {
      var (b, rest) := (bs[0], bs[1..]);
      if Protected(b) {
        KeepMore(rest, m);
        assert ([b] + Keep(rest, m))[1..] == Keep(rest, m);
      } else {
        KeepMore(rest, m - 1);
        assert ([b] + Gone(rest, m - 1)) + Gone(Keep(rest, m - 1), 1) == [b] + (Gone(rest, m - 1) + Gone(Keep(rest, m - 1), 1));
      }
    }
  }

  lemma {:induction false} KeepOne(ks: seq<string>, i: nat)
    requires i < |ks| && !Protected(ks[i]) && forall j | 0 <= j < i :: Protected(ks[j])
    ensures Keep(ks, 1) == ks[..i] + ks[i + 1..] && Gone(ks, 1) == [ks[i]]
  {
    if i > 0 {
      KeepOne(ks[1..], i - 1);
      assert ks[..i] == [ks[0]] + ks[1..][..i - 1] && ks[1..][i..] == ks[i + 1..];
    } else {
      assert Gone(ks[1..], 0) == [];
    }
  }

  lemma {:induction false} KeepSize(bs: seq<string>, m: nat)
    requires m <= Unprotected(bs)
    ensures |Keep(bs, m)| + m == |bs| && |Gone(bs, m)| == m
  {
    if m > 0 { KeepSize(bs[1..], if Protected(bs[0]) then m else m - 1); }
  }

  lemma {:induction false} UnprotectedPositive(bs: seq<string>, m: nat, i: nat)
    requires m <= Unprotected(bs) && i < |Keep(bs, m)| && !Protected(Keep(bs, m)[i])
    ensures m < Unprotected(bs)
  {
    AllGone(bs);
    var b := Keep(bs, m)[i];
    assert b in Keep(bs, m);
  }

  // One more block is removed.
  lemma TakesOne(bs: seq<string>, target: nat, m: nat, i: nat)
    requires m <= Unprotected(bs)
    requires var kept := Keep(bs, m);
      && |Join(kept)| > target && |kept| > 1 && i < |kept| && !Protected(kept[i]) && forall j | 0 <= j < i :: Protected(kept[j])
    ensures var kept := Keep(bs, m);
      && m < Unprotected(bs) && !Done(bs, target, m)
      && Keep(bs, m + 1) == kept[..i] + kept[i + 1..] && Gone(bs, m + 1) == Gone(bs, m) + [kept[i]]
  {
    hide Protected, Join, Unprotected;
    var kept := Keep(bs, m);
    assert kept[i] in kept;
    assert !Done(bs, target, m);
    hide Done, Keep, Gone;
    UnprotectedPositive(bs, m, i);
    KeepMore(bs, m);
    KeepOne(kept, i);
  }

  // The loop of _trim_blocks: walk the kept blocks from the front, skip protected ones,
  // remove the others, and stop as soon as the joined file is short enough.
  method TrimBlocks(text: string, file: string, policy: Policy) returns (r: Result<Plan>)
    ensures r == PlanTrim(text, file, policy)
  {
    hide Protected, Triggered, Split, TargetChars, Keep, Gone, Unprotected, Join, Done, Cut;
    var limit := LimitFor(policy, file);
    if limit.Err? { return Err(limit.error); }
    if file !in MARKDOWN_LIMITS { return Err(UnknownMarkdownKind); }
    if !Triggered(|text|, limit.value, policy) {
      return Ok(Plan(text, [], BelowTrigger, false));
    }
    var target := TargetChars(limit.value, policy);
    var kept, removed, i := Split(text), [], 0;
    ghost var bs := kept;
    NothingYet(bs);
    while |Join(kept)| > target && |kept| > 1 && i < |kept|
      invariant i <= |kept| && |removed| <= Unprotected(bs)
      invariant kept == Keep(bs, |removed|) && removed == Gone(bs, |removed|)
      invariant forall j | 0 <= j < i :: Protected(kept[j])
      invariant forall k | 0 <= k < |removed| :: !Done(bs, target, k)
      decreases |kept| - i
    {
      if Protected(kept[i]) {
        i := i + 1;
      } else {
        TakesOne(bs, target, |removed|, i);
        removed := removed + [kept[i]];
        kept := kept[..i] + kept[i + 1..];
      }
    }
    IsDone(bs, target, |removed|);
    CutUnique(bs, target, |removed|);
    var after := if removed != [] then Join(kept) else text;
    var reached := |after| <= target;
    r := Ok(Plan(after, removed, if removed != [] && reached then Trimmed else TargetUnreachable, reached));
  }

  lemma NothingYet(bs: seq<string>)
    ensures Keep(bs, 0) == bs && Gone(bs, 0) == []
  {
  }

  lemma IsDone(bs: seq<string>, target: nat, m: nat)
    requires var kept := Keep(bs, m);
      |Join(kept)| <= target || |kept| <= 1 || forall j | 0 <= j < |kept| :: Protected(kept[j])
    ensures Done(bs, target, m)
  {
    hide Protected, Join, Keep;
  }

  lemma CutUnique(bs: seq<string>, target: nat, m: nat)
    requires m <= Unprotected(bs) && Done(bs, target, m)
    requires forall k | 0 <= k < m :: !Done(bs, target, k)
    ensures Cut(bs, target) == m
  {
    var n := Cut(bs, target);
    assert !(n < m) && !(m < n);
  }

  // ---- The policy in plain arithmetic --------------------------------------------------

  // Which limit holds for a file.
  lemma LimitExactly(policy: Policy, file: string, n: int)
    ensures LimitFor(policy, file) == Ok(n) <==>
              n > 0 && (if policy.limits == map[] then (file == "MEMORY.md" && n == 2200) || (file == "USER.md" && n == 1375)
                        else file in policy.limits && policy.limits[file] == n)
  {
  }

  // The target is the whole part of the limit times the ratio.
  lemma TargetExactly(limit: nat, policy: Policy)
    ensures var t := TargetChars(limit, policy);
            t * policy.trimTarget.den <= limit * policy.trimTarget.num < (t + 1) * policy.trimTarget.den
  {
    var (x, d) := (limit * policy.trimTarget.num, policy.trimTarget.den);
    assert x == (x / d) * d + x % d && 0 <= x % d < d;
  }

  // The plan leaves a file alone as below the trigger exactly when it is neither over its limit
  // nor at the trigger ratio of it.
  lemma BelowTriggerExactly(text: string, file: string, policy: Policy)
    requires PlanTrim(text, file, policy).Ok?
    ensures var (p, limit) := (PlanTrim(text, file, policy).value, LimitFor(policy, file).value);
            && (p.reason == BelowTrigger <==> |text| <= limit && |text| * policy.trigger.den < policy.trigger.num * limit)
            && (p.reason == BelowTrigger ==> p.after == text && p.removed == [])
  {
  }

  // Otherwise it says whether the target is reached, and calls that trimmed only if it has
  // removed anything.
  lemma VerdictExactly(text: string, file: string, policy: Policy)
    requires PlanTrim(text, file, policy).Ok? && PlanTrim(text, file, policy).value.reason != BelowTrigger
    ensures var (p, limit) := (PlanTrim(text, file, policy).value, LimitFor(policy, file).value);
            && (p.reached <==> |p.after| * policy.trimTarget.den <= limit * policy.trimTarget.num)
            && (p.reason == Trimmed <==> p.reached && p.removed != []) && (p.reason == TargetUnreachable <==> !p.reached || p.removed == [])
  {
    var (p, limit) := (PlanTrim(text, file, policy).value, LimitFor(policy, file).value);
    var (t, d, n) := (TargetChars(limit, policy), policy.trimTarget.den, |p.after|);
    TargetExactly(limit, policy);
    if n <= t { MulLe(n, t, d); } else { MulLe(t + 1, n, d); }
    TrimPartition(text, file, policy);
    KeepSize(Split(text), Cut(Split(text), t));
  }

  // A file that cannot be planned for: no positive limit for it, or a name that is no memory file.
  lemma RefusedExactly(text: string, file: string, policy: Policy)
    ensures PlanTrim(text, file, policy).Err? <==> LimitFor(policy, file).Err? || (file != "MEMORY.md" && file != "USER.md")
  {
  }

  // ---- Protection, letter by letter ----------------------------------------------------

  predicate SameLetter(c: char, low: char) {
    c == low || ('a' <= low <= 'z' && c as int + 32 == low as int) || (low == 'k' && c == '\U{212A}')
  }

  predicate Spells(b: string, i: nat, word: string) {
    i + |word| <= |b| && forall j | 0 <= j < |word| :: SameLetter(b[i + j], word[j])
  }

  // A block is protected exactly when one of six words stands in it, in whatever case.
  lemma ProtectedExactly(b: string)
    ensures Protected(b) <==>
              exists i: nat, word :: word in {"api key", "api_key", "token", "password", "secret", "credential"} && Spells(b, i, word)
  {
    hide Spells;
    if Protected(b) {
      var word :| word in MARKERS && Contains(Lower(b), word);
      var i := SpellsFound(b, word);
    }
    if i: nat, word :| word in {"api key", "api_key", "token", "password", "secret", "credential"} && Spells(b, i, word) {
      SpelledIsThere(b, i, word);
    }
  }

  lemma SpellsFound(b: string, word: string) returns (i: nat)
    requires word in MARKERS && Contains(Lower(b), word)
    ensures Spells(b, i, word)
  {
    i :| 0 <= i <= |Lower(b)| - |word| && word <= Lower(b)[i..];
    forall j | 0 <= j < |word| ensures SameLetter(b[i + j], word[j]) { LowerAt(b, i, word, j); }
  }

  lemma LowerAt(b: string, i: nat, word: string, j: nat)
    requires i <= |b| - |word| && word <= Lower(b)[i..] && j < |word|
    ensures i + j < |b| && SameLetter(b[i + j], word[j])
  {
    hide Lower;
    assert word[j] == Lower(b)[i..][j] == Lower(b)[i + j];
  }

  lemma SpelledIsThere(b: string, i: nat, word: string)
    requires word in {"api key", "api_key", "token", "password", "secret", "credential"} && Spells(b, i, word)
    ensures word in MARKERS && Contains(Lower(b), word)
  {
    LowerWords();
    assert LowerCase(word);
    hide LowerCase;
    forall j | 0 <= j < |word| ensures Lower(b)[i..][j] == word[j] { LetterAt(b, i, word, j); }
    assert word <= Lower(b)[i..];
  }

  lemma LetterAt(b: string, i: nat, word: string, j: nat)
    requires LowerCase(word) && Spells(b, i, word) && j < |word|
    ensures Lower(b)[i + j] == word[j]
  {
    assert SameLetter(b[i + j], word[j]);
  }

  predicate LowerCase(word: string) {
    forall j | 0 <= j < |word| :: LowerChar(word[j]) == word[j] && word[j] != '\U{212A}'
  }

  lemma LowerWords()
    ensures forall word | word in MARKERS :: LowerCase(word)
  {
  }

  // ---- The removed blocks --------------------------------------------------------------

  // Both parts keep their order and together make up the whole.
  predicate Interleaves(kept: seq<string>, gone: seq<string>, all: seq<string>) {
    if all == [] then kept == [] && gone == []
    else
      || (kept != [] && kept[0] == all[0] && Interleaves(kept[1..], gone, all[1..]))
      || (gone != [] && gone[0] == all[0] && Interleaves(kept, gone[1..], all[1..]))
  }

  lemma {:induction false} KeepGoneInterleave(bs: seq<string>, m: nat)
    ensures Interleaves(Keep(bs, m), Gone(bs, m), bs)
    ensures multiset(Keep(bs, m)) + multiset(Gone(bs, m)) == multiset(bs)
    ensures forall b | b in Gone(bs, m) :: !Protected(b)
    ensures forall b | b in Keep(bs, m) || b in Gone(bs, m) :: b in bs
  {
    if bs == [] {
    } else if m == 0 {
      KeepGoneInterleave(bs[1..], 0);
      assert Keep(bs[1..], 0) == bs[1..] && Gone(bs[1..], 0) == [];
    } else {
      assert bs == [bs[0]] + bs[1..];
      KeepGoneInterleave(bs[1..], if Protected(bs[0]) then m else m - 1);
    }
  }

  // The trim removes exactly the shortest prefix of the unprotected blocks that will do.
  lemma TrimRemovesLeast(text: string, file: string, policy: Policy)
    requires PlanTrim(text, file, policy).Ok?
    requires Triggered(|text|, LimitFor(policy, file).value, policy)
    ensures var p := PlanTrim(text, file, policy).value;
            var (bs, target) := (Split(text), TargetChars(LimitFor(policy, file).value, policy));
            var m := |p.removed|;
            && p.removed == Gone(bs, m) && m <= Unprotected(bs)
            && (m > 0 ==> p.after == Join(Keep(bs, m))) && (m == 0 ==> p.after == text)
            && (forall k | 0 <= k < m ::
                  && |Join(Keep(bs, k))| > target && |Keep(bs, k)| > 1
                  && exists b :: b in Keep(bs, k) && !Protected(b))
            && (|Join(Keep(bs, m))| <= target || |bs| - m <= 1 || m == Unprotected(bs))
  {
    var (bs, target) := (Split(text), TargetChars(LimitFor(policy, file).value, policy));
    var m := Cut(bs, target);
    KeepSize(bs, m);
    if m < Unprotected(bs) {
      SomeUnprotected(bs, m);
    }
    forall k | 0 <= k < m
      ensures |Join(Keep(bs, k))| > target && |Keep(bs, k)| > 1
      ensures exists b :: b in Keep(bs, k) && !Protected(b)
    {
      assert !Done(bs, target, k);
    }
    assert Done(bs, target, m);
  }

  lemma {:induction false} SomeUnprotected(bs: seq<string>, m: nat)
    requires m < Unprotected(bs)
    ensures exists b :: b in Keep(bs, m) && !Protected(b)
  {
    if m == 0 {
      if Protected(bs[0]) {
        SomeUnprotected(bs[1..], 0);
        var b :| b in bs[1..] && !Protected(b);
        assert b in bs;
      }
    } else {
      SomeUnprotected(bs[1..], if Protected(bs[0]) then m else m - 1);
    }
  }

  // The blocks without, and with, a protected word, in file order.
  function Ordinary(bs: seq<string>): seq<string> {
    if bs == [] then [] else (if Protected(bs[0]) then [] else [bs[0]]) + Ordinary(bs[1..])
  }

  function Guarded(bs: seq<string>): seq<string> {
    if bs == [] then [] else (if Protected(bs[0]) then [bs[0]] else []) + Guarded(bs[1..])
  }

  lemma {:induction false} TakesFirst(bs: seq<string>, m: nat)
    requires m <= Unprotected(bs)
    ensures m <= |Ordinary(bs)| && Gone(bs, m) == Ordinary(bs)[..m]
    ensures Ordinary(Keep(bs, m)) == Ordinary(bs)[m..] && Guarded(Keep(bs, m)) == Guarded(bs)
  {
    hide Protected;
    if bs != [] && m > 0 {
      var (b, rest) := (bs[0], bs[1..]);
      if Protected(b) {
        TakesFirst(rest, m);
        assert ([b] + Keep(rest, m))[1..] == Keep(rest, m);
        assert Ordinary(bs) == [] + Ordinary(rest) == Ordinary(rest);
      } else {
        TakesFirst(rest, m - 1);
        assert Ordinary(bs) == [b] + Ordinary(rest);
        assert Ordinary(bs)[..m] == [b] + Ordinary(rest)[..m - 1];
        assert Guarded(bs) == [] + Guarded(rest) == Guarded(rest);
      }
    }
  }

  // The trim takes ordinary blocks from the front of the file: the first ones go, the others
  // stay, and so do all protected ones.
  lemma TrimTakesFirst(text: string, file: string, policy: Policy)
    requires PlanTrim(text, file, policy).Ok?
    ensures var p := PlanTrim(text, file, policy).value;
            && Ordinary(Split(text)) == p.removed + Ordinary(Split(p.after)) && Guarded(Split(text)) == Guarded(Split(p.after))
  {
    var p := PlanTrim(text, file, policy).value;
    TrimSplits(text, file, policy);
    TakesFirst(Split(text), |p.removed|);
  }

  // At the trigger, nothing is removed exactly when the entries as they are reach the target,
  // or there is one at most, or all are protected.
  lemma NothingRemovedExactly(text: string, file: string, policy: Policy)
    requires PlanTrim(text, file, policy).Ok? && PlanTrim(text, file, policy).value.reason != BelowTrigger
    ensures var p := PlanTrim(text, file, policy).value;
            var (bs, target) := (Split(text), TargetChars(LimitFor(policy, file).value, policy));
            p.removed == [] <==> |Join(bs)| <= target || |bs| <= 1 || forall b | b in bs :: Protected(b)
  {
    var (bs, target) := (Split(text), TargetChars(LimitFor(policy, file).value, policy));
    KeepSize(bs, Cut(bs, target));
    assert Keep(bs, 0) == bs;
    if Done(bs, target, 0) { CutUnique(bs, target, 0); }
  }

  // What is written back, and what is spooled, are together the blocks of the file.
  lemma TrimPartition(text: string, file: string, policy: Policy)
    requires PlanTrim(text, file, policy).Ok?
    ensures var p := PlanTrim(text, file, policy).value;
            && Interleaves(Split(p.after), p.removed, Split(text))
            && multiset(Split(p.after)) + multiset(p.removed) == multiset(Split(text))
            && (forall b | b in p.removed :: IsBlock(b) && !Protected(b))
            && (p.removed == [] <==> p.after == text)
  {
    var p := PlanTrim(text, file, policy).value;
    var bs := Split(text);
    var m := |p.removed|;
    SplitYieldsBlocks(text);
    TrimSplits(text, file, policy);
    KeepGoneInterleave(bs, m);
    KeepSize(bs, m);
  }

  lemma TrimSplits(text: string, file: string, policy: Policy)
    requires PlanTrim(text, file, policy).Ok?
    ensures var p := PlanTrim(text, file, policy).value;
            var m := |p.removed|;
            && m <= Unprotected(Split(text)) && p.removed == Gone(Split(text), m)
            && Split(p.after) == Keep(Split(text), m) && (m == 0 ==> p.after == text)
  {
    var p := PlanTrim(text, file, policy).value;
    var bs := Split(text);
    if Triggered(|text|, LimitFor(policy, file).value, policy) {
      var m := Cut(bs, TargetChars(LimitFor(policy, file).value, policy));
      KeepSize(bs, m);
      if m > 0 {
        SplitYieldsBlocks(text);
        KeepGoneInterleave(bs, m);
        RoundTrip(Keep(bs, m));
      }
    }
  }

  // Trimming a trimmed file changes nothing, under every policy.
  lemma TrimIdempotent(text: string, file: string, policy: Policy)
    requires PlanTrim(text, file, policy).Ok?
    ensures var after := PlanTrim(text, file, policy).value.after;
            PlanTrim(after, file, policy).Ok?
            && PlanTrim(after, file, policy).value.after == after
            && PlanTrim(after, file, policy).value.removed == []
  {
    var p := PlanTrim(text, file, policy).value;
    if p.removed == [] {
      TrimPartition(text, file, policy);
    } else {
      var (bs, target) := (Split(text), TargetChars(LimitFor(policy, file).value, policy));
      var m := Cut(bs, target);
      SplitYieldsBlocks(text);
      KeepGoneInterleave(bs, m);
      RoundTrip(Keep(bs, m));
      assert Keep(Keep(bs, m), 0) == Keep(bs, m);
      assert Done(Keep(bs, m), target, 0);
      CutUnique(Keep(bs, m), target, 0);
      assert Gone(Keep(bs, m), 0) == [];
    }
  }

  // ---- Length -----------------------------------------------------------------------

  // Characters that a removed block takes with it: its own and a divider.
  function Weight(bs: seq<string>): nat {
    if bs == [] then 0 else |bs[0]| + |DIVIDER| + Weight(bs[1..])
  }

  lemma {:induction false} JoinLength(bs: seq<string>)
    requires AllBlocks(bs) && bs != []
    ensures |Join(bs)| + |DIVIDER| == Weight(bs) + 1
  {
    assert bs[0] in bs;
    StripTight(bs[0]);
    if |bs| > 1 { JoinLength(bs[1..]); }
  }

  lemma {:induction false} KeepWeight(bs: seq<string>, m: nat)
    ensures Weight(Keep(bs, m)) + Weight(Gone(bs, m)) == Weight(bs)
  {
    if m > 0 && bs != [] {
      KeepWeight(bs[1..], if Protected(bs[0]) then m else m - 1);
    }
  }

  // Exact length of a trimmed file. The text that was read may be shorter than its own
  // canonical form, so a trim that stops short of the target can lengthen it.
  lemma TrimLength(text: string, file: string, policy: Policy)
    requires PlanTrim(text, file, policy).Ok?
    ensures var p := PlanTrim(text, file, policy).value;
            p.removed != [] ==>
              && |p.after| + Weight(p.removed) == |Join(Split(text))|
              && (|p.after| < |text| <==> |Join(Split(text))| < |text| + Weight(p.removed))
              && (text == Join(Split(text)) ==> |p.after| < |text|)
  {
    var p := PlanTrim(text, file, policy).value;
    if p.removed != [] {
      var (bs, target) := (Split(text), TargetChars(LimitFor(policy, file).value, policy));
      var m := Cut(bs, target);
      assert !Done(bs, target, m - 1);
      KeepSize(bs, m);
      KeepSize(bs, m - 1);
      SplitYieldsBlocks(text);
      KeepGoneInterleave(bs, m);
      JoinLength(bs);
      JoinLength(Keep(bs, m));
      KeepWeight(bs, m);
    }
  }

  // Reaching the target makes the file strictly shorter when the policy aims below its trigger.
  lemma ReachedIsShorter(text: string, file: string, policy: Policy)
    requires PlanTrim(text, file, policy).Ok?
    requires policy.trimTarget.num * policy.trigger.den < policy.trigger.num * policy.trimTarget.den
    requires policy.trimTarget.num <= policy.trimTarget.den
    ensures var p := PlanTrim(text, file, policy).value;
            p.reason == Trimmed ==> |p.after| < |text|
  {
    var p := PlanTrim(text, file, policy).value;
    var limit := LimitFor(policy, file).value;
    if p.reason == Trimmed {
      TargetBelowTrigger(limit, |text|, policy);
    }
  }

  lemma TargetBelowTrigger(limit: nat, current: nat, policy: Policy)
    requires limit > 0 && Triggered(current, limit, policy)
    requires policy.trimTarget.num * policy.trigger.den < policy.trigger.num * policy.trimTarget.den
    requires policy.trimTarget.num <= policy.trimTarget.den
    ensures TargetChars(limit, policy) < current
  {
    var (n, d, gn, gd) := (policy.trimTarget.num, policy.trimTarget.den, policy.trigger.num, policy.trigger.den);
    var t := TargetChars(limit, policy);
    FloorTimes(limit * n, d);
    if current > limit {
      MulLe(n, d, limit);
      if t >= current { MulLe(limit + 1, t, d); Expand(limit, d); }
    } else if t >= current {
      ChainBelow(limit, current, t, n, d, gn, gd);
    }
  }

  lemma FloorTimes(x: nat, d: nat)
    requires d > 0
    ensures (x / d) * d <= x
  {
  }

  lemma MulLe(a: nat, b: nat, c: nat)
    requires a <= b
    ensures a * c <= b * c && c * a <= c * b
  {
  }

  lemma Expand(a: nat, d: nat)
    ensures (a + 1) * d == a * d + d
  {
  }

  lemma ChainBelow(limit: nat, current: nat, t: nat, n: nat, d: nat, gn: nat, gd: nat)
    requires limit > 0 && d > 0 && gd > 0 && n * gd < gn * d
    requires t * d <= limit * n && current * gd >= gn * limit
    ensures t < current
  {
    assert limit * (n * gd + 1) == limit * (n * gd) + limit;
    MulLe(n * gd + 1, gn * d, limit);
    assert (limit * n) * gd == limit * (n * gd) && (gn * limit) * d == limit * (gn * d);
    MulLe(t * d, limit * n, gd);
    assert (t * gd) * d == (t * d) * gd < (gn * limit) * d <= (current * gd) * d by {
      MulLe(gn * limit, current * gd, d);
    }
    if t >= current {
      MulLe(current, t, gd);
      MulLe(current * gd, t * gd, d);
    }
  }

  // A file of protected entries with one short ordinary entry, written without line
  // breaks around the section signs, grows from 13 to 14 characters when it is trimmed.
  const DENSE_FILE: string := "token" + [SECTION] + "token" + [SECTION] + "a"
  const SMALL_POLICY := DEFAULT_POLICY.(limits := map["MEMORY.md" := 12])

  lemma PartialTrimCanLengthen()
    ensures PlanTrim(DENSE_FILE, "MEMORY.md", SMALL_POLICY).Ok?
    ensures var p := PlanTrim(DENSE_FILE, "MEMORY.md", SMALL_POLICY).value;
            p.removed == ["a"] && |p.after| == 14 > |DENSE_FILE|
  {
    hide PlanTrim, Split, Cut, Triggered, TargetChars, LimitFor;
    DenseBlocks();
    ExamplePlan(["token", "token", "a"], 6);
    SmallPressure(13);
    TriggeredPlan(DENSE_FILE, "MEMORY.md", SMALL_POLICY, 12, 6, ["token", "token", "a"], 1);
  }

  // No check of the policy keeps the target ratio below one. Above one, the target can exceed
  // the file although it lies below the trigger, and reaching it makes the file longer.
  const WIDE_POLICY := SMALL_POLICY.(trigger := Fraction(2, 1), trimTarget := Fraction(5, 4))

  lemma WideTargetCanLengthen()
    ensures WIDE_POLICY.trimTarget.num * WIDE_POLICY.trigger.den < WIDE_POLICY.trigger.num * WIDE_POLICY.trimTarget.den
    ensures Triggered(|DENSE_FILE|, 12, WIDE_POLICY) && TargetChars(12, WIDE_POLICY) == 15 > |DENSE_FILE|
    ensures PlanTrim(DENSE_FILE, "MEMORY.md", WIDE_POLICY).Ok?
    ensures var p := PlanTrim(DENSE_FILE, "MEMORY.md", WIDE_POLICY).value; p.reason == Trimmed && |p.after| == 14 > |DENSE_FILE|
  {
    hide PlanTrim, Split, Cut, Triggered, TargetChars, LimitFor;
    DenseBlocks();
    ExamplePlan(["token", "token", "a"], 15);
    WidePressure();
    TriggeredPlan(DENSE_FILE, "MEMORY.md", WIDE_POLICY, 12, 15, ["token", "token", "a"], 1);
  }

  lemma WidePressure()
    ensures LimitFor(WIDE_POLICY, "MEMORY.md") == Ok(12) && TargetChars(12, WIDE_POLICY) == 15 && Triggered(13, 12, WIDE_POLICY)
  {
    assert "MEMORY.md" in WIDE_POLICY.limits && WIDE_POLICY.limits["MEMORY.md"] == 12;
    assert WIDE_POLICY.trimTarget == Fraction(5, 4) && 12 * 5 / 4 == 15;
  }

  lemma TriggeredPlan(text: string, file: string, policy: Policy, limit: nat, target: nat, bs: seq<string>, m: nat)
    requires LimitFor(policy, file) == Ok(limit) && file in MARKDOWN_LIMITS && Triggered(|text|, limit, policy)
             && TargetChars(limit, policy) == target
    requires Split(text) == bs && Cut(bs, target) == m && m > 0
    ensures PlanTrim(text, file, policy).Ok?
    ensures PlanTrim(text, file, policy).value.after == Join(Keep(bs, m)) && PlanTrim(text, file, policy).value.removed == Gone(bs, m)
    ensures var p := PlanTrim(text, file, policy).value; p.reason == Trimmed <==> |p.after| <= target
  {
  }

  lemma SmallPressure(n: nat)
    requires n >= 12
    ensures LimitFor(SMALL_POLICY, "MEMORY.md") == Ok(12) && TargetChars(12, SMALL_POLICY) == 6 && Triggered(n, 12, SMALL_POLICY)
  {
    assert "MEMORY.md" in SMALL_POLICY.limits && SMALL_POLICY.limits["MEMORY.md"] == 12;
    assert SMALL_POLICY.trimTarget == Fraction(50, 100) && 12 * 50 / 100 == 6;
  }

  lemma DenseBlocks()
    ensures Split(DENSE_FILE) == ["token", "token", "a"] && |DENSE_FILE| == 13
  {
    PlainIsBlock("token");
    PlainIsBlock("a");
    var rest := "token" + [SECTION] + "a";
    assert DENSE_FILE == "token" + [SECTION] + rest;
    SplitInline("token", rest);
    SplitInline("token", "a");
    SplitBlock("a");
  }

  lemma ExamplePlan(bs: seq<string>, target: nat)
    requires bs == ["token", "token", "a"] && target < 18
    ensures Cut(bs, target) == 1 && Gone(bs, 1) == ["a"] && |Join(Keep(bs, 1))| == 14
  {
    TokenProtected();
    PlainIsBlock("token");
    PlainIsBlock("a");
    var (t1, t2) := (["token", "a"], ["a"]);
    assert bs[1..] == t1 && t1[1..] == t2 && t2[1..] == [];
    assert Keep(t2, 1) == [] && Gone(t2, 1) == ["a"] && Unprotected(t2) == 1 && Weight(t2) == 4;
    assert Keep(t1, 1) == ["token"] && Gone(t1, 1) == ["a"] && Unprotected(t1) == 1 && Weight(t1) == 12;
    assert Keep(bs, 1) == ["token", "token"] && Gone(bs, 1) == ["a"] && Unprotected(bs) == 1;
    assert AllBlocks(bs);
    JoinLength(bs);
    JoinLength(Keep(bs, 1));
    KeepWeight(bs, 1);
    assert "a" in Keep(bs, 0);
    assert !Done(bs, target, 0) && Done(bs, target, 1);
    CutUnique(bs, target, 1);
  }

  lemma TokenProtected()
    ensures Protected("token") && !Protected("a")
  {
    assert Lower("token") == "token" && "token" <= "token"[0..];
    assert "token" in MARKERS;
    forall m | m in MARKERS ensures !Contains(Lower("a"), m) {
      assert |m| > 1;
    }
  }

  lemma PlainIsBlock(s: string)
    requires s != "" && forall i | 0 <= i < |s| :: !IsSpace(s[i]) && s[i] != SECTION
    ensures IsBlock(s)
  {
    forall i | 0 <= i < |s| ensures SepLen(s[i..]) == 0 {
      assert s[i..][0] == s[i];
    }
  }

  lemma SplitInline(b: string, rest: string)
    requires IsBlock(b) && rest != "" && rest[0] != '\n'
    ensures Split(b + [SECTION] + rest) == [b] + Split(rest)
  {
    var tail := [SECTION] + rest;
    BlockIsClean(b, tail);
    ScanClean("", b, tail);
    StripTight(b);
    assert b + [SECTION] + rest == b + tail && "" + b == b && tail[1..] == rest;
    assert SepLen(tail) == 1;
    assert ([b] + Pieces("", rest))[1..] == Pieces("", rest);
  }

  lemma SplitBlock(b: string)
    requires IsBlock(b)
    ensures Split(b) == [b]
  {
    BlockIsClean(b, "");
    ScanClean("", b, "");
    StripTight(b);
    assert b + "" == b && "" + b == b;
    assert Pieces("", b) == [b] && [b][1..] == [];
    assert StripAll([b]) == [b] + StripAll([b][1..]);
  }

  // Two entries of one character and a third one that is left.
  function Entries(x: char, y: char): seq<string> {
    [[x], [y], "ccc"]
  }

  predicate Plain(x: char) {
    x != SECTION && !IsSpace(x)
  }

  lemma ShortUnprotected(b: string)
    requires |b| < 5
    ensures !Protected(b)
  {
    forall m | m in MARKERS ensures !Contains(Lower(b), m) {
      assert |m| >= 5;
    }
  }

  lemma EntriesPlan(x: char, y: char)
    requires Plain(x) && Plain(y)
    ensures var text := Join(Entries(x, y));
            && PlanTrim(text, "MEMORY.md", SMALL_POLICY).Ok? && text != Join(["ccc"])
            && var p := PlanTrim(text, "MEMORY.md", SMALL_POLICY).value;
            p.after == Join(["ccc"]) && p.removed == [[x], [y]]
  {
    hide PlanTrim, Split, Cut, Triggered, TargetChars, LimitFor, Protected, Join;
    var bs := Entries(x, y);
    var text := Join(bs);
    EntriesCut(x, y);
    RoundTrip(bs);
    SmallPressure(12);
    TriggeredPlan(text, "MEMORY.md", SMALL_POLICY, 12, 6, bs, 2);
  }

  lemma EntriesCut(x: char, y: char)
    requires Plain(x) && Plain(y)
    ensures var bs := Entries(x, y);
            && AllBlocks(bs) && Cut(bs, 6) == 2 && Gone(bs, 2) == [[x], [y]] && Keep(bs, 2) == ["ccc"]
            && |Join(bs)| == 12 && |Join(["ccc"])| == 4
  {
    hide Protected, Cut, Join, IsBlock;
    var bs := Entries(x, y);
    var (t1, t2, t3) := ([[y], "ccc"], ["ccc"], []);
    assert bs[1..] == t1 && t1[1..] == t2 && t2[1..] == t3;
    forall b | b in bs ensures !Protected(b) && IsBlock(b) { ShortUnprotected(b); PlainIsBlock(b); }
    assert Unprotected(t2) == 1 && Unprotected(t1) == 2 && Unprotected(bs) == 3;
    assert Weight(t2) == 6 && Weight(t1) == 10 && Weight(bs) == 14;
    assert Keep(t2, 0) == t2 && Keep(t1, 0) == t1 && Keep(bs, 0) == bs;
    assert Keep(t1, 1) == Keep(t2, 0) && Keep(bs, 1) == Keep(t1, 0);
    assert Keep(bs, 2) == Keep(t1, 1) by { assert !Protected(bs[0]); }
    assert Gone(t2, 0) == [] && Gone(t1, 1) == [[y]] + Gone(t2, 0);
    assert Gone(bs, 2) == [[x]] + Gone(t1, 1) by { assert !Protected(bs[0]); }
    JoinLength(bs);
    JoinLength(t1);
    JoinLength(t2);
    assert [x] in bs && [y] in t1;
    assert !Done(bs, 6, 0) && !Done(bs, 6, 1) && Done(bs, 6, 2);
    CutUnique(bs, 6, 2);
  }
}
