// Splitting a memory file into blocks and joining blocks into a file
// (_split_blocks and _join_blocks of live_overflow.py).
module Blocks {
  import opened Text

  const SECTION := '\U{A7}'
  const DIVIDER: string := "\n\U{A7}\n"

  // Length of the longest prefix of s that is white space and ends in a newline.
  function BlankPrefix(s: string): (n: nat)
    ensures n <= |s|
    ensures forall i | 0 <= i < n :: IsSpace(s[i])
    ensures n > 0 ==> s[n - 1] == '\n'
  {
    if s == "" || !IsSpace(s[0]) then 0
    else
      var n := BlankPrefix(s[1..]);
      if n > 0 then n + 1 else if s[0] == '\n' then 1 else 0
  }

  // Length of the match of  \n?§\n?|\n\s*\n  at the head of s; 0 when there is none.
  function SepLen(s: string): (n: nat)
    ensures n <= |s|
  {
    if s == "" then 0
    else if s[0] == SECTION then
      if |s| > 1 && s[1] == '\n' then 2 else 1
    else if s[0] == '\n' then
      if |s| > 1 && s[1] == SECTION then
        if |s| > 2 && s[2] == '\n' then 3 else 2
      else
        var n := BlankPrefix(s[1..]);
        if n > 0 then 1 + n else 0
    else 0
  }

  // re.split: `cur` is the part of the current piece already scanned, s the rest.
  function Pieces(cur: string, s: string): seq<string>
    decreases |s|
  {
    if s == "" then [cur]
    else if SepLen(s) > 0 then [cur] + Pieces("", s[SepLen(s)..])
    else Pieces(cur + [s[0]], s[1..])
  }

  function StripAll(ps: seq<string>): seq<string> {
    if ps == [] then []
    else (if Strip(ps[0]) != "" then [Strip(ps[0])] else []) + StripAll(ps[1..])
  }

  function Split(text: string): seq<string> {
    StripAll(Pieces("", text))
  }

  function Glue(bs: seq<string>): string
    requires bs != []
  {
    if |bs| == 1 then Strip(bs[0]) else Strip(bs[0]) + DIVIDER + Glue(bs[1..])
  }

  function Join(bs: seq<string>): string {
    if bs == [] then "" else Glue(bs) + "\n"
  }

  // Nowhere in b does a separator match.
  predicate Whole(b: string) {
    forall i {:trigger b[i..]} | 0 <= i < |b| :: SepLen(b[i..]) == 0
  }

  predicate IsBlock(b: string) {
    b != "" && Tight(b) && Whole(b)
  }

  predicate AllBlocks(bs: seq<string>) {
    forall b | b in bs :: IsBlock(b)
  }

  // ---- Every piece that split returns is a block -------------------------------

  lemma {:induction false} BlankPrefixExtends(s: string, t: string)
    requires BlankPrefix(s) > 0
    ensures BlankPrefix(s + t) > 0
  {
    assert (s + t)[1..] == s[1..] + t;
    if BlankPrefix(s[1..]) > 0 {
      BlankPrefixExtends(s[1..], t);
    }
  }

  lemma SepLenExtends(s: string, t: string)
    requires SepLen(s) > 0
    ensures SepLen(s + t) > 0
  {
    if s[0] == '\n' && !(|s| > 1 && s[1] == SECTION) {
      assert (s + t)[1..] == s[1..] + t;
      BlankPrefixExtends(s[1..], t);
    }
  }

  lemma WholePart(s: string, a: nat, b: nat)
    requires a <= b <= |s| && Whole(s)
    ensures Whole(s[a..b])
  {
    forall i | 0 <= i < b - a ensures SepLen(s[a..b][i..]) == 0 {
      assert s[a..b][i..] + s[b..] == s[a + i..];
      if SepLen(s[a..b][i..]) > 0 {
        SepLenExtends(s[a..b][i..], s[b..]);
      }
    }
  }

  // No separator starts inside `cur` when the file goes on with s.
  predicate Clean(cur: string, s: string) {
    forall i {:trigger cur[i..]} | 0 <= i < |cur| :: SepLen(cur[i..] + s) == 0
  }

  lemma {:induction false} PiecesWhole(cur: string, s: string)
    requires Clean(cur, s)
    ensures forall p | p in Pieces(cur, s) :: Whole(p)
    decreases |s|
  {
    if s == "" || SepLen(s) > 0 {
      forall i | 0 <= i < |cur| ensures SepLen(cur[i..]) == 0 {
        if SepLen(cur[i..]) > 0 { SepLenExtends(cur[i..], s); }
      }
      if s != "" { PiecesWhole("", s[SepLen(s)..]); }
    } else {
      var next := cur + [s[0]];
      forall i | 0 <= i < |next| ensures SepLen(next[i..] + s[1..]) == 0 {
        if i < |cur| {
          assert next[i..] + s[1..] == cur[i..] + s;
        } else {
          assert next[i..] + s[1..] == s;
        }
      }
      PiecesWhole(next, s[1..]);
    }
  }

  lemma {:induction false} StripAllBlocks(ps: seq<string>)
    requires forall p | p in ps :: Whole(p)
    ensures AllBlocks(StripAll(ps))
  {
    if ps != [] {
      StripAllBlocks(ps[1..]);
      var a, b := StripIsMiddle(ps[0]);
      WholePart(ps[0], a, b);
    }
  }

  lemma SplitYieldsBlocks(text: string)
    ensures AllBlocks(Split(text))
  {
    PiecesWhole("", text);
    StripAllBlocks(Pieces("", text));
  }

  // ---- Round trip --------------------------------------------------------------

  // The white space at the head of s stops inside s when s ends in a visible character.
  lemma {:induction false} BlankPrefixLocal(s: string, t: string)
    requires s != "" && !IsSpace(s[|s| - 1])
    ensures BlankPrefix(s + t) == BlankPrefix(s)
  {
    if IsSpace(s[0]) {
      assert (s + t)[1..] == s[1..] + t;
      BlankPrefixLocal(s[1..], t);
    }
  }

  lemma BlockIsClean(b: string, t: string)
    requires IsBlock(b)
    ensures Clean(b, t)
  {
    forall i | 0 <= i < |b| ensures SepLen(b[i..] + t) == 0 {
      var s := b[i..];
      assert SepLen(s) == 0;
      if s[0] == '\n' {
        assert |s| > 1;
        assert (s + t)[1..] == s[1..] + t;
        BlankPrefixLocal(s[1..], t);
      }
    }
  }

  lemma {:induction false} ScanClean(cur: string, b: string, t: string)
    requires Clean(b, t)
    ensures Pieces(cur, b + t) == Pieces(cur + b, t)
    decreases |b|
  {
    if b == "" {
      assert b + t == t && cur + b == cur;
    } else {
      assert b[0..] + t == b + t;
      assert (b + t)[1..] == b[1..] + t;
      assert (cur + [b[0]]) + b[1..] == cur + b;
      forall i | 0 <= i < |b[1..]| ensures SepLen(b[1..][i..] + t) == 0 {
        assert b[1..][i..] == b[i + 1..];
      }
      ScanClean(cur + [b[0]], b[1..], t);
    }
  }

  lemma StripFinalNewline(b: string)
    requires IsBlock(b)
    ensures Strip(b + "\n") == b
  {
    var s := b + "\n";
    assert s[0] == b[0] && LStrip(s) == s;
    assert s[..|s| - 1] == b && RStrip(b) == b;
  }

  // The last block, and a block with the divider after it.
  lemma LastPiece(b: string)
    requires IsBlock(b)
    ensures StripAll(Pieces("", b + "\n")) == [b]
  {
    BlockIsClean(b, "\n");
    ScanClean("", b, "\n");
    assert "" + b == b && SepLen("\n") == 0;
    assert Pieces(b, "\n") == Pieces(b + "\n", "") == [b + "\n"];
    StripFinalNewline(b);
    assert StripAll([b + "\n"]) == [b];
  }

  lemma NextPiece(b: string, rest: string)
    requires IsBlock(b)
    ensures Pieces("", b + DIVIDER + rest) == [b] + Pieces("", rest)
  {
    var tail := DIVIDER + rest;
    assert b + DIVIDER + rest == b + tail && "" + b == b;
    BlockIsClean(b, tail);
    ScanClean("", b, tail);
    assert tail[0] == '\n' && tail[1] == SECTION && tail[2] == '\n' && tail[3..] == rest;
  }

  lemma {:induction false} RoundTripFrom(bs: seq<string>)
    requires bs != [] && AllBlocks(bs)
    ensures StripAll(Pieces("", Glue(bs) + "\n")) == bs
  {
    hide Pieces, SepLen;
    var b := bs[0];
    assert b in bs;
    if |bs| == 1 {
      LastPiece(b);
    } else {
      var rest := Glue(bs[1..]) + "\n";
      assert Glue(bs) + "\n" == b + DIVIDER + rest;
      NextPiece(b, rest);
      RoundTripFrom(bs[1..]);
      StripTight(b);
      assert ([b] + Pieces("", rest))[1..] == Pieces("", rest);
    }
  }

  // Joining blocks and splitting the file again gives the same blocks.
  lemma RoundTrip(bs: seq<string>)
    requires AllBlocks(bs)
    ensures Split(Join(bs)) == bs
  {
    if bs != [] {
      RoundTripFrom(bs);
    } else {
      assert Pieces("", "") == [""];
    }
  }

  // ---- Nothing visible is lost ---------------------------------------------------

  function Visible(s: string): string {
    if s == "" then ""
    else (if IsSpace(s[0]) || s[0] == SECTION then "" else [s[0]]) + Visible(s[1..])
  }

  function VisibleAll(ps: seq<string>): string {
    if ps == [] then "" else Visible(ps[0]) + VisibleAll(ps[1..])
  }

  lemma {:induction false} VisibleConcat(s: string, t: string)
    ensures Visible(s + t) == Visible(s) + Visible(t)
  {
    if s == "" {
      assert s + t == t;
    } else {
      assert (s + t)[1..] == s[1..] + t;
      VisibleConcat(s[1..], t);
    }
  }

  lemma {:induction false} InvisibleRun(s: string)
    requires forall i | 0 <= i < |s| :: IsSpace(s[i]) || s[i] == SECTION
    ensures Visible(s) == ""
  {
    if s != "" { InvisibleRun(s[1..]); }
  }

  lemma SepInvisible(s: string)
    ensures Visible(s) == Visible(s[SepLen(s)..])
  {
    var n := SepLen(s);
    assert s == s[..n] + s[n..];
    VisibleConcat(s[..n], s[n..]);
    forall i | 0 <= i < n ensures IsSpace(s[i]) || s[i] == SECTION {
      if s[0] == '\n' && i > 0 && s[1] != SECTION {
        assert s[i] == s[1..][i - 1];
      }
    }
    InvisibleRun(s[..n]);
  }

  lemma VisibleCons(p: string, ps: seq<string>)
    ensures VisibleAll([p] + ps) == Visible(p) + VisibleAll(ps)
  {
    assert ([p] + ps)[1..] == ps;
  }

  lemma VisibleMove(cur: string, s: string)
    requires s != ""
    ensures Visible(cur + [s[0]]) + Visible(s[1..]) == Visible(cur) + Visible(s)
  {
    assert cur + s == (cur + [s[0]]) + s[1..];
    VisibleConcat(cur, s);
    VisibleConcat(cur + [s[0]], s[1..]);
  }

  lemma {:induction false} PiecesVisible(cur: string, s: string)
    ensures VisibleAll(Pieces(cur, s)) == Visible(cur) + Visible(s)
    decreases |s|
  {
    hide Visible, VisibleAll;
    if s == "" {
      NothingVisible(cur);
    } else if SepLen(s) > 0 {
      var rest := s[SepLen(s)..];
      SepInvisible(s);
      PiecesVisible("", rest);
      NothingVisible(cur);
      VisibleCons(cur, Pieces("", rest));
    } else {
      PiecesVisible(cur + [s[0]], s[1..]);
      VisibleMove(cur, s);
    }
  }

  lemma NothingVisible(cur: string)
    ensures Visible("") == "" && VisibleAll([cur]) == Visible(cur) + Visible("")
  {
    assert [cur][1..] == [];
  }

  lemma StripVisible(s: string)
    ensures Visible(Strip(s)) == Visible(s)
  {
    var a, b := StripIsMiddle(s);
    assert s == s[..a] + s[a..b] + s[b..];
    VisibleConcat(s[..a] + s[a..b], s[b..]);
    VisibleConcat(s[..a], s[a..b]);
    InvisibleRun(s[..a]);
    InvisibleRun(s[b..]);
  }

  lemma {:induction false} StripAllVisible(ps: seq<string>)
    ensures VisibleAll(StripAll(ps)) == VisibleAll(ps)
  {
    if ps != [] {
      StripAllVisible(ps[1..]);
      StripVisible(ps[0]);
      var head, tail := Strip(ps[0]), StripAll(ps[1..]);
      assert ([head] + tail)[1..] == tail;
      assert head == "" ==> [] + tail == tail;
    }
  }

  // Every visible character of the file is in exactly one block, in file order.
  lemma SplitKeepsVisible(text: string)
    ensures VisibleAll(Split(text)) == Visible(text)
  {
    PiecesVisible("", text);
    StripAllVisible(Pieces("", text));
  }

  // ---- The same in terms of characters -----------------------------------------------

  // A newline, white space, a newline.
  predicate BlankLine(s: string, i: nat, j: nat) {
    i < j < |s| && s[i] == '\n' && s[j] == '\n' && forall k | i < k < j :: IsSpace(s[k])
  }

  // What keeps two entries apart: a section sign, or a blank line.
  ghost predicate Divides(s: string) {
    SECTION in s || exists i: nat, j: nat :: BlankLine(s, i, j)
  }

  // White space and section signs.
  predicate Gap(s: string) {
    forall i | 0 <= i < |s| :: IsSpace(s[i]) || s[i] == SECTION
  }

  lemma {:induction false} BlankPrefixFinds(s: string, j: nat)
    requires j < |s| && s[j] == '\n' && forall k | 0 <= k < j :: IsSpace(s[k])
    ensures BlankPrefix(s) > 0
  {
    if j > 0 { BlankPrefixFinds(s[1..], j - 1); }
  }

  lemma DividesMore(a: string, b: string)
    requires Divides(a) || Divides(b)
    ensures Divides(a + b)
  {
    var s := a + b;
    if SECTION in a || SECTION in b {
      assert SECTION in s;
    } else if Divides(a) {
      var i: nat, j: nat :| BlankLine(a, i, j);
      assert BlankLine(s, i, j);
    } else {
      var i: nat, j: nat :| BlankLine(b, i, j);
      forall k | |a| + i < k < |a| + j ensures IsSpace(s[k]) { assert s[k] == b[k - |a|]; }
      assert BlankLine(s, |a| + i, |a| + j);
    }
  }

  // A match of the separator is white space and section signs, and divides.
  lemma SepDivides(s: string)
    requires SepLen(s) > 0
    ensures Gap(s[..SepLen(s)]) && Divides(s[..SepLen(s)])
  {
    var n := SepLen(s);
    var t := s[..n];
    if s[0] == '\n' && !(|s| > 1 && s[1] == SECTION) {
      forall i | 0 < i < n ensures IsSpace(t[i]) { assert t[i] == s[1..][i - 1]; }
      assert t[n - 1] == s[1..][n - 2];
      assert BlankLine(t, 0, n - 1);
    } else {
      assert t[0] == SECTION || t[1] == SECTION;
    }
  }

  lemma WholeIsUndivided(s: string)
    ensures Whole(s) <==> !Divides(s)
  {
    hide Divides, SepLen;
    if !Whole(s) {
      var i :| 0 <= i < |s| && SepLen(s[i..]) != 0;
      SeparatorDivides(s, i);
    }
    if Divides(s) {
      var i := DividerSeparates(s);
      assert !Whole(s);
    }
  }

  lemma SeparatorDivides(s: string, i: nat)
    requires i < |s| && SepLen(s[i..]) != 0
    ensures Divides(s)
  {
    hide Divides, SepLen;
    var t := s[i..];
    SepDivides(t);
    var n := SepLen(t);
    assert s == s[..i] + (t[..n] + t[n..]);
    DividesMore(t[..n], t[n..]);
    DividesMore(s[..i], t[..n] + t[n..]);
  }

  lemma DividerSeparates(s: string) returns (i: nat)
    requires Divides(s)
    ensures i < |s| && SepLen(s[i..]) > 0
  {
    if SECTION in s {
      i :| 0 <= i < |s| && s[i] == SECTION;
      assert s[i..][0] == SECTION;
    } else {
      var k: nat, j: nat :| BlankLine(s, k, j);
      i := k;
      BlankLineSeparates(s, i, j);
    }
  }

  lemma BlankLineSeparates(s: string, i: nat, j: nat)
    requires BlankLine(s, i, j)
    ensures i < |s| && SepLen(s[i..]) > 0
  {
    var t := s[i..][1..];
    forall k | 0 <= k < j - i - 1 ensures IsSpace(t[k]) { assert t[k] == s[i + 1 + k]; }
    assert t[j - i - 1] == s[j];
    BlankPrefixFinds(t, j - i - 1);
  }

  // A text without white space at its ends is one entry exactly when nothing in it divides.
  lemma OneEntry(b: string)
    requires b != "" && Tight(b)
    ensures Split(b) == [b] <==> !Divides(b)
    ensures IsBlock(b) <==> !Divides(b)
  {
    WholeIsUndivided(b);
    if Split(b) == [b] {
      SplitYieldsBlocks(b);
      assert b in Split(b);
    }
    if IsBlock(b) {
      BlockIsClean(b, "");
      ScanClean("", b, "");
      StripTight(b);
      assert b + "" == b && "" + b == b && Pieces(b, "") == [b] && [b][1..] == [];
      assert StripAll([b]) == [b] + StripAll([b][1..]);
    }
  }

  ghost predicate Entry(b: string) {
    b != "" && Tight(b) && !Divides(b)
  }

  // The gaps and the entries of a file in turn.
  function Weave(gaps: seq<string>, bs: seq<string>): string
    requires |gaps| == |bs| + 1
  {
    if bs == [] then gaps[0] else gaps[0] + bs[0] + Weave(gaps[1..], bs[1..])
  }

  // Nothing but white space and section signs lies around the entries, and something that
  // divides lies between any two.
  ghost predicate Apart(gaps: seq<string>) {
    (forall g | g in gaps :: Gap(g)) && forall k | 0 < k < |gaps| - 1 :: Divides(gaps[k])
  }

  // bs are the entries of the text: everything else is gaps.
  ghost predicate EntriesOf(text: string, bs: seq<string>) {
    && (forall b | b in bs :: Entry(b))
    && exists gaps: seq<string> :: |gaps| == |bs| + 1 && Apart(gaps) && text == Weave(gaps, bs)
  }

  lemma GapConcat(a: string, b: string)
    requires Gap(a) && Gap(b)
    ensures Gap(a + b)
  {
  }

  lemma WeaveHead(x: string, gaps: seq<string>, bs: seq<string>)
    requires |gaps| == |bs| + 1
    ensures Weave([x + gaps[0]] + gaps[1..], bs) == x + Weave(gaps, bs)
  {
    if bs != [] {
      var rest := Weave(gaps[1..], bs[1..]);
      assert (x + gaps[0]) + bs[0] + rest == x + (gaps[0] + bs[0] + rest);
    }
  }

  lemma ApartHead(x: string, gaps: seq<string>)
    requires gaps != [] && Gap(x) && Apart(gaps)
    ensures Apart([x + gaps[0]] + gaps[1..])
  {
    hide Gap, Divides;
    assert gaps[0] in gaps;
    GapConcat(x, gaps[0]);
    var all := [x + gaps[0]] + gaps[1..];
    forall g | g in all ensures Gap(g) { assert g == x + gaps[0] || g in gaps; }
    forall k | 0 < k < |all| - 1 ensures Divides(all[k]) { assert all[k] == gaps[k]; }
  }

  lemma ApartCons(x: string, gaps: seq<string>)
    requires gaps != [] && Gap(x) && Apart(gaps) && (|gaps| > 1 ==> Divides(gaps[0]))
    ensures Apart([x] + gaps)
  {
    hide Gap, Divides;
    var all := [x] + gaps;
    forall k | 0 < k < |all| - 1 ensures Divides(all[k]) { assert all[k] == gaps[k - 1]; }
  }

  // A piece, what separates it from the rest, and the rest.
  lemma LayPiece(cur: string, sep: string, gaps: seq<string>, bs: seq<string>) returns (all: seq<string>)
    requires |gaps| == |bs| + 1 && Apart(gaps) && Gap(sep) && Divides(sep)
    ensures var b := Strip(cur);
            var bs' := if b != "" then [b] + bs else bs;
            |all| == |bs'| + 1 && Apart(all) && cur + sep + Weave(gaps, bs) == Weave(all, bs')
  {
    var i, j := StripIsMiddle(cur);
    var (head, b, tail) := (cur[..i], cur[i..j], cur[j..]);
    assert Gap(head) && Gap(tail);
    assert cur == head + b + tail;
    if b != "" {
      all := LayBlock(head, b, tail, sep, gaps, bs);
    } else {
      all := LayNothing(head, tail, sep, gaps, bs);
      assert cur == head + tail;
    }
  }

  lemma LayBlock(head: string, b: string, tail: string, sep: string, gaps: seq<string>, bs: seq<string>) returns (all: seq<string>)
    requires |gaps| == |bs| + 1 && Apart(gaps) && Gap(sep) && Divides(sep) && Gap(head) && Gap(tail)
    ensures |all| == |bs| + 2 && Apart(all) && head + b + tail + sep + Weave(gaps, bs) == Weave(all, [b] + bs)
  {
    hide Gap, Divides, Apart, Weave;
    var x := tail + sep;
    GapConcat(tail, sep);
    DividesMore(tail, sep);
    DividesMore(x, gaps[0]);
    WeaveHead(x, gaps, bs);
    ApartHead(x, gaps);
    var others := [x + gaps[0]] + gaps[1..];
    all := [head] + others;
    ApartCons(head, others);
    WeaveCons(head, b, others, bs);
    assert head + b + (x + Weave(gaps, bs)) == head + b + tail + sep + Weave(gaps, bs);
  }

  lemma LayNothing(head: string, tail: string, sep: string, gaps: seq<string>, bs: seq<string>) returns (all: seq<string>)
    requires |gaps| == |bs| + 1 && Apart(gaps) && Gap(sep) && Divides(sep) && Gap(head) && Gap(tail)
    ensures |all| == |bs| + 1 && Apart(all) && head + tail + sep + Weave(gaps, bs) == Weave(all, bs)
  {
    hide Gap, Divides, Apart, Weave;
    var x := head + tail + sep;
    GapConcat(head, tail);
    GapConcat(head + tail, sep);
    DividesMore(head + tail, sep);
    WeaveHead(x, gaps, bs);
    ApartHead(x, gaps);
    all := [x + gaps[0]] + gaps[1..];
  }

  lemma WeaveCons(g: string, b: string, gaps: seq<string>, bs: seq<string>)
    requires |gaps| == |bs| + 1
    ensures Weave([g] + gaps, [b] + bs) == g + b + Weave(gaps, bs)
  {
    assert ([g] + gaps)[1..] == gaps && ([b] + bs)[1..] == bs;
  }

  lemma LastGap(cur: string) returns (gaps: seq<string>)
    ensures Lays(gaps, [cur], cur)
  {
    var i, j := StripIsMiddle(cur);
    StripAllOne(cur);
    if Strip(cur) != "" {
      gaps := [cur[..i], cur[j..]];
      assert gaps[1..] == [cur[j..]] && [Strip(cur)][1..] == [];
      assert Weave(gaps, [Strip(cur)]) == cur[..i] + cur[i..j] + cur[j..] == cur;
      assert Apart(gaps);
    } else {
      gaps := [cur];
      assert cur == cur[..i] + cur[j..];
      assert Apart([cur]) && Weave([cur], []) == cur;
    }
  }

  lemma PiecesAt(cur: string, s: string)
    ensures s == "" ==> Pieces(cur, s) == [cur]
    ensures s != "" && SepLen(s) > 0 ==> Pieces(cur, s) == [cur] + Pieces("", s[SepLen(s)..])
    ensures s != "" && SepLen(s) == 0 ==> Pieces(cur, s) == Pieces(cur + [s[0]], s[1..])
  {
    hide SepLen;
  }

  // A layout of what the pieces come to.
  ghost predicate Lays(gaps: seq<string>, ps: seq<string>, text: string) {
    |gaps| == |StripAll(ps)| + 1 && Apart(gaps) && text == Weave(gaps, StripAll(ps))
  }

  lemma LayNext(cur: string, s: string, more: seq<string>) returns (gaps: seq<string>)
    requires s != "" && SepLen(s) > 0 && Lays(more, Pieces("", s[SepLen(s)..]), s[SepLen(s)..])
    ensures Lays(gaps, [cur] + Pieces("", s[SepLen(s)..]), cur + s)
  {
    hide Apart, Weave, Gap, Divides, Strip, SepLen, Pieces, StripAll;
    var (sep, rest) := (s[..SepLen(s)], s[SepLen(s)..]);
    SepDivides(s);
    StripAllCons(cur, Pieces("", rest));
    gaps := LayPiece(cur, sep, more, StripAll(Pieces("", rest)));
    assert cur + s == cur + sep + rest;
  }

  lemma {:induction false} LayPieces(cur: string, s: string) returns (gaps: seq<string>)
    ensures Lays(gaps, Pieces(cur, s), cur + s)
    decreases |s|
  {
    hide Lays, SepLen, Pieces;
    PiecesAt(cur, s);
    if s == "" {
      gaps := LastGap(cur);
      assert cur + s == cur;
    } else if SepLen(s) > 0 {
      var rest := s[SepLen(s)..];
      var more := LayPieces("", rest);
      assert "" + rest == rest;
      gaps := LayNext(cur, s, more);
    } else {
      gaps := LayPieces(cur + [s[0]], s[1..]);
      assert cur + s == (cur + [s[0]]) + s[1..];
    }
  }

  lemma StripAllCons(p: string, ps: seq<string>)
    ensures StripAll([p] + ps) == if Strip(p) != "" then [Strip(p)] + StripAll(ps) else StripAll(ps)
  {
    assert ([p] + ps)[1..] == ps;
  }

  lemma StripAllOne(p: string)
    ensures StripAll([p]) == if Strip(p) != "" then [Strip(p)] else []
  {
    StripAllCons(p, []);
    assert [p] + [] == [p];
  }

  lemma SplitLaysOut(text: string)
    ensures EntriesOf(text, Split(text))
  {
    var gaps := LayPieces("", text);
    assert "" + text == text;
    SplitYieldsBlocks(text);
    forall b | b in Split(text) ensures Entry(b) { WholeIsUndivided(b); }
  }

  // ---- There is no other way -------------------------------------------------------------

  predicate GapChar(c: char) {
    IsSpace(c) || c == SECTION
  }

  lemma EntryEnds(b: string)
    requires Entry(b)
    ensures !GapChar(b[0]) && !GapChar(b[|b| - 1])
  {
    assert b[0] in b && b[|b| - 1] in b;
  }

  // An entry does not go on into the gap after it, nor beyond.
  lemma LongerIsNoEntry(a: string, gap: string, tail: string, n: nat)
    requires 0 < n <= |gap + tail| && Gap(gap) && (tail == "" || Divides(gap))
    ensures !Entry((a + (gap + tail))[..|a| + n])
  {
    var rest := gap + tail;
    var b := (a + rest)[..|a| + n];
    assert b == a + rest[..n];
    if n <= |gap| {
      assert b[|b| - 1] == gap[n - 1];
      if b[|b| - 1] == SECTION { assert SECTION in b; }
    } else {
      assert rest[..n] == gap + tail[..n - |gap|];
      DividesMore(gap, tail[..n - |gap|]);
      DividesMore(a, rest[..n]);
    }
  }

  lemma SameEntry(a: string, gap: string, tail: string, b: string, more: string)
    requires Entry(b) && a + (gap + tail) == b + more && Gap(gap) && (tail == "" || Divides(gap))
    ensures |b| <= |a|
  {
    hide Entry, Gap, Divides;
    assert b == (a + (gap + tail))[..|b|];
    if |b| > |a| { LongerIsNoEntry(a, gap, tail, |b| - |a|); }
  }

  // What follows an entry is a gap, then nothing or the next entry.
  lemma AfterEntry(gaps: seq<string>, bs: seq<string>) returns (tail: string)
    requires |gaps| == |bs| + 1 && Apart(gaps) && forall b | b in bs :: Entry(b)
    ensures Weave(gaps, bs) == gaps[0] + tail && Gap(gaps[0]) && (bs == [] ==> tail == "") && (bs != [] ==> tail != "" && !GapChar(tail[0]))
  {
    assert gaps[0] in gaps;
    if bs == [] {
      tail := "";
      assert gaps[0] + "" == gaps[0];
    } else {
      assert bs[0] in bs;
      EntryEnds(bs[0]);
      tail := bs[0] + Weave(gaps[1..], bs[1..]);
    }
  }

  function GapLen(s: string): nat {
    if s != "" && GapChar(s[0]) then 1 + GapLen(s[1..]) else 0
  }

  lemma {:induction false} GapLenOf(a: string, rest: string)
    requires Gap(a) && (rest != "" ==> !GapChar(rest[0]))
    ensures GapLen(a + rest) == |a|
  {
    if a == "" {
      assert a + rest == rest;
    } else {
      assert (a + rest)[1..] == a[1..] + rest;
      GapLenOf(a[1..], rest);
    }
  }

  lemma SameGap(a: string, rest: string, b: string, more: string)
    requires Gap(a) && Gap(b) && a + rest == b + more
    requires (rest != "" ==> !GapChar(rest[0])) && (more != "" ==> !GapChar(more[0]))
    ensures a == b && rest == more
  {
    GapLenOf(a, rest);
    GapLenOf(b, more);
    assert a == (a + rest)[..|a|] && b == (b + more)[..|b|];
    assert rest == (a + rest)[|a|..] && more == (b + more)[|b|..];
  }

  lemma RestApart(gaps: seq<string>)
    requires |gaps| > 1 && Apart(gaps)
    ensures Apart(gaps[1..])
  {
    assert forall g | g in gaps[1..] :: g in gaps;
    forall k | 0 < k < |gaps[1..]| - 1 ensures Divides(gaps[1..][k]) { assert gaps[1..][k] == gaps[k + 1]; }
  }

  lemma {:induction false} OneLayout(gaps: seq<string>, bs: seq<string>, gaps': seq<string>, bs': seq<string>)
    requires |gaps| == |bs| + 1 && |gaps'| == |bs'| + 1 && Apart(gaps) && Apart(gaps')
    requires (forall b | b in bs :: Entry(b)) && (forall b | b in bs' :: Entry(b)) && Weave(gaps, bs) == Weave(gaps', bs')
    ensures bs == bs'
    decreases |bs|
  {
    hide Divides, Gap, Entry;
    var tail := AfterEntry(gaps, bs);
    var tail' := AfterEntry(gaps', bs');
    SameGap(gaps[0], tail, gaps'[0], tail');
    if bs != [] {
      var (rest, rest') := (Weave(gaps[1..], bs[1..]), Weave(gaps'[1..], bs'[1..]));
      SameHead(gaps, bs, gaps', bs', tail, tail');
      assert bs == [bs[0]] + bs[1..] && bs' == [bs'[0]] + bs'[1..];
      assert rest == (bs[0] + rest)[|bs[0]|..];
      RestApart(gaps);
      RestApart(gaps');
      OneLayout(gaps[1..], bs[1..], gaps'[1..], bs'[1..]);
    }
  }

  lemma SameHead(gaps: seq<string>, bs: seq<string>, gaps': seq<string>, bs': seq<string>, tail: string, tail': string)
    requires |gaps| == |bs| + 1 && |gaps'| == |bs'| + 1 && Apart(gaps) && Apart(gaps') && bs != [] && bs' != []
    requires (forall b | b in bs :: Entry(b)) && (forall b | b in bs' :: Entry(b)) && Weave(gaps, bs) == Weave(gaps', bs')
    requires gaps[0] == gaps'[0]
    ensures bs[0] == bs'[0] && bs[0] + Weave(gaps[1..], bs[1..]) == bs'[0] + Weave(gaps'[1..], bs'[1..])
  {
    hide Divides, Gap, Entry, Apart, Weave;
    var (rest, rest') := (Weave(gaps[1..], bs[1..]), Weave(gaps'[1..], bs'[1..]));
    WeaveFirst(gaps, bs);
    WeaveFirst(gaps', bs');
    SameParts(gaps[0], bs[0] + rest, gaps'[0], bs'[0] + rest');
    HeadBound(gaps, bs, bs'[0], rest');
    HeadBound(gaps', bs', bs[0], rest);
    SameParts(bs[0], rest, bs'[0], rest');
  }

  lemma WeaveFirst(gaps: seq<string>, bs: seq<string>)
    requires |gaps| == |bs| + 1 && bs != []
    ensures Weave(gaps, bs) == gaps[0] + (bs[0] + Weave(gaps[1..], bs[1..]))
  {
  }

  lemma SameParts(a: string, x: string, b: string, y: string)
    requires a + x == b + y && |a| == |b|
    ensures a == b && x == y
  {
    assert a == (a + x)[..|a|] && b == (b + y)[..|a|] && x == (a + x)[|a|..] && y == (b + y)[|a|..];
  }

  lemma HeadBound(gaps: seq<string>, bs: seq<string>, b: string, more: string)
    requires |gaps| == |bs| + 1 && Apart(gaps) && bs != [] && (forall x | x in bs :: Entry(x)) && Entry(b)
    requires bs[0] + Weave(gaps[1..], bs[1..]) == b + more
    ensures |b| <= |bs[0]|
  {
    hide Divides, Gap, Entry;
    RestApart(gaps);
    assert bs[0] in bs && forall x | x in bs[1..] :: x in bs;
    var tail := AfterEntry(gaps[1..], bs[1..]);
    assert bs[1..] != [] ==> Divides(gaps[1]);
    SameEntry(bs[0], gaps[1], tail, b, more);
  }

  // Split finds the entries of the text, the only ones there are.
  lemma SplitExactly(text: string, bs: seq<string>)
    ensures EntriesOf(text, bs) <==> bs == Split(text)
  {
    hide Divides, Gap, Entry;
    SplitLaysOut(text);
    if EntriesOf(text, bs) {
      var gaps: seq<string> :| |gaps| == |bs| + 1 && Apart(gaps) && text == Weave(gaps, bs);
      var gaps': seq<string> :| |gaps'| == |Split(text)| + 1 && Apart(gaps') && text == Weave(gaps', Split(text));
      OneLayout(gaps, bs, gaps', Split(text));
    }
  }

  // The gaps of a file that was joined: a line with a section sign between any two entries,
  // and the end of the last line.
  function JoinGaps(n: nat): seq<string>
    requires n > 0
    ensures |JoinGaps(n)| == n + 1
  {
    if n == 1 then ["", "\n"] else ["", "\n\U{A7}\n"] + JoinGaps(n - 1)[1..]
  }

  lemma {:induction false} JoinLaysOut(bs: seq<string>)
    requires bs != [] && AllBlocks(bs)
    ensures Join(bs) == Weave(JoinGaps(|bs|), bs)
  {
    if |bs| == 1 {
      JoinFirst(bs);
      assert Weave(["", "\n"][1..], bs[1..]) == "\n";
    } else {
      JoinLaysOut(bs[1..]);
      GapsStart(|bs|);
      hide Join, Weave, JoinGaps;
      JoinStep(bs, JoinGaps(|bs| - 1));
    }
  }

  lemma GapsStart(n: nat)
    requires n > 1
    ensures JoinGaps(n - 1)[0] == "" && JoinGaps(n) == ["", DIVIDER] + JoinGaps(n - 1)[1..]
  {
  }

  lemma JoinStep(bs: seq<string>, more: seq<string>)
    requires |bs| > 1 && AllBlocks(bs) && |more| == |bs| && more[0] == "" && Join(bs[1..]) == Weave(more, bs[1..])
    ensures Join(bs) == Weave(["", DIVIDER] + more[1..], bs)
  {
    hide Join, AllBlocks, Weave;
    var gaps := ["", DIVIDER] + more[1..];
    JoinFirst(bs);
    assert DIVIDER + more[0] == DIVIDER && gaps[0] == "";
    assert gaps[1..] == [DIVIDER + more[0]] + more[1..];
    WeaveHead(DIVIDER, more, bs[1..]);
    WeaveFirst(gaps, bs);
  }

  lemma JoinFirst(bs: seq<string>)
    requires bs != [] && AllBlocks(bs)
    ensures Join(bs) == bs[0] + (if |bs| == 1 then "\n" else DIVIDER + Join(bs[1..]))
  {
    assert bs[0] in bs;
    StripTight(bs[0]);
    hide Strip;
    if |bs| > 1 { assert Join(bs) == bs[0] + DIVIDER + Glue(bs[1..]) + "\n"; }
  }
}
