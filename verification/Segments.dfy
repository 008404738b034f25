// Line blocks of a text: _file_records in ingest.py and _markdown_blocks in
// hermes_provider.py, which run the same loop.
module Segments {
  import opened Text

  // ---- splitlines ----------------------------------------------------------------------

  // The characters at which str.splitlines() breaks; "\r\n" is one break.
  predicate Breaks(c: char) {
    var n := c as int;
    0x0A <= n <= 0x0D || 0x1C <= n <= 0x1E || n == 0x85 || n == 0x2028 || n == 0x2029
  }

  predicate Unbroken(s: string) {
    forall i | 0 <= i < |s| :: !Breaks(s[i])
  }

  function LineLen(s: string): (n: nat)
    ensures n <= |s| && Unbroken(s[..n]) && (n < |s| ==> Breaks(s[n]))
  {
    if s == "" || Breaks(s[0]) then 0
    else
      assert forall i | 1 <= i < |s| :: s[i] == s[1..][i - 1];
      LineLen(s[1..]) + 1
  }

  function BreakLen(s: string): (n: nat)
    requires s != ""
    ensures 0 < n <= |s|
  {
    if |s| > 1 && s[0] == '\r' && s[1] == '\n' then 2 else 1
  }

  function SplitLines(s: string): seq<string>
    decreases |s|
  {
    if s == "" then []
    else
      var n := LineLen(s);
      if n == |s| then [s] else [s[..n]] + SplitLines(s[n + BreakLen(s[n..])..])
  }

  function JoinLines(lines: seq<string>): string {
    if lines == [] then "" else if |lines| == 1 then lines[0] else lines[0] + ("\n" + JoinLines(lines[1..]))
  }

  lemma {:induction false} LinesAreUnbroken(s: string)
    ensures forall l | l in SplitLines(s) :: Unbroken(l)
    decreases |s|
  {
    if s != "" {
      var n := LineLen(s);
      if n < |s| { LinesAreUnbroken(s[n + BreakLen(s[n..])..]); } else { assert s[..n] == s; }
    }
  }

  lemma {:induction false} LineLenAt(l: string, rest: string)
    requires Unbroken(l) && (rest != "" ==> Breaks(rest[0]))
    ensures LineLen(l + rest) == |l|
  {
    if l == "" {
      assert l + rest == rest;
    } else {
      assert (l + rest)[0] == l[0] && (l + rest)[1..] == l[1..] + rest;
      LineLenAt(l[1..], rest);
    }
  }

  lemma FirstLine(l: string, more: string)
    requires Unbroken(l)
    ensures SplitLines(l + ("\n" + more)) == [l] + SplitLines(more)
  {
    hide Unbroken, LineLen;
    var rest := "\n" + more;
    var s := l + rest;
    LineLenAt(l, rest);
    assert s[..|l|] == l && s[|l|..] == rest && rest[0] == '\n' && rest[1..] == more;
    assert s[|l| + 1..] == rest[1..];
  }

  lemma OnlyLine(l: string)
    requires Unbroken(l) && l != ""
    ensures SplitLines(l) == [l]
  {
    hide Unbroken, LineLen;
    assert l + "" == l;
    LineLenAt(l, "");
  }

  // Splitting undoes joining, unless the last line is empty.
  lemma {:induction false} SplitJoined(lines: seq<string>)
    requires (forall l | l in lines :: Unbroken(l)) && (lines != [] ==> lines[|lines| - 1] != "")
    ensures SplitLines(JoinLines(lines)) == lines
  {
    hide Unbroken, LineLen;
    if lines != [] {
      assert lines[0] in lines;
      if |lines| == 1 {
        OnlyLine(lines[0]);
      } else {
        hide SplitLines;
        assert forall x | x in lines[1..] :: x in lines;
        FirstLine(lines[0], JoinLines(lines[1..]));
        SplitJoined(lines[1..]);
      }
    }
  }

  // ---- Lines and line ends in plain terms ------------------------------------------------

  // Lines, each with its line end.
  function LaidOut(lines: seq<string>, ends: seq<string>): string
    requires |lines| == |ends|
  {
    if lines == [] then "" else lines[0] + (ends[0] + LaidOut(lines[1..], ends[1..]))
  }

  const BREAKS: set<int> := {10, 11, 12, 13, 28, 29, 30, 133, 8232, 8233}

  // One break character, or carriage return and line feed, which are never two line ends.
  // The last line can do without, unless it is empty.
  predicate EndOk(line: string, end: string, rest: string) {
    if end == "" then rest == "" && line != ""
    else if |end| == 1 then end[0] as int in BREAKS && !(end == "\r" && rest != "" && rest[0] == '\n')
    else end == "\r\n"
  }

  predicate Layout(text: string, lines: seq<string>, ends: seq<string>) {
    && |ends| == |lines| && text == LaidOut(lines, ends)
    && (forall i, j | 0 <= i < |lines| && 0 <= j < |lines[i]| :: lines[i][j] as int !in BREAKS)
    && forall i | 0 <= i < |lines| :: EndOk(lines[i], ends[i], LaidOut(lines[i + 1..], ends[i + 1..]))
  }

  lemma LayoutTail(text: string, lines: seq<string>, ends: seq<string>)
    requires Layout(text, lines, ends) && lines != []
    ensures Unbroken(lines[0]) && EndOk(lines[0], ends[0], LaidOut(lines[1..], ends[1..]))
    ensures Layout(LaidOut(lines[1..], ends[1..]), lines[1..], ends[1..])
  {
    hide EndOk, LaidOut;
    forall j | 0 <= j < |lines[0]| ensures !Breaks(lines[0][j]) { assert lines[0][j] as int !in BREAKS; }
    var (ls, es) := (lines[1..], ends[1..]);
    forall i | 0 <= i < |ls| ensures EndOk(ls[i], es[i], LaidOut(ls[i + 1..], es[i + 1..])) {
      assert ls[i + 1..] == lines[i + 1 + 1..] && es[i + 1..] == ends[i + 1 + 1..];
      assert EndOk(lines[i + 1], ends[i + 1], LaidOut(lines[i + 1 + 1..], ends[i + 1 + 1..]));
    }
    forall i, j | 0 <= i < |ls| && 0 <= j < |ls[i]| ensures ls[i][j] as int !in BREAKS { assert ls[i] == lines[i + 1]; }
  }

  lemma LayoutCons(line: string, end: string, rest: string, lines: seq<string>, ends: seq<string>)
    requires Unbroken(line) && EndOk(line, end, rest) && Layout(rest, lines, ends)
    ensures Layout(line + (end + rest), [line] + lines, [end] + ends)
  {
    hide EndOk;
    var (ls, es) := ([line] + lines, [end] + ends);
    assert ls[1..] == lines && es[1..] == ends;
    forall i | 0 <= i < |ls| ensures EndOk(ls[i], es[i], LaidOut(ls[i + 1..], es[i + 1..])) {
      if i > 0 {
        assert ls[i + 1..] == lines[i..] && es[i + 1..] == ends[i..];
        assert EndOk(lines[i - 1], ends[i - 1], LaidOut(lines[i - 1 + 1..], ends[i - 1 + 1..]));
      }
    }
    forall i, j | 0 <= i < |ls| && 0 <= j < |ls[i]| ensures ls[i][j] as int !in BREAKS {
      if i > 0 { assert ls[i] == lines[i - 1]; } else { assert !Breaks(line[j]); }
    }
  }

  lemma LineAndEnd(line: string, end: string, rest: string)
    requires Unbroken(line) && EndOk(line, end, rest)
    ensures SplitLines(line + (end + rest)) == [line] + SplitLines(rest)
  {
    hide Unbroken, LineLen;
    var (tail, s) := (end + rest, line + (end + rest));
    LineLenAt(line, tail);
    assert s[..|line|] == line && s[|line|..] == tail;
    if end == "" {
      assert s == line;
    } else {
      assert tail[0] == end[0] && tail[|end|..] == rest && s[|line| + |end|..] == tail[|end|..];
      assert |end| == 1 && rest != "" ==> tail[1] == rest[0];
      assert end == "\r\n" ==> tail[1] == '\n';
      assert BreakLen(tail) == |end|;
    }
  }

  lemma {:induction false} LaidOutSplits(text: string, lines: seq<string>, ends: seq<string>)
    requires Layout(text, lines, ends)
    ensures SplitLines(text) == lines
    decreases |lines|
  {
    assert |ends| == |lines|;
    hide Layout, SplitLines, EndOk;
    if lines == [] {
      assert text == "" by { EmptyLayout(text, ends); }
      EmptyLines();
    } else {
      LayoutTail(text, lines, ends);
      var rest := LaidOut(lines[1..], ends[1..]);
      LaidOutSplits(rest, lines[1..], ends[1..]);
      LayoutText(text, lines, ends);
      LineAndEnd(lines[0], ends[0], rest);
    }
  }

  lemma EmptyLayout(text: string, ends: seq<string>)
    requires Layout(text, [], ends)
    ensures text == ""
  {
  }

  lemma LayoutText(text: string, lines: seq<string>, ends: seq<string>)
    requires Layout(text, lines, ends) && lines != []
    ensures text == lines[0] + (ends[0] + LaidOut(lines[1..], ends[1..]))
  {
  }

  lemma EmptyLines()
    ensures SplitLines("") == [] && Layout("", [], [])
  {
  }

  lemma {:induction false} SplitLaysOut(text: string) returns (ends: seq<string>)
    ensures Layout(text, SplitLines(text), ends)
    decreases |text|
  {
    hide Layout, SplitLines;
    ends := [];
    if text == "" {
      EmptyLines();
    } else {
      var n := LineLen(text);
      var (line, tail) := (text[..n], text[n..]);
      var k := if tail == "" then 0 else BreakLen(tail);
      var (end, rest) := (tail[..k], tail[k..]);
      var more := SplitLaysOut(rest);
      assert tail == end + rest && text == line + tail;
      if tail == "" { assert line == text; } else { BreakIsEnd(line, tail); }
      LineAndEnd(line, end, rest);
      LayoutCons(line, end, rest, SplitLines(rest), more);
      ends := [end] + more;
    }
  }

  lemma BreakIsEnd(line: string, s: string)
    requires s != "" && Breaks(s[0])
    ensures EndOk(line, s[..BreakLen(s)], s[BreakLen(s)..])
  {
    if BreakLen(s) == 1 {
      assert s[..1] == "\r" ==> s[0] == '\r';
    } else {
      assert s[..2] == "\r\n";
    }
  }

  // The lines of a text are exactly those that lay it out with line ends.
  lemma SplitLinesExactly(text: string, lines: seq<string>)
    ensures SplitLines(text) == lines <==> exists ends: seq<string> :: Layout(text, lines, ends)
  {
    hide Layout;
    var ends := SplitLaysOut(text);
    forall ends: seq<string> | Layout(text, lines, ends) ensures SplitLines(text) == lines { LaidOutSplits(text, lines, ends); }
  }

  // ---- The loop -------------------------------------------------------------------------

  predicate BlankLine(l: string) {
    Strip(l) == ""
  }

  // Lines are counted from 1.
  datatype Block = Block(lines: seq<string>, start: nat, end: nat)

  function Content(b: Block): string {
    JoinLines(b.lines)
  }

  // What the loop holds after the lines so far: the finished blocks and the current one.
  datatype Scanned = Scanned(blocks: seq<Block>, current: seq<string>, start: nat)

  function Scan(lines: seq<string>): Scanned {
    if lines == [] then Scanned([], [], 1)
    else Advance(Scan(lines[..|lines| - 1]), lines[|lines| - 1], |lines|)
  }

  // Line n comes.
  function Advance(s: Scanned, line: string, n: nat): Scanned
    requires n > 0
  {
    if !BlankLine(line) then Scanned(s.blocks, s.current + [line], if s.current == [] then n else s.start)
    else if s.current != [] then Scanned(s.blocks + [Block(s.current, s.start, n - 1)], [], s.start)
    else s
  }

  lemma ScanNext(lines: seq<string>, i: nat)
    requires i < |lines|
    ensures Scan(lines[..i + 1]) == Advance(Scan(lines[..i]), lines[i], i + 1)
  {
    hide Advance;
    assert lines[..i + 1][..i] == lines[..i];
  }

  function Flush(s: Scanned): seq<Block> {
    if s.current == [] then s.blocks else s.blocks + [Block(s.current, s.start, s.start + |s.current| - 1)]
  }

  function Blocks(lines: seq<string>): seq<Block> {
    Flush(Scan(lines))
  }

  lemma NothingScanned(lines: seq<string>)
    requires lines == []
    ensures Scan(lines) == Scanned([], [], 1)
  {
  }

  method SegmentText(text: string) returns (blocks: seq<Block>)
    ensures blocks == Blocks(SplitLines(text)) && Segmentation(SplitLines(text), blocks)
  {
    hide Scan, SplitLines, BlankLine, Segmentation;
    var lines := SplitLines(text);
    var current, start := [], 1;
    blocks := [];
    assert Scan(lines[..0]) == Scanned([], [], 1) by { NothingScanned(lines[..0]); }
    for i := 0 to |lines|
      invariant Scanned(blocks, current, start) == Scan(lines[..i])
    {
      ScanNext(lines, i);
      if !BlankLine(lines[i]) {
        if current == [] { start := i + 1; }
        current := current + [lines[i]];
      } else if current != [] {
        blocks := blocks + [Block(current, start, i)];
        current := [];
      }
    }
    assert lines[..|lines|] == lines;
    if current != [] { blocks := blocks + [Block(current, start, start + |current| - 1)]; }
    BlocksAreRuns(lines);
  }

  // ---- Maximal runs ------------------------------------------------------------------------

  // A maximal run of lines that are not blank, as it stands in the text.
  predicate MaximalRun(lines: seq<string>, b: Block) {
    && 1 <= b.start <= b.end <= |lines| && b.lines == lines[b.start - 1..b.end]
    && (forall i | b.start - 1 <= i < b.end :: !BlankLine(lines[i]))
    && (b.start > 1 ==> BlankLine(lines[b.start - 2])) && (b.end < |lines| ==> BlankLine(lines[b.end]))
  }

  predicate MaximalRuns(lines: seq<string>, blocks: seq<Block>) {
    forall k | 0 <= k < |blocks| :: MaximalRun(lines, blocks[k])
  }

  // At least one line lies between any two blocks.
  predicate Apart(blocks: seq<Block>) {
    forall k, m | 0 <= k < m < |blocks| :: blocks[k].end + 1 < blocks[m].start
  }

  predicate Covered(blocks: seq<Block>, i: nat) {
    exists k | 0 <= k < |blocks| :: blocks[k].start <= i <= blocks[k].end
  }

  predicate Covers(lines: seq<string>, blocks: seq<Block>) {
    forall i | 0 <= i < |lines| :: !BlankLine(lines[i]) <==> Covered(blocks, i + 1)
  }

  // The blocks are the maximal runs, in order, with a blank line between any two, and a line is
  // in one of them exactly when it is not blank.
  predicate Segmentation(lines: seq<string>, blocks: seq<Block>) {
    MaximalRuns(lines, blocks) && Apart(blocks) && Covers(lines, blocks)
  }

  // The finished blocks lie before line m, which begins the current run; when there is no
  // current run, m is the line after the last.
  predicate Midway(lines: seq<string>, blocks: seq<Block>, m: nat) {
    && 1 <= m <= |lines| + 1 && (m > 1 ==> BlankLine(lines[m - 2]))
    && (forall i | m - 1 <= i < |lines| :: !BlankLine(lines[i]))
    && (forall k | 0 <= k < |blocks| :: blocks[k].end + 1 < m)
    && MaximalRuns(lines, blocks) && Apart(blocks) && Covers(lines[..m - 1], blocks)
  }

  // The line at which the current run begins.
  function RunStart(lines: seq<string>, s: Scanned): nat {
    if s.current == [] then |lines| + 1 else s.start
  }

  lemma RunsStay(lines: seq<string>, line: string, blocks: seq<Block>)
    requires MaximalRuns(lines, blocks) && forall k | 0 <= k < |blocks| :: blocks[k].end < |lines| || BlankLine(line)
    ensures MaximalRuns(lines + [line], blocks)
  {
    hide BlankLine;
    var w := lines + [line];
    assert forall i | 0 <= i < |lines| :: w[i] == lines[i];
    forall k | 0 <= k < |blocks| ensures MaximalRun(w, blocks[k]) {
      var b := blocks[k];
      assert w[b.start - 1..b.end] == lines[b.start - 1..b.end];
    }
  }

  lemma CoveredMore(blocks: seq<Block>, b: Block, i: nat)
    ensures Covered(blocks + [b], i) <==> Covered(blocks, i) || b.start <= i <= b.end
  {
    var w := blocks + [b];
    if Covered(blocks, i) {
      var k :| 0 <= k < |blocks| && blocks[k].start <= i <= blocks[k].end;
      assert w[k] == blocks[k];
    }
    if b.start <= i <= b.end { assert w[|blocks|] == b; }
  }

  // Closing the current run.
  lemma ClosingRun(lines: seq<string>, m: nat)
    requires 1 <= m <= |lines| && (m > 1 ==> BlankLine(lines[m - 2])) && forall i | m - 1 <= i < |lines| :: !BlankLine(lines[i])
    ensures MaximalRun(lines, Block(lines[m - 1..], m, |lines|))
  {
    hide BlankLine;
    assert lines[m - 1..|lines|] == lines[m - 1..];
  }

  lemma ClosingCovers(lines: seq<string>, blocks: seq<Block>, m: nat)
    requires 1 <= m <= |lines| && (forall i | m - 1 <= i < |lines| :: !BlankLine(lines[i])) && Covers(lines[..m - 1], blocks)
    ensures Covers(lines, blocks + [Block(lines[m - 1..], m, |lines|)])
  {
    hide BlankLine, Covered;
    var b := Block(lines[m - 1..], m, |lines|);
    forall i | 0 <= i < |lines| ensures !BlankLine(lines[i]) <==> Covered(blocks + [b], i + 1) {
      CoveredMore(blocks, b, i + 1);
      if i < m - 1 { assert lines[..m - 1][i] == lines[i]; }
    }
  }

  lemma Closing(lines: seq<string>, blocks: seq<Block>, m: nat)
    requires Midway(lines, blocks, m) && m <= |lines|
    ensures Segmentation(lines, blocks + [Block(lines[m - 1..], m, |lines|)])
  {
    hide BlankLine, Covers, MaximalRun;
    ClosingRun(lines, m);
    ClosingCovers(lines, blocks, m);
  }

  // A line that is not blank goes on with the current run, or begins one.
  lemma AddText(lines: seq<string>, line: string, blocks: seq<Block>, m: nat)
    requires Midway(lines, blocks, m) && !BlankLine(line)
    ensures Midway(lines + [line], blocks, m)
  {
    hide BlankLine, Covers, Apart, MaximalRuns;
    RunsStay(lines, line, blocks);
    assert (lines + [line])[..m - 1] == lines[..m - 1];
    assert forall i | 0 <= i < |lines| :: (lines + [line])[i] == lines[i];
  }

  lemma NoneBeyond(lines: seq<string>, blocks: seq<Block>, i: nat)
    requires MaximalRuns(lines, blocks) && i > |lines|
    ensures !Covered(blocks, i)
  {
    hide BlankLine;
    forall k | 0 <= k < |blocks| ensures blocks[k].end < i { assert MaximalRun(lines, blocks[k]); }
  }

  // A blank line after the blocks of what came before.
  lemma AddBlank(lines: seq<string>, line: string, blocks: seq<Block>)
    requires Segmentation(lines, blocks) && BlankLine(line)
    ensures Midway(lines + [line], blocks, |lines| + 2)
  {
    hide BlankLine, Covered, Apart;
    RunsStay(lines, line, blocks);
    NoneBeyond(lines, blocks, |lines| + 1);
    var w := lines + [line];
    assert w[..|w|] == w;
    forall i | 0 <= i < |w| ensures !BlankLine(w[i]) <==> Covered(blocks, i + 1) {
      if i < |lines| { assert w[i] == lines[i]; }
    }
    forall k | 0 <= k < |blocks| ensures blocks[k].end + 1 < |w| + 1 { assert MaximalRun(lines, blocks[k]); }
  }

  predicate Tracks(lines: seq<string>, s: Scanned) {
    Midway(lines, s.blocks, RunStart(lines, s)) && s.current == lines[RunStart(lines, s) - 1..]
  }

  lemma FlushIsSegmentation(lines: seq<string>, s: Scanned)
    requires Tracks(lines, s)
    ensures Segmentation(lines, Flush(s)) && (s.current != [] ==> s.start + |s.current| - 1 == |lines|)
  {
    hide BlankLine, MaximalRuns, Apart, Covers;
    if s.current != [] {
      Closing(lines, s.blocks, s.start);
    } else {
      assert lines[..|lines|] == lines;
    }
  }

  lemma {:induction false} ScanTracks(lines: seq<string>)
    ensures Tracks(lines, Scan(lines))
  {
    hide BlankLine, MaximalRuns, Apart, Segmentation;
    if lines == [] {
      EmptyTracks();
    } else {
      var (init, line) := (lines[..|lines| - 1], lines[|lines| - 1]);
      assert lines == init + [line];
      ScanTracks(init);
      var s := Scan(init);
      if BlankLine(line) {
        FlushIsSegmentation(init, s);
        AddBlank(init, line, Flush(s));
      } else {
        AddText(init, line, s.blocks, RunStart(init, s));
      }
    }
  }

  lemma EmptyTracks()
    ensures Tracks([], Scan([]))
  {
    hide BlankLine, Covered, MaximalRun;
  }

  lemma BlocksAreRuns(lines: seq<string>)
    ensures Segmentation(lines, Blocks(lines))
  {
    hide Tracks, Segmentation, Scan;
    ScanTracks(lines);
    FlushIsSegmentation(lines, Scan(lines));
  }

  // ---- Only one segmentation -----------------------------------------------------------------

  lemma SameRun(lines: seq<string>, a: Block, b: Block, i: nat)
    requires MaximalRun(lines, a) && MaximalRun(lines, b)
    requires a.start <= i <= a.end && b.start <= i <= b.end
    ensures a == b
  {
    hide BlankLine;
    assert !(a.start - 1 <= b.start - 2 < a.end) && !(b.start - 1 <= a.start - 2 < b.end);
    assert !(a.start - 1 <= b.end < a.end) && !(b.start - 1 <= a.end < b.end);
  }

  lemma EachIsThere(lines: seq<string>, a: seq<Block>, b: seq<Block>)
    requires Segmentation(lines, a) && Segmentation(lines, b)
    ensures forall x | x in a :: x in b
  {
    hide BlankLine, Apart;
    forall x | x in a ensures x in b {
      assert MaximalRun(lines, x) && !BlankLine(lines[x.start - 1]);
      assert Covered(b, x.start);
      var k :| 0 <= k < |b| && b[k].start <= x.start <= b[k].end;
      SameRun(lines, x, b[k], x.start);
    }
  }

  predicate Rising(blocks: seq<Block>) {
    forall k, m | 0 <= k < m < |blocks| :: blocks[k].start < blocks[m].start
  }

  lemma FirstOccurs(bs: seq<Block>)
    requires bs != []
    ensures exists x :: x in bs
  {
    assert bs[0] in bs;
  }

  lemma {:induction false} SameOrder(a: seq<Block>, b: seq<Block>)
    requires Rising(a) && Rising(b) && (forall x | x in a :: x in b) && forall x | x in b :: x in a
    ensures a == b
  {
    if a == [] {
      if b != [] { FirstOccurs(b); }
    } else {
      assert a[0] in b;
      assert b[0] in a;
      var j, m :| 0 <= j < |b| && b[j] == a[0] && 0 <= m < |a| && a[m] == b[0];
      assert j == 0;
      forall x | x in a[1..] ensures x in b[1..] { assert x in a && x != a[0]; }
      forall x | x in b[1..] ensures x in a[1..] { assert x in b && x != b[0]; }
      SameOrder(a[1..], b[1..]);
    }
  }

  // What the loop computes is the one segmentation of the text.
  lemma OneSegmentation(lines: seq<string>, blocks: seq<Block>)
    ensures Segmentation(lines, blocks) <==> blocks == Blocks(lines)
  {
    hide BlankLine, Covers, Blocks;
    BlocksAreRuns(lines);
    if Segmentation(lines, blocks) {
      EachIsThere(lines, blocks, Blocks(lines));
      EachIsThere(lines, Blocks(lines), blocks);
      SameOrder(blocks, Blocks(lines));
    }
  }

  // ---- Segmenting again ----------------------------------------------------------------------

  function Contents(blocks: seq<Block>): seq<string> {
    seq(|blocks|, k requires 0 <= k < |blocks| => Content(blocks[k]))
  }

  function LinesOf(blocks: seq<Block>): seq<seq<string>> {
    seq(|blocks|, k requires 0 <= k < |blocks| => blocks[k].lines)
  }

  // The lines of some runs, with an empty line between any two.
  function Spread(runs: seq<seq<string>>): seq<string> {
    if runs == [] then [] else if |runs| == 1 then runs[0] else Spread(runs[..|runs| - 1]) + [""] + runs[|runs| - 1]
  }

  predicate IsRun(run: seq<string>) {
    run != [] && forall l | l in run :: !BlankLine(l) && Unbroken(l)
  }

  lemma ScanText(lines: seq<string>, line: string)
    requires !BlankLine(line)
    ensures var (s, w) := (Scan(lines), Scan(lines + [line])); w.blocks == s.blocks && w.current == s.current + [line]
  {
    hide BlankLine;
    var w := lines + [line];
    assert w[..|w| - 1] == lines && w[|w| - 1] == line;
  }

  lemma {:induction false} ScanRun(before: seq<string>, run: seq<string>)
    requires forall l | l in run :: !BlankLine(l)
    requires Scan(before).current == []
    ensures var s := Scan(before + run); s.blocks == Scan(before).blocks && s.current == run
  {
    hide BlankLine, Scan;
    if run == [] {
      assert before + run == before;
    } else {
      var (init, last) := (run[..|run| - 1], run[|run| - 1]);
      assert run == init + [last] && before + run == before + init + [last];
      ScanRun(before, init);
      ScanText(before + init, last);
    }
  }

  lemma EmptyLineIsBlank()
    ensures BlankLine("") && Unbroken("")
  {
  }

  lemma ScanNothing()
    ensures Scan([]) == Scanned([], [], 1)
  {
  }

  lemma ScanBlank(lines: seq<string>)
    requires Scan(lines).current != []
    ensures var (s, w) := (Scan(lines), Scan(lines + [""])); w.current == [] && LinesOf(w.blocks) == LinesOf(s.blocks) + [s.current]
  {
    var w := lines + [""];
    assert w[..|w| - 1] == lines && w[|w| - 1] == "";
    EmptyLineIsBlank();
    hide BlankLine;
  }

  lemma {:induction false} ScanSpread(runs: seq<seq<string>>)
    requires runs != [] && forall r | r in runs :: IsRun(r)
    ensures var s := Scan(Spread(runs)); LinesOf(s.blocks) == runs[..|runs| - 1] && s.current == runs[|runs| - 1]
  {
    hide BlankLine, Unbroken, Scan;
    var last := runs[|runs| - 1];
    assert last in runs;
    if |runs| == 1 {
      ScanNothing();
      assert [] + last == last;
      ScanRun([], last);
    } else {
      var init := runs[..|runs| - 1];
      assert forall r | r in init :: r in runs;
      ScanSpread(init);
      assert init[|init| - 1] in runs && init == init[..|init| - 1] + [init[|init| - 1]];
      ScanBlank(Spread(init));
      ScanRun(Spread(init) + [""], last);
    }
  }

  // Contents, joined by a blank line.
  function JoinContents(cs: seq<string>): string {
    if cs == [] then "" else if |cs| == 1 then cs[0] else JoinContents(cs[..|cs| - 1]) + "\n\n" + cs[|cs| - 1]
  }

  lemma {:induction false} JoinConcat(a: seq<string>, b: seq<string>)
    requires a != [] && b != []
    ensures JoinLines(a + b) == JoinLines(a) + ("\n" + JoinLines(b))
  {
    if |a| == 1 {
      assert (a + b)[1..] == b;
    } else {
      assert (a + b)[1..] == a[1..] + b;
      JoinConcat(a[1..], b);
    }
  }

  lemma {:induction false} JoinSpread(blocks: seq<Block>)
    requires blocks != [] && forall r | r in LinesOf(blocks) :: IsRun(r)
    ensures Spread(LinesOf(blocks)) != [] && JoinContents(Contents(blocks)) == JoinLines(Spread(LinesOf(blocks)))
  {
    hide BlankLine, Unbroken;
    var (runs, n) := (LinesOf(blocks), |blocks|);
    assert runs[n - 1] in runs;
    if n > 1 {
      var init := blocks[..n - 1];
      assert LinesOf(init) == runs[..n - 1] && Contents(init) == Contents(blocks)[..n - 1];
      assert forall r | r in LinesOf(init) :: r in runs;
      JoinSpread(init);
      JoinConcat(Spread(LinesOf(init)) + [""], runs[n - 1]);
      JoinConcat(Spread(LinesOf(init)), [""]);
    }
  }

  lemma {:induction false} SpreadLines(runs: seq<seq<string>>)
    requires runs != [] && forall r | r in runs :: IsRun(r)
    ensures var w := Spread(runs); w != [] && w[|w| - 1] in runs[|runs| - 1] && forall l | l in w :: Unbroken(l)
  {
    hide BlankLine, Unbroken;
    var (n, last) := (|runs|, runs[|runs| - 1]);
    assert last in runs;
    if n > 1 {
      assert forall r | r in runs[..n - 1] :: r in runs;
      SpreadLines(runs[..n - 1]);
      EmptyLineIsBlank();
    }
  }

  lemma FlushSpread(runs: seq<seq<string>>)
    requires runs != [] && forall r | r in runs :: IsRun(r)
    ensures LinesOf(Blocks(Spread(runs))) == runs
  {
    hide BlankLine, Unbroken, Scan, Spread;
    ScanSpread(runs);
    assert runs[|runs| - 1] in runs && runs == runs[..|runs| - 1] + [runs[|runs| - 1]];
  }

  // Re-segmenting the contents, joined by blank lines, gives the same contents.
  lemma SegmentingAgain(text: string)
    ensures var bs := Blocks(SplitLines(text)); Contents(Blocks(SplitLines(JoinContents(Contents(bs))))) == Contents(bs)
  {
    hide BlankLine, Unbroken, Blocks, Spread, JoinLines, SplitLines, Contents, LinesOf, MaximalRun;
    var (lines, bs) := (SplitLines(text), Blocks(SplitLines(text)));
    BlocksAreRuns(lines);
    LinesAreUnbroken(text);
    if bs == [] {
      NoContents();
    } else {
      var runs := LinesOf(bs);
      RunsOfBlocks(lines, bs);
      JoinSpread(bs);
      SpreadLines(runs);
      LastIsNotEmpty(runs);
      SplitJoined(Spread(runs));
      FlushSpread(runs);
      SameContents(Blocks(Spread(runs)), bs);
    }
  }

  lemma NoContents()
    ensures Contents(Blocks(SplitLines(JoinContents(Contents([]))))) == Contents([])
  {
  }

  lemma LastIsNotEmpty(runs: seq<seq<string>>)
    requires runs != [] && forall r | r in runs :: IsRun(r)
    ensures "" !in runs[|runs| - 1]
  {
    EmptyLineIsBlank();
    hide BlankLine, Unbroken;
    assert runs[|runs| - 1] in runs;
  }

  lemma RunsOfBlocks(lines: seq<string>, blocks: seq<Block>)
    requires MaximalRuns(lines, blocks) && forall l | l in lines :: Unbroken(l)
    ensures |LinesOf(blocks)| == |blocks| && forall r | r in LinesOf(blocks) :: IsRun(r)
  {
    hide MaximalRun, IsRun, Unbroken;
    forall k | 0 <= k < |blocks| ensures IsRun(blocks[k].lines) { RunOfBlock(lines, blocks[k]); }
  }

  lemma RunOfBlock(lines: seq<string>, b: Block)
    requires MaximalRun(lines, b) && forall l | l in lines :: Unbroken(l)
    ensures IsRun(b.lines)
  {
    hide BlankLine, Unbroken;
    forall l | l in b.lines ensures !BlankLine(l) && Unbroken(l) {
      var i :| 0 <= i < |b.lines| && b.lines[i] == l;
      assert lines[b.start - 1 + i] == l;
    }
  }

  lemma SameContents(a: seq<Block>, b: seq<Block>)
    requires LinesOf(a) == LinesOf(b)
    ensures Contents(a) == Contents(b)
  {
    assert |a| == |LinesOf(a)| == |LinesOf(b)| == |b|;
    forall k | 0 <= k < |a| ensures a[k].lines == b[k].lines { assert LinesOf(a)[k] == LinesOf(b)[k]; }
  }
}
