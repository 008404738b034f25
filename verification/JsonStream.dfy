// _iter_json_array_prefix (benchmark.py): the first elements of an array of objects, read
// chunk by chunk.
module JsonStream {
  import opened Text
  import opened Json

  datatype Outcome = Items(items: seq<Value>) | ArrayExpected | ObjectExpected
  datatype State = State(buffer: string, started: bool, items: seq<Value>)
  datatype Turn = Return(items: seq<Value>) | Raise(error: Outcome) | More(state: State)

  const NOTHING_READ := State("", false, [])

  // ---- The loops of the reader as functions --------------------------------------------

  // lstrip, one comma, and lstrip again.
  function Trimmed(b: string): (r: string)
    ensures |r| <= |b|
  {
    var s := LStrip(b);
    if Starts(s, ',') then LStrip(s[1..]) else s
  }

  // The inner loop: take objects out of the buffer as long as it holds whole ones.
  function Drain(s: State, limit: nat): Turn
    decreases |s.buffer|, if s.started then 0 else 1
  {
    if |s.items| >= limit then More(s)
    else if !s.started then
      var t := LStrip(s.buffer);
      if !Starts(t, '[') then Raise(ArrayExpected) else Drain(State(t[1..], true, s.items), limit)
    else
      var t := Trimmed(s.buffer);
      if Starts(t, ']') then Return(s.items)
      else
        match ParseValue(t)
        case Fail => More(State(t, true, s.items))
        case Got(v, rest) => if !v.Object? then Raise(ObjectExpected) else Drain(State(rest, true, s.items + [v]), limit)
  }

  // The outer loop; reading ends with an empty chunk.
  function Stream(chunks: seq<string>, s: State, limit: nat): Outcome {
    if |s.items| >= limit || chunks == [] || chunks[0] == "" then Items(s.items)
    else
      match Drain(s.(buffer := s.buffer + chunks[0]), limit)
      case Return(items) => Items(items)
      case Raise(error) => error
      case More(s') => Stream(chunks[1..], s', limit)
  }

  // The reader.
  method ReadPrefix(chunks: seq<string>, limit: nat) returns (r: Outcome)
    ensures r == Stream(chunks, NOTHING_READ, limit)
  {
    hide ParseValue, LStrip;
    var items: seq<Value>, buffer, started, j := [], "", false, 0;
    while |items| < limit && j < |chunks| && chunks[j] != ""
      invariant j <= |chunks|
      invariant Stream(chunks, NOTHING_READ, limit) == Stream(chunks[j..], State(buffer, started, items), limit)
      decreases |chunks| - j
    {
      ghost var s := State(buffer, started, items);
      buffer := buffer + chunks[j];
      ghost var s' := State(buffer, started, items);
      var stuck := false;
      while |items| < limit && !stuck
        invariant Drain(s', limit) == if stuck then More(State(buffer, started, items)) else Drain(State(buffer, started, items), limit)
        decreases if stuck then 0 else 1, |buffer|, if started then 0 else 1
      {
        var stripped := LStrip(buffer);
        if !started {
          if !Starts(stripped, '[') { return ArrayExpected; }
          stripped := LStrip(stripped[1..]);
          started := true;
        }
        if Starts(stripped, ',') { stripped := LStrip(stripped[1..]); }
        if Starts(stripped, ']') { return Items(items); }
        match ParseValue(stripped) {
          case Fail =>
            buffer := stripped;
            stuck := true;
          case Got(v, rest) =>
            if !v.Object? { return ObjectExpected; }
            items := items + [v];
            buffer := rest;
        }
      }
      assert chunks[j..][1..] == chunks[j + 1..];
      j := j + 1;
    }
    return Items(items);
  }

  // ---- The parts of a text -----------------------------------------------------------------

  predicate Separates(c: char) {
    IsSpace(c) || c == ','
  }

  // White space and commas.
  predicate Loose(g: string) {
    forall i | 0 <= i < |g| :: Separates(g[i])
  }

  // White space with at most one comma.
  predicate IsGap(g: string) {
    Loose(g) && forall i, j | 0 <= i < j < |g| :: g[i] != ',' || g[j] != ','
  }

  predicate AllSpace(s: string) {
    forall i | 0 <= i < |s| :: IsSpace(s[i])
  }

  // An object with the gap before it.
  datatype Element = Element(gap: string, text: string, value: Value)

  predicate ElementOk(e: Element) {
    IsGap(e.gap) && ObjectText(e.text, e.value)
  }

  predicate ElementsOk(es: seq<Element>) {
    forall i | 0 <= i < |es| :: ElementOk(es[i])
  }

  // What comes after an opening bracket: elements as long as there are any, white space and
  // commas, and a tail that begins with neither.
  datatype Parts = Parts(es: seq<Element>, gap: string, tail: string)

  predicate PartsOk(p: Parts) {
    && ElementsOk(p.es) && Loose(p.gap) && (p.tail != "" ==> !Separates(p.tail[0]))
    && !(IsGap(p.gap) && Starts(p.tail, '{') && ParseValue(p.tail).Got?)
  }

  function Written(es: seq<Element>, gap: string, tail: string): string {
    if es == [] then gap + tail else es[0].gap + (es[0].text + Written(es[1..], gap, tail))
  }

  // The same without the first gap.
  function Core(es: seq<Element>, gap: string, tail: string): string {
    if es == [] then tail else es[0].text + Written(es[1..], gap, tail)
  }

  function FirstGap(es: seq<Element>, gap: string): string {
    if es == [] then gap else es[0].gap
  }

  function Values(es: seq<Element>): seq<Value> {
    seq(|es|, i requires 0 <= i < |es| => es[i].value)
  }

  function Take<T>(xs: seq<T>, n: nat): seq<T> {
    if |xs| <= n then xs else xs[..n]
  }

  function Concat(chunks: seq<string>): string {
    if chunks == [] then "" else chunks[0] + Concat(chunks[1..])
  }

  function LooseLen(x: string): (n: nat)
    ensures n <= |x| && (n < |x| ==> !Separates(x[n]))
  {
    if x != "" && Separates(x[0]) then LooseLen(x[1..]) + 1 else 0
  }

  // Every text has parts.
  function PartsOf(x: string): Parts
    decreases |x|
  {
    var n := LooseLen(x);
    var (g, r) := (x[..n], x[n..]);
    if IsGap(g) && Starts(r, '{') && ParseValue(r).Got? then
      var v := ParseValue(r);
      var p := PartsOf(v.rest);
      p.(es := [Element(g, r[..|r| - |v.rest|], v.value)] + p.es)
    else Parts([], g, r)
  }

  lemma {:induction false} LooseIsLoose(x: string)
    ensures Loose(x[..LooseLen(x)])
  {
    if x != "" && Separates(x[0]) {
      LooseIsLoose(x[1..]);
      var n := LooseLen(x);
      assert x[..n] == [x[0]] + x[1..][..n - 1];
    }
  }

  lemma {:induction false} PartsAreOk(x: string)
    ensures var p := PartsOf(x); PartsOk(p) && x == Written(p.es, p.gap, p.tail)
    decreases |x|
  {
    hide ParseValue, ObjectText, IsGap, Loose, PartsOk, Written, PartsOf;
    var n := LooseLen(x);
    var (g, r) := (x[..n], x[n..]);
    LooseIsLoose(x);
    assert x == g + r;
    if IsGap(g) && Starts(r, '{') && ParseValue(r).Got? {
      ObjectAlone(r);
      var v := ParseValue(r);
      PartsAreOk(v.rest);
      OnePart(x, g, r, v.value, v.rest);
    } else {
      LastParts(x, g, r);
    }
  }

  lemma OnePart(x: string, g: string, r: string, v: Value, rest: string)
    requires g == x[..LooseLen(x)] && r == x[LooseLen(x)..] && x == g + r && IsGap(g) && Starts(r, '{') && ParseValue(r) == Got(v, rest)
    requires |rest| < |r| && r == r[..|r| - |rest|] + rest && ObjectText(r[..|r| - |rest|], v)
    requires var p := PartsOf(rest); PartsOk(p) && rest == Written(p.es, p.gap, p.tail)
    ensures var p := PartsOf(x); PartsOk(p) && x == Written(p.es, p.gap, p.tail)
  {
    hide ParseValue, ObjectText, IsGap, PartsOk, Written, LooseLen;
    var p := PartsOf(rest);
    var e := Element(g, r[..|r| - |rest|], v);
    assert PartsOf(x) == p.(es := [e] + p.es);
    hide PartsOf;
    PartsCons(e, p);
  }

  lemma PartsCons(e: Element, p: Parts)
    requires ElementOk(e) && PartsOk(p)
    ensures var es := [e] + p.es; PartsOk(p.(es := es)) && Written(es, p.gap, p.tail) == e.gap + (e.text + Written(p.es, p.gap, p.tail))
  {
    hide ParseValue, ElementOk, IsGap, Loose, Separates;
    var es := [e] + p.es;
    assert es[1..] == p.es;
  }

  lemma LastParts(x: string, g: string, r: string)
    requires g == x[..LooseLen(x)] && r == x[LooseLen(x)..] && x == g + r && Loose(g)
    requires !(IsGap(g) && Starts(r, '{') && ParseValue(r).Got?)
    ensures var p := PartsOf(x); PartsOk(p) && x == Written(p.es, p.gap, p.tail)
  {
    hide ParseValue, ObjectText, IsGap, Loose, Separates;
    assert PartsOf(x) == Parts([], g, r);
    assert r != "" ==> r[0] == x[LooseLen(x)];
  }

  // ---- Trimming --------------------------------------------------------------------------

  // lstrip over white space and commas stops at the first comma.
  lemma {:induction false} StripLoose(g: string, s: string) returns (k: nat)
    requires Loose(g) && (s != "" ==> !Separates(s[0]))
    ensures k <= |g| && LStrip(g + s) == g[k..] + s && (k < |g| ==> g[k] == ',') && AllSpace(g[..k])
  {
    if g != "" && IsSpace(g[0]) {
      assert (g + s)[0] == g[0] && (g + s)[1..] == g[1..] + s;
      var j := StripLoose(g[1..], s);
      k := j + 1;
      assert g[1..][j..] == g[k..] && g[..k] == [g[0]] + g[1..][..j];
    } else {
      k := 0;
      assert g[0..] == g && (g + s != "" ==> (g + s)[0] == if g == "" then s[0] else g[0]);
    }
  }

  // lstrip over white space alone.
  lemma {:induction false} StripOver(b: string, s: string)
    requires AllSpace(b) && (s != "" ==> !IsSpace(s[0]))
    ensures LStrip(b + s) == s
  {
    if b == "" {
      assert b + s == s;
    } else {
      assert (b + s)[1..] == b[1..] + s && (b + s)[0] == b[0];
      StripOver(b[1..], s);
    }
  }

  // Trimming stops at the second comma.
  lemma TrimLoose(g: string, s: string) returns (k: nat)
    requires Loose(g) && (s != "" ==> !Separates(s[0]))
    ensures k <= |g| && Trimmed(g + s) == g[k..] + s && (k < |g| ==> g[k] == ',') && (IsGap(g) <==> k == |g|)
  {
    hide LStrip;
    var c := StripLoose(g, s);
    if c == |g| {
      k := c;
      assert g[k..] + s == s && g[..k] == g;
      OneCommaAt(g, k, k);
    } else {
      var more := g[c + 1..];
      assert (g[c..] + s)[0] == ',' && (g[c..] + s)[1..] == more + s;
      var m := StripLoose(more, s);
      k := c + 1 + m;
      assert more[m..] == g[k..] && (m < |more| ==> more[m] == g[k]) && more[..m] == g[c + 1..k];
      OneCommaAt(g, c, k);
    }
  }

  // Where the first and the second comma stand.
  lemma OneCommaAt(g: string, c: nat, k: nat)
    requires Loose(g) && c <= k <= |g| && AllSpace(g[..c]) && (c < |g| ==> c < k && g[c] == ',' && AllSpace(g[c + 1..k]))
    requires k < |g| ==> g[k] == ','
    ensures IsGap(g) <==> k == |g|
  {
    forall i | 0 <= i < k && i != c ensures g[i] != ',' {
      if i < c { assert g[..c][i] == g[i]; } else { assert g[c + 1..k][i - c - 1] == g[i]; }
    }
  }

  lemma GapParts(g: string, n: nat)
    requires n <= |g|
    ensures Loose(g) ==> Loose(g[..n]) && Loose(g[n..])
    ensures IsGap(g) ==> IsGap(g[..n]) && IsGap(g[n..])
  {
  }

  // A buffer that holds the beginning of a gap and of what follows: trimmed, it is empty, or
  // holds the beginning of what follows, or begins with a comma that is one too many.
  lemma TrimBuffer(b: string, future: string, g: string, core: string) returns (g': string)
    requires b + future == g + core && Loose(g) && (core != "" ==> !Separates(core[0]))
    ensures Loose(g') && (IsGap(g) ==> IsGap(g')) && Trimmed(b) + future == g' + core
    ensures var t := Trimmed(b);
      || (t == "" && (future == "" ==> core == ""))
      || (t != "" && g' == "" && |t| <= |core| && t == core[..|t|])
      || (Starts(t, ',') && !IsGap(g))
  {
    hide IsGap, Loose, Trimmed, Separates;
    var n := |b|;
    if n <= |g| {
      assert b == (g + core)[..n] == g[..n] && b == b + "";
      assert future == (b + future)[n..] == g[n..] + core;
      GapParts(g, n);
      var k := TrimLoose(g[..n], "");
      GapParts(g, k);
      g' := g[k..];
      assert g[..n][k..] + "" == g[..n][k..] && g[..n][k..] + g[n..] == g';
      assert g[..n][k..] + future == g' + core;
    } else {
      var m := n - |g|;
      assert b == (g + core)[..n] == g + core[..m] && core[..m][0] == core[0];
      assert future == (b + future)[n..] == core[m..];
      var k := TrimLoose(g, core[..m]);
      GapParts(g, k);
      g' := g[k..];
      assert (g' + core[..m]) + core[m..] == g' + core;
      assert k == |g| ==> g' + core[..m] == core[..m];
    }
  }

  // ---- The inner loop --------------------------------------------------------------------

  // What may come after the last element: white space and commas, of which only one if
  // something that decodes follows, and no object.
  predicate Ready(gap: string, tail: string) {
    Loose(gap) && (tail != "" ==> !Separates(tail[0])) && (ParseValue(tail).Got? ==> IsGap(gap) && !Starts(tail, '{'))
  }

  // The buffer and the future hold the gap g and what follows it. The tail matters only if it
  // is reached before the limit.
  predicate Reading(s: State, future: string, g: string, p: Parts, limit: nat) {
    && s.started && ElementsOk(p.es) && s.buffer + future == g + Core(p.es, p.gap, p.tail)
    && (p.es != [] ==> IsGap(g)) && (|s.items| + |p.es| < limit ==> Ready(if p.es == [] then g else p.gap, p.tail))
  }

  // What reading on comes to, if it takes m elements.
  predicate Reads(s: State, future: string, p: Parts, limit: nat, turn: Turn, m: nat, g': string)
    requires m <= |p.es|
  {
    match turn
    case Raise(e) => e == ObjectExpected && |s.items| + |p.es| < limit && ParseValue(p.tail).Got?
    case Return(items) => |s.items| + |p.es| < limit && ParseValue(p.tail).Fail? && items == s.items + Values(p.es)
    case More(s') =>
      && Reading(s', future, g', p.(es := p.es[m..]), limit) && s'.items == s.items + Values(p.es)[..m]
      && (|s.items| <= limit ==> |s'.items| <= limit)
      && (|s'.items| >= limit || future != "" || (m == |p.es| && ParseValue(p.tail).Fail?))
  }

  // A whole element in the buffer is decoded, a part of one is not.
  lemma PartFails(t: string, e: Element, rest: string)
    requires ElementOk(e) && t != "" && |t| < |e.text| && t == (e.text + rest)[..|t|]
    ensures ParseValue(t).Fail?
  {
    hide ParseValue;
    NoProperPrefixParses(e.text, e.value, |t|);
    assert (e.text + rest)[..|t|] == e.text[..|t|];
  }

  lemma WholeDecodes(t: string, e: Element, rest: string)
    requires ElementOk(e) && |e.text| <= |t| <= |e.text + rest| && t == (e.text + rest)[..|t|]
    ensures ParseValue(t) == Got(e.value, t[|e.text|..]) && t[|e.text|..] == rest[..|t| - |e.text|]
  {
    hide ParseValue;
    var more := rest[..|t| - |e.text|];
    ObjectWithMore(e.text, e.value, more);
    assert t == e.text + more;
    assert t[|e.text|..] == more;
  }

  lemma DecodeElement(t: string, e: Element, rest: string)
    requires ElementOk(e) && t != "" && |t| <= |e.text + rest| && t == (e.text + rest)[..|t|]
    ensures if |t| < |e.text| then ParseValue(t).Fail?
            else ParseValue(t) == Got(e.value, t[|e.text|..]) && t[|e.text|..] == rest[..|t| - |e.text|]
  {
    hide ParseValue, ElementOk;
    if |t| < |e.text| { PartFails(t, e, rest); } else { WholeDecodes(t, e, rest); }
  }

  lemma NothingDecodes(t: string)
    requires t == "" || t[0] == ',' || t[0] == ']'
    ensures ParseValue(t).Fail?
  {
  }

  lemma NoElements(p: Parts, items: seq<Value>)
    ensures items + Values(p.es)[..0] == items && p.(es := p.es[0..]) == p && (p.es == [] ==> items + Values(p.es) == items)
  {
    assert p.es[0..] == p.es;
  }

  lemma CoreStarts(p: Parts)
    requires ElementsOk(p.es) && p.es != []
    ensures var core := Core(p.es, p.gap, p.tail); core != "" && core[0] == '{'
  {
    assert ElementOk(p.es[0]);
  }

  // The inner loop reads on until the limit, the tail or the end of the buffer.
  lemma {:induction false} DrainReads(s: State, future: string, g: string, p: Parts, limit: nat) returns (m: nat, g': string)
    requires Reading(s, future, g, p, limit)
    ensures m <= |p.es| && Reads(s, future, p, limit, Drain(s, limit), m, g')
    decreases |p.es|
  {
    hide ParseValue, Trimmed, IsGap, Loose, Separates, Values, ElementsOk;
    m, g' := 0, g;
    NoElements(p, s.items);
    if |s.items| < limit {
      var core := Core(p.es, p.gap, p.tail);
      if p.es != [] { CoreStarts(p); }
      Separators();
      GapIsLoose(g);
      var g1 := TrimBuffer(s.buffer, future, g, core);
      var t := Trimmed(s.buffer);
      if t == "" || t[0] == ',' {
        NothingDecodes(t);
        g' := g1;
        if core == "" { NothingDecodes(core); }
      } else if p.es == [] {
        DrainTail(s, future, t, p, limit);
        g' := "";
      } else {
        m, g' := DrainElement(s, future, t, p, limit);
      }
    }
  }

  lemma Separators()
    ensures Separates(',') && !Separates('{')
  {
  }

  lemma GapIsLoose(g: string)
    ensures IsGap(g) ==> Loose(g)
  {
  }

  // The tail is reached.
  lemma DrainTail(s: State, future: string, t: string, p: Parts, limit: nat)
    requires s.started && p.es == [] && |s.items| < limit && t == Trimmed(s.buffer) && t != ""
    requires t + future == p.tail && Separates(p.tail[0]) == false && (ParseValue(p.tail).Got? ==> !Starts(p.tail, '{'))
    ensures Reads(s, future, p, limit, Drain(s, limit), 0, "")
  {
    hide ParseValue, Trimmed, Separates;
    NoElements(p, s.items);
    assert t[0] == p.tail[0] && "" + p.tail == p.tail;
    if t[0] == ']' {
      NothingDecodes(p.tail);
    } else if ParseValue(t).Got? {
      StillParses(t, future);
      OtherValue(t);
    } else {
      assert future == "" ==> t == p.tail;
    }
  }

  lemma Cancel(t: string, future: string, text: string, rest: string)
    requires |text| <= |t| && t + future == text + rest
    ensures t[|text|..] + future == rest
  {
    assert (t + future)[|text|..] == t[|text|..] + future && (text + rest)[|text|..] == rest;
  }

  lemma {:induction false} DrainElement(s: State, future: string, t: string, p: Parts, limit: nat) returns (m: nat, g': string)
    requires s.started && ElementsOk(p.es) && p.es != [] && |s.items| < limit && t == Trimmed(s.buffer) && t != ""
    requires var core := Core(p.es, p.gap, p.tail); t + future == core && |t| <= |core| && t == core[..|t|]
    requires |s.items| + |p.es| < limit ==> Ready(p.gap, p.tail)
    ensures m <= |p.es| && Reads(s, future, p, limit, Drain(s, limit), m, g')
    decreases |p.es|, 0
  {
    hide ParseValue, Trimmed, IsGap, Ready, Values;
    var e := p.es[0];
    assert ElementOk(e);
    var rest := Written(p.es[1..], p.gap, p.tail);
    DecodeElement(t, e, rest);
    assert t[0] == e.text[0] == '{';
    if |t| < |e.text| {
      m, g' := 0, "";
      EmptyGap();
      NoElements(p, s.items);
      assert "" + Core(p.es, p.gap, p.tail) == Core(p.es, p.gap, p.tail) && (future == "" ==> t + future == t);
    } else {
      var (s1, p1) := (State(t[|e.text|..], true, s.items + [e.value]), p.(es := p.es[1..]));
      Cancel(t, future, e.text, rest);
      WrittenCore(p1);
      var k;
      k, g' := DrainReads(s1, future, FirstGap(p1.es, p.gap), p1, limit);
      m := k + 1;
      ValuesCons(s.items, p.es, k);
    }
  }

  lemma WrittenCore(p: Parts)
    requires ElementsOk(p.es)
    ensures Written(p.es, p.gap, p.tail) == FirstGap(p.es, p.gap) + Core(p.es, p.gap, p.tail)
    ensures p.es != [] ==> IsGap(FirstGap(p.es, p.gap))
  {
    if p.es != [] { assert ElementOk(p.es[0]); }
  }

  lemma EmptyGap()
    ensures IsGap("")
  {
  }

  lemma ValuesCons(items: seq<Value>, es: seq<Element>, k: nat)
    requires es != [] && k <= |es| - 1
    ensures (items + [es[0].value]) + Values(es[1..])[..k] == items + Values(es)[..k + 1]
    ensures (items + [es[0].value]) + Values(es[1..]) == items + Values(es) && es[1..][k..] == es[k + 1..]
  {
    assert Values(es) == [es[0].value] + Values(es[1..]);
  }

  // ---- The outer loop ----------------------------------------------------------------------

  // The items that were asked for; an error if there are fewer and a value comes after them
  // that is not an object. The end of the array and a text that does not decode are one.
  function Expected(items: seq<Value>, tail: string, limit: nat): Outcome {
    if |items| < limit && ParseValue(tail).Got? then ObjectExpected else Items(Take(items, limit))
  }

  // The chunks that are left hold the rest of the text.
  lemma {:induction false} StreamReads(chunks: seq<string>, s: State, g: string, p: Parts, limit: nat)
    requires (forall c | c in chunks :: c != "") && Reading(s, Concat(chunks), g, p, limit) && |s.items| <= limit
    requires |s.items| >= limit || Concat(chunks) != "" || (p.es == [] && ParseValue(p.tail).Fail?)
    ensures Stream(chunks, s, limit) == Expected(s.items + Values(p.es), p.tail, limit)
    decreases |chunks|
  {
    hide ParseValue, Reading;
    if |s.items| >= limit {
      assert Take(s.items + Values(p.es), limit) == s.items;
    } else if chunks == [] {
      assert s.items + Values(p.es) == s.items;
    } else {
      var s' := s.(buffer := s.buffer + chunks[0]);
      assert chunks[0] in chunks;
      NextChunk(chunks, s, g, p, limit);
      ContinueReading(chunks, s', g, p, limit);
    }
  }

  lemma NextChunk(chunks: seq<string>, s: State, g: string, p: Parts, limit: nat)
    requires chunks != [] && Reading(s, Concat(chunks), g, p, limit)
    ensures Reading(s.(buffer := s.buffer + chunks[0]), Concat(chunks[1..]), g, p, limit)
  {
    hide ParseValue, Ready, Core;
    assert (s.buffer + chunks[0]) + Concat(chunks[1..]) == s.buffer + Concat(chunks);
  }

  lemma {:induction false} ContinueReading(chunks: seq<string>, s: State, g: string, p: Parts, limit: nat)
    requires chunks != [] && (forall c | c in chunks :: c != "") && Reading(s, Concat(chunks[1..]), g, p, limit) && |s.items| < limit
    ensures var r := Expected(s.items + Values(p.es), p.tail, limit);
      match Drain(s, limit)
      case Return(items) => Items(items) == r
      case Raise(e) => e == r
      case More(s') => Stream(chunks[1..], s', limit) == r
    decreases |chunks|, 0
  {
    hide ParseValue, Reading, Values, Core;
    var m, g' := DrainReads(s, Concat(chunks[1..]), g, p, limit);
    ValuesSplit(s.items, p.es, m);
    match Drain(s, limit)
    case Return(_) =>
    case Raise(_) =>
    case More(s') =>
      assert forall c | c in chunks[1..] :: c in chunks;
      StreamReads(chunks[1..], s', g', p.(es := p.es[m..]), limit);
  }

  lemma ValuesSplit(items: seq<Value>, es: seq<Element>, m: nat)
    requires m <= |es|
    ensures (items + Values(es)[..m]) + Values(es[m..]) == items + Values(es) && |Values(es)| == |es|
  {
    assert Values(es) == Values(es)[..m] + Values(es[m..]);
  }

  // The opening bracket, once the first chunk has got that far.
  lemma OpenText(start: string, x: string, chunk: string, future: string)
    requires AllSpace(start) && chunk + future == start + ("[" + x)
    ensures LStrip(chunk) != "" ==> Starts(LStrip(chunk), '[') && LStrip(chunk)[1..] + future == x
  {
    var text := "[" + x;
    if |chunk| <= |start| {
      assert chunk == (start + text)[..|chunk|] == start[..|chunk|] && chunk + "" == chunk;
      StripOver(chunk, "");
    } else {
      var k := |chunk| - |start|;
      assert chunk == (start + text)[..|chunk|] == start + text[..k];
      assert future == (start + text)[|chunk|..] == text[k..];
      StripOver(start, text[..k]);
      assert text[..k][1..] + text[k..] == text[1..] == x;
    }
  }

  // ---- Every text --------------------------------------------------------------------------

  predicate Nonempty(chunks: seq<string>) {
    forall c | c in chunks :: c != ""
  }

  // Before the limit is reached there is more than one comma in a row, and then a value.
  predicate Torn(p: Parts, limit: nat) {
    |p.es| < limit && !IsGap(p.gap) && ParseValue(p.tail).Got?
  }

  // However an array is cut into chunks of which the first is not all white space, the reader
  // returns what the parts of its text amount to.
  lemma EveryArray(chunks: seq<string>, start: string, p: Parts, limit: nat)
    requires AllSpace(start) && PartsOk(p) && !Torn(p, limit)
    requires Nonempty(chunks) && Concat(chunks) == start + ("[" + Written(p.es, p.gap, p.tail))
    ensures chunks != []
    ensures Stream(chunks, NOTHING_READ, limit) ==
            if limit > 0 && LStrip(chunks[0]) == "" then ArrayExpected else Expected(Values(p.es), p.tail, limit)
  {
    hide ParseValue, Written, Core, Ready, IsGap, Loose;
    assert chunks != [] by { assert |Concat(chunks)| > 0; }
    if limit > 0 {
      var (chunk, future) := (chunks[0], Concat(chunks[1..]));
      assert chunk in chunks && "" + chunk == chunk;
      OpenText(start, Written(p.es, p.gap, p.tail), chunk, future);
      if LStrip(chunk) != "" {
        var s := State(LStrip(chunk)[1..], true, []);
        assert Drain(State(chunk, false, []), limit) == Drain(s, limit);
        WrittenCore(p);
        FirstIsReady(p, limit);
        ContinueReading(chunks, s, FirstGap(p.es, p.gap), p, limit);
        assert [] + Values(p.es) == Values(p.es);
      }
    } else {
      assert Take(Values(p.es), 0) == [];
    }
  }

  lemma FirstIsReady(p: Parts, limit: nat)
    requires PartsOk(p) && !Torn(p, limit)
    ensures |p.es| < limit ==> Ready(if p.es == [] then FirstGap(p.es, p.gap) else p.gap, p.tail)
  {
    hide ParseValue, IsGap, Loose;
  }

  // A text that is no array is refused when the first chunk is not all white space.
  lemma NoArray(chunks: seq<string>, limit: nat)
    requires chunks != [] && chunks[0] != "" && LStrip(chunks[0]) != "" && limit > 0 && !Starts(LStrip(Concat(chunks)), '[')
    ensures Stream(chunks, NOTHING_READ, limit) == ArrayExpected
  {
    hide LStrip;
    StripMore(chunks[0], Concat(chunks[1..]));
    assert "" + chunks[0] == chunks[0];
  }

  lemma {:induction false} StripMore(s: string, more: string)
    requires LStrip(s) != ""
    ensures LStrip(s + more) == LStrip(s) + more
  {
    assert (s + more)[0] == s[0] && (s + more)[1..] == s[1..] + more;
    if IsSpace(s[0]) { StripMore(s[1..], more); }
  }

  // ---- When the chunks matter --------------------------------------------------------------

  // A way to cut a text: no chunk is empty and the first is not all white space.
  predicate Cut(chunks: seq<string>, text: string) {
    Nonempty(chunks) && Concat(chunks) == text && (chunks != [] ==> LStrip(chunks[0]) != "")
  }

  predicate TornText(text: string, limit: nat) {
    var t := LStrip(text);
    Starts(t, '[') && Torn(PartsOf(t[1..]), limit)
  }

  // The chunks do not matter, for every text and every limit, if and only if it is not the
  // case that the text is an array with more than one comma in a row before a value and the
  // limit lies beyond.
  lemma ChunksDoNotMatter(text: string, limit: nat)
    ensures !TornText(text, limit) <==>
            forall a: seq<string>, b: seq<string> | Cut(a, text) && Cut(b, text) ::
              Stream(a, NOTHING_READ, limit) == Stream(b, NOTHING_READ, limit)
  {
    hide TornText, Cut, Stream;
    if TornText(text, limit) {
      var a, b := TwoCuts(text, limit);
    } else {
      forall a: seq<string>, b: seq<string> | Cut(a, text) && Cut(b, text)
        ensures Stream(a, NOTHING_READ, limit) == Stream(b, NOTHING_READ, limit)
      {
        OneOutcome(a, text, limit);
        OneOutcome(b, text, limit);
      }
    }
  }

  // What every way to cut a text gives.
  function OutcomeOf(text: string, limit: nat): Outcome {
    var t := LStrip(text);
    if limit == 0 || text == "" then Items([])
    else if !Starts(t, '[') then ArrayExpected
    else Expected(Values(PartsOf(t[1..]).es), PartsOf(t[1..]).tail, limit)
  }

  lemma OneOutcome(chunks: seq<string>, text: string, limit: nat)
    requires Cut(chunks, text) && !TornText(text, limit)
    ensures Stream(chunks, NOTHING_READ, limit) == OutcomeOf(text, limit)
  {
    hide ParseValue, PartsOf, Torn, PartsOk, LStrip, Expected, Drain;
    if limit > 0 && chunks != [] {
      assert chunks[0] in chunks;
      SomeText(chunks);
      if Starts(LStrip(text), '[') {
        var start := Opened(text);
        var p := PartsOf(LStrip(text)[1..]);
        PartsAreOk(LStrip(text)[1..]);
        EveryArray(chunks, start, p, limit);
      } else {
        NoArray(chunks, limit);
      }
    }
  }

  lemma SomeText(chunks: seq<string>)
    requires chunks != [] && chunks[0] != ""
    ensures Concat(chunks) != ""
  {
  }

  lemma Opened(text: string) returns (start: string)
    requires Starts(LStrip(text), '[')
    ensures AllSpace(start) && text == start + ("[" + LStrip(text)[1..])
  {
    var k := LStripIsSuffix(text);
    start := text[..k];
    assert text == start + text[k..] && text[k..] == "[" + text[k..][1..];
  }

  // The elements are taken one by one.
  lemma {:induction false} DrainElements(es: seq<Element>, gap: string, tail: string, items: seq<Value>, limit: nat)
    requires ElementsOk(es) && |items| + |es| <= limit
    ensures Drain(State(Written(es, gap, tail), true, items), limit) == Drain(State(gap + tail, true, items + Values(es)), limit)
  {
    hide ParseValue, Trimmed, ObjectText, IsGap;
    if es == [] {
      assert items + Values(es) == items;
    } else {
      var (e, rest) := (es[0], Written(es[1..], gap, tail));
      assert ElementOk(e);
      ElementFirst(e, rest);
      DrainElements(es[1..], gap, tail, items + [e.value], limit);
      ValuesCons(items, es, 0);
    }
  }

  lemma ElementFirst(e: Element, rest: string)
    requires ElementOk(e)
    ensures var t := Trimmed(e.gap + (e.text + rest)); !Starts(t, ']') && ParseValue(t) == Got(e.value, rest) && e.value.Object?
  {
    hide ParseValue, Trimmed;
    var t := e.text + rest;
    assert t[0] == '{' && e.value.Object?;
    var k := TrimLoose(e.gap, t);
    assert e.gap[k..] + t == t;
    ObjectWithMore(e.text, e.value, rest);
  }

  // Cut in one piece, a torn array ends at its second comma; cut at each of its commas, it
  // goes on.
  lemma TwoCuts(text: string, limit: nat) returns (a: seq<string>, b: seq<string>)
    requires TornText(text, limit)
    ensures Cut(a, text) && Cut(b, text) && Stream(a, NOTHING_READ, limit) != Stream(b, NOTHING_READ, limit)
  {
    hide ParseValue, LStrip, Stream, PartsOf, IsGap, Loose, Written;
    var x := LStrip(text)[1..];
    var p := PartsOf(x);
    PartsAreOk(x);
    var start := Opened(text);
    var head := start + ("[" + Written(p.es, "", ""));
    WrittenSplits(p.es, p.gap, p.tail);
    NothingDecodes("");
    assert text == head + (p.gap + p.tail);
    a, b := [text], [head] + (Letters(p.gap) + [p.tail]);
    LettersText(p.gap, p.tail);
    HeadIsCut(start, Written(p.es, "", ""));
    HeadIsCut(start, Written(p.es, p.gap, p.tail));
    IsCut(head, Letters(p.gap) + [p.tail], p.gap + p.tail);
    IsCut(text, [], "");
    assert text + "" == text && [text] + [] == [text];
    InOnePiece(start, p, limit);
    InPieces(start, p, limit);
  }

  lemma IsCut(head: string, more: seq<string>, rest: string)
    requires LStrip(head) != "" && Nonempty(more) && Concat(more) == rest
    ensures Cut([head] + more, head + rest)
  {
    hide LStrip;
    var r := [head] + more;
    assert head != "" by { assert LStrip("") == ""; }
    assert r[1..] == more;
  }

  lemma WrittenSplits(es: seq<Element>, gap: string, tail: string)
    ensures Written(es, gap, tail) == Written(es, "", "") + (gap + tail)
  {
    if es != [] { WrittenSplits(es[1..], gap, tail); }
  }

  lemma HeadIsCut(start: string, x: string)
    requires AllSpace(start)
    ensures LStrip(start + ("[" + x)) == "[" + x
  {
    StripOver(start, "[" + x);
  }

  lemma OpenDrain(start: string, x: string, limit: nat)
    requires AllSpace(start) && limit > 0
    ensures Drain(State(start + ("[" + x), false, []), limit) == Drain(State(x, true, []), limit)
  {
    StripOver(start, "[" + x);
    assert ("[" + x)[1..] == x;
  }

  // Each character by itself.
  function Letters(g: string): (r: seq<string>)
    ensures |r| == |g|
  {
    if g == "" then [] else [[g[0]]] + Letters(g[1..])
  }

  lemma {:induction false} LettersText(g: string, tail: string)
    requires tail != ""
    ensures Nonempty(Letters(g) + [tail]) && Concat(Letters(g) + [tail]) == g + tail
  {
    var r := Letters(g) + [tail];
    if g == "" {
      assert r == [tail] && tail + Concat([]) == tail && g + tail == tail;
    } else {
      LettersText(g[1..], tail);
      assert r[1..] == Letters(g[1..]) + [tail] && [g[0]] + (g[1..] + tail) == g + tail;
      forall c | c in r ensures c != "" { assert c == r[0] || c in r[1..]; }
    }
  }

  lemma InOnePiece(start: string, p: Parts, limit: nat)
    requires AllSpace(start) && PartsOk(p) && Torn(p, limit)
    ensures Stream([start + ("[" + Written(p.es, p.gap, p.tail))], NOTHING_READ, limit) == Items(Values(p.es))
  {
    hide ParseValue, IsGap, Loose, Trimmed, Drain, Written;
    var x := Written(p.es, p.gap, p.tail);
    var text := start + ("[" + x);
    assert "" + text == text && [text][1..] == [];
    OpenDrain(start, x, limit);
    DrainElements(p.es, p.gap, p.tail, [], limit);
    assert [] + Values(p.es) == Values(p.es);
    StopsAtComma(p, limit);
  }

  lemma StopsAtComma(p: Parts, limit: nat)
    requires PartsOk(p) && Torn(p, limit)
    ensures var turn := Drain(State(p.gap + p.tail, true, Values(p.es)), limit); turn.More? && turn.state.items == Values(p.es)
  {
    hide ParseValue, IsGap, Trimmed;
    var k := TrimLoose(p.gap, p.tail);
    var t := Trimmed(p.gap + p.tail);
    assert t[0] == p.gap[k] == ',';
    NothingDecodes(t);
  }

  lemma InPieces(start: string, p: Parts, limit: nat)
    requires AllSpace(start) && PartsOk(p) && Torn(p, limit)
    ensures var b := [start + ("[" + Written(p.es, "", ""))] + (Letters(p.gap) + [p.tail]);
            Stream(b, NOTHING_READ, limit) != Items(Values(p.es))
  {
    hide ParseValue, IsGap, Loose, Trimmed, Drain, Written;
    var x := Written(p.es, "", "");
    var head := start + ("[" + x);
    var b := [head] + (Letters(p.gap) + [p.tail]);
    assert "" + head == head && b[1..] == Letters(p.gap) + [p.tail];
    OpenDrain(start, x, limit);
    DrainElements(p.es, "", "", [], limit);
    assert [] + Values(p.es) == Values(p.es) && "" + "" == "";
    LooseNothing();
    OneLetter("", Values(p.es), limit);
    ByLetter(p.gap, p.tail, Values(p.es), limit);
    NothingDecodes("");
    TailAlone(p.tail, Values(p.es), limit);
  }

  lemma LooseNothing()
    ensures Loose("")
  {
  }

  // A chunk that holds a single separator, or none, leaves the buffer empty.
  lemma OneLetter(g: string, items: seq<Value>, limit: nat)
    requires Loose(g) && |g| <= 1 && |items| < limit
    ensures Drain(State(g, true, items), limit) == More(State("", true, items))
  {
    hide ParseValue, Trimmed;
    var k := TrimLoose(g, "");
    assert g + "" == g && g[k..] == "" && g[k..] + "" == "";
    NothingDecodes("");
  }

  lemma {:induction false} ByLetter(g: string, tail: string, items: seq<Value>, limit: nat)
    requires Loose(g) && |items| < limit
    ensures Stream(Letters(g) + [tail], State("", true, items), limit) == Stream([tail], State("", true, items), limit)
  {
    hide ParseValue, Drain;
    var r := Letters(g) + [tail];
    if g == "" {
      assert r == [tail];
    } else {
      assert r[1..] == Letters(g[1..]) + [tail] && "" + [g[0]] == [g[0]];
      OneLetter([g[0]], items, limit);
      ByLetter(g[1..], tail, items, limit);
    }
  }

  lemma TailAlone(tail: string, items: seq<Value>, limit: nat)
    requires tail != "" && !Separates(tail[0]) && ParseValue(tail).Got? && |items| < limit
    ensures match Stream([tail], State("", true, items), limit)
      case Items(items') => |items'| > |items|
      case _ => true
  {
    hide ParseValue, Trimmed;
    var k := TrimLoose("", tail);
    assert "" + tail == tail && [tail][1..] == [];
    assert Trimmed(tail) == tail;
    if tail[0] == ']' { NothingDecodes(tail); }
    var v := ParseValue(tail);
    if v.value.Object? { DrainKeeps(State(v.rest, true, items + [v.value]), limit); }
  }

  // Items that were taken stay.
  lemma {:induction false} DrainKeeps(s: State, limit: nat)
    requires s.started
    ensures match Drain(s, limit)
      case Return(items) => |items| >= |s.items|
      case Raise(e) => !e.Items?
      case More(s') => |s'.items| >= |s.items|
    decreases |s.buffer|
  {
    hide ParseValue, Trimmed;
    var t := Trimmed(s.buffer);
    if |s.items| < limit && !Starts(t, ']') && ParseValue(t).Got? && ParseValue(t).value.Object? {
      DrainKeeps(State(ParseValue(t).rest, true, s.items + [ParseValue(t).value]), limit);
    }
  }

  // Such a text: two empty objects with two commas between them.
  lemma DoubleComma(limit: nat)
    requires limit > 1
    ensures TornText("[{},,{}]", limit)
  {
    hide ParseValue, IsGap, LooseLen, PartsOf;
    var (text, x) := ("[{},,{}]", "{},,{}]");
    assert LStrip(text) == text && text[1..] == x;
    EmptyObject(",,{}]");
    EmptyObject("]");
    assert x == "{}" + ",,{}]" && "{}]" == "{}" + "]";
    NoGap();
    AfterTheFirst(x);
    TwoCommas();
  }

  lemma AfterTheFirst(x: string)
    requires IsGap("") && Starts(x, '{') && ParseValue(x) == Got(Object([]), ",,{}]")
    ensures var (p, q) := (PartsOf(x), PartsOf(",,{}]")); |p.es| == 1 + |q.es| && p.gap == q.gap && p.tail == q.tail
  {
    hide ParseValue, IsGap;
    assert LooseLen(x) == 0 && x[..0] == "" && x[0..] == x;
  }

  lemma TwoCommas()
    requires !IsGap(",,")
    ensures PartsOf(",,{}]") == Parts([], ",,", "{}]")
  {
    hide ParseValue, IsGap;
    var y := ",,{}]";
    assert y[1..] == ",{}]" && y[1..][1..] == "{}]";
    assert LooseLen("{}]") == 0;
    assert LooseLen(y[1..]) == 1;
    assert LooseLen(y) == 2 && y[..2] == ",," && y[2..] == "{}]";
  }

  lemma NoGap()
    ensures IsGap("") && !IsGap(",,")
  {
    var g := ",,";
    assert g[0] == ',' && g[1] == ',';
  }

  lemma EmptyObject(rest: string)
    ensures ParseValue("{}" + rest) == Got(Object([]), rest)
  {
    var s := "{}" + rest;
    assert s[0] == '{' && s[1..] == "}" + rest && s[1..][1..] == rest;
  }

  // ---- JSON arrays of objects ----------------------------------------------------------------

  // The elements of a list of the grammar, the first with `lead` before it.
  function ElementsOf(lead: string, ps: seq<Part>): seq<Element>
    decreases |ps|
  {
    if ps == [] then []
    else [Element(lead + ps[0].before, On(ps[0].tree, ""), Meaning(ps[0].tree))] + ElementsOf(ps[0].after + ",", ps[1..])
  }

  predicate Objects(ps: seq<Part>) {
    forall i | 0 <= i < |ps| :: PartOk(ps[i]) && ps[i].tree.Dict?
  }

  lemma {:induction false} ElementsWritten(lead: string, ps: seq<Part>, rest: string)
    requires ps != [] && Objects(ps)
    ensures lead + PartsOn(ps, rest) == Written(ElementsOf(lead, ps), ps[|ps| - 1].after, "]" + rest)
    decreases |ps|
  {
    hide On, Meaning;
    var (p, es) := (ps[0], ElementsOf(lead, ps));
    var end := if |ps| == 1 then "]" + rest else "," + PartsOn(ps[1..], rest);
    OnMore(p.tree, "", p.after + end);
    assert "" + (p.after + end) == p.after + end;
    assert es[1..] == ElementsOf(p.after + ",", ps[1..]);
    if |ps| > 1 {
      ElementsWritten(p.after + ",", ps[1..], rest);
      assert (p.after + ",") + PartsOn(ps[1..], rest) == p.after + end;
    } else {
      assert ElementsOf(p.after + ",", ps[1..]) == [];
    }
    assert lead + (p.before + (On(p.tree, "") + (p.after + end))) == (lead + p.before) + (On(p.tree, "") + (p.after + end));
  }

  lemma BlankIsSpace(b: string)
    requires AllBlank(b)
    ensures AllSpace(b) && IsGap(b)
  {
  }

  // White space, with a comma before it or none.
  lemma LeadOk(lead: string, before: string)
    requires AllBlank(before) && (lead == "" || exists after :: AllBlank(after) && lead == after + ",")
    ensures IsGap(lead + before)
  {
    var g := lead + before;
    forall i | 0 <= i < |g| && i != |lead| - 1 ensures Blank(g[i]) { if i >= |lead| { assert g[i] == before[i - |lead|]; } }
  }

  lemma {:induction false} ElementsOfOk(lead: string, ps: seq<Part>)
    requires Objects(ps) && (lead == "" || exists after :: AllBlank(after) && lead == after + ",")
    ensures var es := ElementsOf(lead, ps); ElementsOk(es) && Values(es) == Json.Values(ps)
    decreases |ps|
  {
    hide On, Meaning, IsGap, ObjectText, AllBlank;
    if ps != [] {
      var p := ps[0];
      assert PartOk(p);
      ElementsOfOk(p.after + ",", ps[1..]);
      LeadOk(lead, p.before);
      ObjectExactly(On(p.tree, ""), Meaning(p.tree));
      var (e, more) := (Element(lead + p.before, On(p.tree, ""), Meaning(p.tree)), ElementsOf(p.after + ",", ps[1..]));
      assert ElementOk(e) && Values([e] + more) == [e.value] + Values(more);
    }
  }

  lemma ListParts(pad: string, ps: seq<Part>, end: string) returns (p: Parts)
    requires AllBlank(pad) && Objects(ps)
    ensures PartsOk(p) && IsGap(p.gap) && Values(p.es) == Json.Values(ps) && ParseValue(p.tail).Fail?
    ensures On(List(pad, ps), end) == "[" + Written(p.es, p.gap, p.tail)
  {
    hide On, Meaning, IsGap, Loose, AllBlank, ParseValue;
    var tail := "]" + end;
    var gap := if ps == [] then pad else ps[|ps| - 1].after;
    assert ps != [] ==> PartOk(ps[|ps| - 1]);
    BlankIsSpace(gap);
    GapIsLoose(gap);
    ElementsOfOk("", ps);
    NothingDecodes(tail);
    p := Parts(ElementsOf("", ps), gap, tail);
    ListIs(pad, ps, end);
    if ps != [] {
      ElementsWritten("", ps, end);
      assert "" + PartsOn(ps, end) == PartsOn(ps, end);
    }
  }

  lemma ListIs(pad: string, ps: seq<Part>, end: string)
    ensures On(List(pad, ps), end) == "[" + if ps == [] then pad + ("]" + end) else PartsOn(ps, end)
  {
  }

  // Chunk independence: of every JSON array of objects, with any white space and anything
  // after it, cut in any way, the reader returns the values of the first `limit` elements, if
  // and only if the first chunk is not all white space (or nothing is asked for). Otherwise
  // it raises.
  lemma ChunkIndependence(chunks: seq<string>, start: string, pad: string, ps: seq<Part>, end: string, limit: nat)
    requires AllSpace(start) && AllBlank(pad) && Objects(ps)
    requires Nonempty(chunks) && Concat(chunks) == start + On(List(pad, ps), end)
    ensures chunks != []
    ensures Stream(chunks, NOTHING_READ, limit) ==
            if limit > 0 && LStrip(chunks[0]) == "" then ArrayExpected else Items(Take(Json.Values(ps), limit))
  {
    hide On, PartsOk, Stream, IsGap, ParseValue;
    var p := ListParts(pad, ps, end);
    EveryArray(chunks, start, p, limit);
  }
}
