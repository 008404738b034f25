// JSON texts (RFC 8259) as Python's decoder reads them: a value at the start of a string,
// and what follows it. The decoder takes NaN and the infinities besides the grammar.
module Json {
  datatype Value = Null | Bool(b: bool) | Number(lexeme: string) | Str(raw: string) | Array(elems: seq<Value>)
    | Object(members: seq<Member>)
  datatype Member = Member(key: string, value: Value)

  datatype Parsed<+T> = Fail | Got(value: T, rest: string)

  predicate Blank(c: char) {
    c == ' ' || c == '\t' || c == '\n' || c == '\r'
  }

  predicate Digit(c: char) {
    '0' <= c <= '9'
  }

  predicate HexDigit(c: char) {
    Digit(c) || 'a' <= c <= 'f' || 'A' <= c <= 'F'
  }

  predicate Starts(s: string, c: char) {
    s != "" && s[0] == c
  }

  function SkipBlanks(s: string): (r: string)
    ensures |r| <= |s| && (r != "" ==> !Blank(r[0]))
  {
    if s != "" && Blank(s[0]) then SkipBlanks(s[1..]) else s
  }

  // ---- Numbers and strings -----------------------------------------------------------

  // The end of the run of digits that begins at i.
  function DigitRun(s: string, i: nat): (j: nat)
    requires i <= |s|
    ensures i <= j <= |s| && (j < |s| ==> !Digit(s[j]))
    decreases |s| - i
  {
    if i < |s| && Digit(s[i]) then DigitRun(s, i + 1) else i
  }

  // The end of the integer part, or i when there is none.
  function IntEnd(s: string, i: nat): (j: nat)
    requires i <= |s|
    ensures i <= j <= |s|
  {
    if i < |s| && s[i] == '0' then i + 1 else DigitRun(s, i)
  }

  function FractionEnd(s: string, i: nat): (j: nat)
    requires i <= |s|
    ensures i <= j <= |s|
  {
    if i < |s| && s[i] == '.' && DigitRun(s, i + 1) > i + 1 then DigitRun(s, i + 1) else i
  }

  function ExponentEnd(s: string, i: nat): (j: nat)
    requires i <= |s|
    ensures i <= j <= |s|
  {
    if i < |s| && (s[i] == 'e' || s[i] == 'E') then
      var k := if i + 1 < |s| && (s[i + 1] == '+' || s[i + 1] == '-') then i + 2 else i + 1;
      if DigitRun(s, k) > k then DigitRun(s, k) else i
    else i
  }

  // Length of the number at the start of s; 0 when there is none.
  function NumberLen(s: string): (n: nat)
    ensures n <= |s|
  {
    var i := if Starts(s, '-') then 1 else 0;
    var j := IntEnd(s, i);
    if j == i then 0 else ExponentEnd(s, FractionEnd(s, j))
  }

  // The characters of a string up to its closing quotation mark, as they are written.
  function ParseChars(s: string): (p: Parsed<string>)
    ensures p.Got? ==> |p.rest| < |s|
  {
    if s == "" || (s[0] as int) < 0x20 then Fail
    else if s[0] == '"' then Got("", s[1..])
    else
      var n := if s[0] == '\\' then EscapeLen(s) else 1;
      if n == 0 then Fail
      else
        match ParseChars(s[n..])
        case Fail => Fail
        case Got(cs, rest) => Got(s[..n] + cs, rest)
  }

  // Length of the escape at the start of s; 0 when it is not one.
  function EscapeLen(s: string): (n: nat)
    ensures n <= |s|
  {
    if |s| < 2 then 0
    else if s[1] in "\"\\/bfnrt" then 2
    else if s[1] == 'u' && |s| >= 6 && HexDigit(s[2]) && HexDigit(s[3]) && HexDigit(s[4]) && HexDigit(s[5]) then 6
    else 0
  }

  // ---- Values ------------------------------------------------------------------------

  function Literal(s: string): Parsed<Value> {
    if "null" <= s then Got(Null, s[4..])
    else if "true" <= s then Got(Bool(true), s[4..])
    else if "false" <= s then Got(Bool(false), s[5..])
    else if "NaN" <= s then Got(Number("NaN"), s[3..])
    else if "Infinity" <= s then Got(Number("Infinity"), s[8..])
    else if "-Infinity" <= s then Got(Number("-Infinity"), s[9..])
    else if NumberLen(s) > 0 then Got(Number(s[..NumberLen(s)]), s[NumberLen(s)..])
    else Fail
  }

  // raw_decode: the value at the start of s.
  function ParseValue(s: string): (p: Parsed<Value>)
    ensures p.Got? ==> |p.rest| < |s|
    ensures p.Got? && Starts(s, '{') ==> p.value.Object?
    decreases |s|, 1
  {
    if Starts(s, '"') then
      match ParseChars(s[1..])
      case Fail => Fail
      case Got(cs, rest) => Got(Str(cs), rest)
    else if Starts(s, '{') then
      var t := SkipBlanks(s[1..]);
      if Starts(t, '}') then Got(Object([]), t[1..])
      else
        match ParseMembers(t)
        case Fail => Fail
        case Got(ms, rest) => Got(Object(ms), rest)
    else if Starts(s, '[') then
      var t := SkipBlanks(s[1..]);
      if Starts(t, ']') then Got(Array([]), t[1..])
      else
        match ParseElements(t)
        case Fail => Fail
        case Got(vs, rest) => Got(Array(vs), rest)
    else Literal(s)
  }

  // A key, a colon and a value.
  function ParseMember(s: string): (p: Parsed<Member>)
    ensures p.Got? ==> |p.rest| < |s|
    decreases |s|, 0
  {
    if !Starts(s, '"') then Fail
    else
      match ParseChars(s[1..])
      case Fail => Fail
      case Got(key, rest) =>
        var t := SkipBlanks(rest);
        if !Starts(t, ':') then Fail
        else
          match ParseValue(SkipBlanks(t[1..]))
          case Fail => Fail
          case Got(v, rest') => Got(Member(key, v), rest')
  }

  // Members up to the closing brace.
  function ParseMembers(s: string): (p: Parsed<seq<Member>>)
    ensures p.Got? ==> |p.rest| < |s|
    decreases |s|, 2
  {
    match ParseMember(s)
    case Fail => Fail
    case Got(m, rest) =>
      var t := SkipBlanks(rest);
      if Starts(t, '}') then Got([m], t[1..])
      else if !Starts(t, ',') then Fail
      else
        match ParseMembers(SkipBlanks(t[1..]))
        case Fail => Fail
        case Got(ms, rest') => Got([m] + ms, rest')
  }

  // Elements up to the closing bracket.
  function ParseElements(s: string): (p: Parsed<seq<Value>>)
    ensures p.Got? ==> |p.rest| < |s|
    decreases |s|, 2
  {
    match ParseValue(s)
    case Fail => Fail
    case Got(v, rest) =>
      var t := SkipBlanks(rest);
      if Starts(t, ']') then Got([v], t[1..])
      else if !Starts(t, ',') then Fail
      else
        match ParseElements(SkipBlanks(t[1..]))
        case Fail => Fail
        case Got(vs, rest') => Got([v] + vs, rest')
  }

  // ---- The grammar -------------------------------------------------------------------

  // A JSON text with its white space. The words are the constants; a string is made of units,
  // which are characters and escapes; `pad` is what an empty array or object has inside.
  datatype Tree = Word(word: string) | Num(sign: string, whole: string, frac: string, exp: string) | Quoted(units: seq<string>)
    | List(pad: string, parts: seq<Part>) | Dict(pad: string, fields: seq<Field>)
  datatype Part = Part(before: string, tree: Tree, after: string)
  datatype Field = Field(before: string, key: seq<string>, mid: string, part: Part)

  predicate AllBlank(s: string) {
    forall i | 0 <= i < |s| :: Blank(s[i])
  }

  predicate Digits(s: string) {
    s != "" && forall i | 0 <= i < |s| :: Digit(s[i])
  }

  predicate WordOk(w: string) {
    w in {"null", "true", "false", "NaN", "Infinity", "-Infinity"}
  }

  predicate NumOk(sign: string, whole: string, frac: string, exp: string) {
    && sign in {"", "-"} && (whole == "0" || (Digits(whole) && whole[0] != '0'))
    && (frac == "" || (frac[0] == '.' && Digits(frac[1..])))
    && (exp == "" || (exp[0] in {'e', 'E'} && (Digits(exp[1..]) || (|exp| > 1 && exp[1] in {'+', '-'} && Digits(exp[2..])))))
  }

  predicate UnitOk(u: string) {
    || (|u| == 1 && u[0] as int >= 0x20 && u[0] !in {'"', '\\'})
    || (|u| == 2 && u[0] == '\\' && u[1] in {'"', '\\', '/', 'b', 'f', 'n', 'r', 't'})
    || (|u| == 6 && u[0] == '\\' && u[1] == 'u' && forall i | 2 <= i < 6 :: HexDigit(u[i]))
  }

  predicate UnitsOk(us: seq<string>) {
    forall i | 0 <= i < |us| :: UnitOk(us[i])
  }

  predicate TreeOk(t: Tree) {
    match t
    case Word(w) => WordOk(w)
    case Num(sign, whole, frac, exp) => NumOk(sign, whole, frac, exp)
    case Quoted(us) => UnitsOk(us)
    case List(pad, ps) => AllBlank(pad) && forall i | 0 <= i < |ps| :: PartOk(ps[i])
    case Dict(pad, fs) => AllBlank(pad) && forall i | 0 <= i < |fs| :: FieldOk(fs[i])
  }

  predicate PartOk(p: Part) {
    AllBlank(p.before) && TreeOk(p.tree) && AllBlank(p.after)
  }

  predicate FieldOk(f: Field) {
    AllBlank(f.before) && UnitsOk(f.key) && AllBlank(f.mid) && PartOk(f.part)
  }

  function Joined(us: seq<string>): string {
    if us == [] then "" else us[0] + Joined(us[1..])
  }

  // The text of a tree, with `rest` after it.
  function On(t: Tree, rest: string): string
    decreases t, 0
  {
    match t
    case Word(w) => w + rest
    case Num(sign, whole, frac, exp) => sign + (whole + (frac + (exp + rest)))
    case Quoted(us) => "\"" + (Joined(us) + ("\"" + rest))
    case List(pad, ps) => "[" + if ps == [] then pad + ("]" + rest) else PartsOn(ps, rest)
    case Dict(pad, fs) => "{" + if fs == [] then pad + ("}" + rest) else FieldsOn(fs, rest)
  }

  // Elements with the commas between them and the closing bracket.
  function PartsOn(ps: seq<Part>, rest: string): string
    requires ps != []
    decreases ps, 1
  {
    ps[0].before + On(ps[0].tree, ps[0].after + if |ps| == 1 then "]" + rest else "," + PartsOn(ps[1..], rest))
  }

  // Members with the commas between them and the closing brace.
  function FieldsOn(fs: seq<Field>, rest: string): string
    requires fs != []
    decreases fs, 1
  {
    fs[0].before + FieldOn(fs[0], if |fs| == 1 then "}" + rest else "," + FieldsOn(fs[1..], rest))
  }

  // A key, a colon and a value.
  function FieldOn(f: Field, rest: string): string
    decreases f, 0
  {
    "\"" + (Joined(f.key) + ("\"" + (f.mid + (":" + (f.part.before + On(f.part.tree, f.part.after + rest))))))
  }

  // The value of a tree.
  function Meaning(t: Tree): Value
    decreases t, 0
  {
    match t
    case Word(w) => if w == "null" then Null else if w == "true" then Bool(true) else if w == "false" then Bool(false) else Number(w)
    case Num(sign, whole, frac, exp) => Number(sign + (whole + (frac + exp)))
    case Quoted(us) => Str(Joined(us))
    case List(_, ps) => Array(Values(ps))
    case Dict(_, fs) => Object(Members(fs))
  }

  function Values(ps: seq<Part>): seq<Value>
    decreases ps, 1
  {
    if ps == [] then [] else [Meaning(ps[0].tree)] + Values(ps[1..])
  }

  function Members(fs: seq<Field>): seq<Member>
    decreases fs, 1
  {
    if fs == [] then [] else [Member(Joined(fs[0].key), Meaning(fs[0].part.tree))] + Members(fs[1..])
  }

  // What follows a number: nothing, white space, or what stands between values.
  predicate Ends(rest: string) {
    rest == "" || Blank(rest[0]) || rest[0] in {',', ']', '}'}
  }

  // ---- Every text of the grammar is read ------------------------------------------------

  lemma {:induction false} SkipOver(b: string, s: string)
    requires AllBlank(b) && (s != "" ==> !Blank(s[0]))
    ensures SkipBlanks(b + s) == s
  {
    if b == "" {
      assert b + s == s;
    } else {
      assert (b + s)[0] == b[0] && (b + s)[1..] == b[1..] + s;
      SkipOver(b[1..], s);
    }
  }

  // Digits up to j and no further.
  lemma {:induction false} RunTo(s: string, i: nat, j: nat)
    requires i <= j <= |s| && (forall k | i <= k < j :: Digit(s[k])) && (j < |s| ==> !Digit(s[j]))
    ensures DigitRun(s, i) == j
    decreases j - i
  {
    if i < j { RunTo(s, i + 1, j); }
  }

  lemma {:induction false} RunIsDigits(s: string, i: nat)
    requires i <= |s|
    ensures forall k | i <= k < DigitRun(s, i) :: Digit(s[k])
    decreases |s| - i
  {
    if i < |s| && Digit(s[i]) { RunIsDigits(s, i + 1); }
  }

  lemma RunOver(a: string, d: string, rest: string)
    requires Digits(d) && (rest != "" ==> !Digit(rest[0]))
    ensures DigitRun(a + (d + rest), |a|) == |a| + |d|
  {
    var s := a + (d + rest);
    forall k | |a| <= k < |a| + |d| ensures Digit(s[k]) { assert s[k] == d[k - |a|]; }
    assert rest != "" ==> s[|a| + |d|] == rest[0];
    RunTo(s, |a|, |a| + |d|);
  }

  // The texts that can follow the integer part, and the fraction.
  predicate AfterInt(s: string) {
    s != "" ==> !Digit(s[0])
  }

  lemma IntOver(sign: string, whole: string, rest: string)
    requires (whole == "0" || (Digits(whole) && whole[0] != '0')) && AfterInt(rest)
    ensures IntEnd(sign + (whole + rest), |sign|) == |sign| + |whole|
  {
    assert (sign + (whole + rest))[|sign|] == whole[0];
    if whole != "0" { RunOver(sign, whole, rest); }
  }

  lemma FractionOver(a: string, frac: string, rest: string)
    requires frac == "" || (frac[0] == '.' && Digits(frac[1..]))
    requires AfterInt(rest) && (rest != "" ==> rest[0] != '.')
    ensures FractionEnd(a + (frac + rest), |a|) == |a| + |frac|
  {
    var s := a + (frac + rest);
    if frac == "" {
      assert rest != "" ==> s[|a|] == rest[0];
    } else {
      assert s[|a|] == '.' && s == (a + ".") + (frac[1..] + rest);
      RunOver(a + ".", frac[1..], rest);
    }
  }

  lemma ExponentOver(a: string, exp: string, rest: string)
    requires exp == "" || (exp[0] in {'e', 'E'} && (Digits(exp[1..]) || (|exp| > 1 && exp[1] in {'+', '-'} && Digits(exp[2..]))))
    requires Ends(rest)
    ensures ExponentEnd(a + (exp + rest), |a|) == |a| + |exp|
  {
    var s := a + (exp + rest);
    if exp == "" {
      assert rest != "" ==> s[|a|] == rest[0];
    } else {
      assert s[|a|] == exp[0] && s[|a| + 1] == exp[1];
      var n := if exp[1] == '+' || exp[1] == '-' then 2 else 1;
      assert s == (a + exp[..n]) + (exp[n..] + rest);
      RunOver(a + exp[..n], exp[n..], rest);
    }
  }

  lemma NumberOver(sign: string, whole: string, frac: string, exp: string, rest: string)
    requires NumOk(sign, whole, frac, exp) && Ends(rest)
    ensures NumberLen(sign + (whole + (frac + (exp + rest)))) == |sign + (whole + (frac + exp))|
  {
    hide Digits, IntEnd, FractionEnd, ExponentEnd;
    var s := sign + (whole + (frac + (exp + rest)));
    var i := if Starts(s, '-') then 1 else 0;
    assert whole[0] != '-' by { FirstDigit(whole); }
    assert i == |sign|;
    AfterExp(exp, rest);
    IntOver(sign, whole, frac + (exp + rest));
    assert s == (sign + whole) + (frac + (exp + rest));
    FractionOver(sign + whole, frac, exp + rest);
    assert s == (sign + whole + frac) + (exp + rest);
    ExponentOver(sign + whole + frac, exp, rest);
  }

  lemma FirstDigit(whole: string)
    requires whole == "0" || Digits(whole)
    ensures whole != "" && Digit(whole[0])
  {
  }

  lemma AfterExp(exp: string, rest: string)
    requires (exp == "" || exp[0] in {'e', 'E'}) && Ends(rest)
    ensures AfterInt(exp + rest) && (exp + rest != "" ==> (exp + rest)[0] != '.')
  {
    if exp == "" { assert exp + rest == rest; } else { assert (exp + rest)[0] == exp[0]; }
  }

  lemma WordChars(word: string, s: string, i: nat)
    requires i < |word|
    ensures word <= s ==> i < |s| && s[i] == word[i]
  {
  }

  // A text that starts with a digit, or with a minus and a digit, starts with no word.
  lemma NoWord(s: string)
    requires s != "" && (Digit(s[0]) || (s[0] == '-' && |s| > 1 && Digit(s[1])))
    ensures !("null" <= s) && !("true" <= s) && !("false" <= s) && !("NaN" <= s) && !("Infinity" <= s) && !("-Infinity" <= s)
  {
    WordChars("-Infinity", s, 1);
  }

  lemma NumberParses(sign: string, whole: string, frac: string, exp: string, rest: string)
    requires NumOk(sign, whole, frac, exp) && Ends(rest)
    ensures ParseValue(sign + (whole + (frac + (exp + rest)))) == Got(Number(sign + (whole + (frac + exp))), rest)
  {
    hide Digits, NumberLen, NumOk, ParseValue;
    var (s, x) := (sign + (whole + (frac + (exp + rest))), sign + (whole + (frac + exp)));
    NumOkParts(sign, whole, frac, exp);
    NumberStarts(sign, whole, frac + (exp + rest));
    NumberOver(sign, whole, frac, exp, rest);
    NumberIsRead(s);
    Regroup(sign, whole, frac, exp, rest);
    SplitAt(x, rest);
  }

  lemma Regroup(a: string, b: string, c: string, d: string, e: string)
    ensures a + (b + (c + (d + e))) == (a + (b + (c + d))) + e
  {
  }

  lemma NumOkParts(sign: string, whole: string, frac: string, exp: string)
    requires NumOk(sign, whole, frac, exp)
    ensures sign in {"", "-"} && whole != "" && (whole == "0" || Digits(whole))
  {
    hide Digits;
    FirstDigit(whole);
  }

  lemma SplitAt(x: string, rest: string)
    ensures (x + rest)[..|x|] == x && (x + rest)[|x|..] == rest
  {
  }

  lemma NumberStarts(sign: string, whole: string, rest: string)
    requires sign in {"", "-"} && (whole == "0" || Digits(whole))
    ensures var s := sign + (whole + rest); s != "" && (Digit(s[0]) || (s[0] == '-' && |s| > 1 && Digit(s[1])))
  {
    FirstDigit(whole);
    assert (sign + (whole + rest))[|sign|] == whole[0];
  }

  lemma NumberIsRead(s: string)
    requires s != "" && (Digit(s[0]) || (s[0] == '-' && |s| > 1 && Digit(s[1]))) && NumberLen(s) > 0
    ensures ParseValue(s) == Got(Number(s[..NumberLen(s)]), s[NumberLen(s)..])
  {
    hide NumberLen;
    NoWord(s);
  }

  lemma WordParses(w: string, rest: string)
    requires WordOk(w)
    ensures ParseValue(w + rest) == Got(Meaning(Word(w)), rest)
  {
    hide NumberLen;
    var s := w + rest;
    assert s[0] == w[0] && w <= s && s[|w|..] == rest;
  }

  lemma UnitParses(u: string, s: string)
    requires UnitOk(u)
    ensures var w := u + s; w[0] != '"' && w[0] as int >= 0x20 && |u| == (if w[0] == '\\' then EscapeLen(w) else 1)
  {
    var w := u + s;
    assert forall i | 0 <= i < |u| :: w[i] == u[i];
  }

  lemma {:induction false} CharsParse(us: seq<string>, rest: string)
    requires UnitsOk(us)
    ensures ParseChars(Joined(us) + ("\"" + rest)) == Got(Joined(us), rest)
  {
    var end := "\"" + rest;
    if us == [] {
      assert Joined(us) + end == end && end[1..] == rest;
    } else {
      var (u, more) := (us[0], Joined(us[1..]) + end);
      var s := u + more;
      assert Joined(us) + end == s;
      UnitParses(u, more);
      assert s[..|u|] == u && s[|u|..] == more;
      CharsParse(us[1..], rest);
    }
  }

  // Where a text of the grammar begins.
  lemma TreeStarts(t: Tree, rest: string)
    requires TreeOk(t)
    ensures var s := On(t, rest); s != "" && !Blank(s[0]) && s[0] !in {',', ']', '}'} && (s[0] == '{' <==> t.Dict?)
  {
    hide Joined, Digits, PartsOn, FieldsOn;
    match t
    case Num(sign, whole, frac, exp) =>
      FirstDigit(whole);
      assert sign == "" ==> On(t, rest)[0] == whole[0];
      assert sign == "-" ==> On(t, rest)[0] == '-';
    case Word(w) => assert (w + rest)[0] == w[0];
    case _ =>
  }

  lemma {:induction false} TreeParses(t: Tree, rest: string)
    requires TreeOk(t) && (t.Num? ==> Ends(rest))
    ensures ParseValue(On(t, rest)) == Got(Meaning(t), rest)
    decreases t, 0
  {
    hide WordOk, NumOk, UnitsOk, AllBlank, PartOk, FieldOk, ParseElements, ParseMembers, PartsOn, FieldsOn;
    match t
    case Word(w) => WordParses(w, rest);
    case Num(sign, whole, frac, exp) => NumberParses(sign, whole, frac, exp, rest);
    case Quoted(us) =>
      CharsParse(us, rest);
      assert On(t, rest)[1..] == Joined(us) + ("\"" + rest);
    case List(pad, ps) =>
      if ps == [] { SkipOver(pad, "]" + rest); } else { PartsParse(ps, rest); }
      assert On(t, rest)[1..] == if ps == [] then pad + ("]" + rest) else PartsOn(ps, rest);
    case Dict(pad, fs) =>
      if fs == [] { SkipOver(pad, "}" + rest); } else { FieldsParse(fs, rest); }
      assert On(t, rest)[1..] == if fs == [] then pad + ("}" + rest) else FieldsOn(fs, rest);
  }

  lemma EndsAfter(after: string, s: string)
    requires AllBlank(after) && s != "" && s[0] in {',', ']', '}'}
    ensures Ends(after + s) && SkipBlanks(after + s) == s
  {
    SkipOver(after, s);
    assert (after + s)[0] == if after == "" then s[0] else after[0];
  }

  lemma {:induction false} PartsParse(ps: seq<Part>, rest: string)
    requires ps != [] && forall i | 0 <= i < |ps| :: PartOk(ps[i])
    ensures var s := SkipBlanks(PartsOn(ps, rest)); ParseElements(s) == Got(Values(ps), rest) && !Starts(s, ']')
    decreases ps, 1
  {
    hide ParseValue, On, AllBlank, TreeOk, Ends, SkipBlanks;
    var p := ps[0];
    assert PartOk(p);
    var end := if |ps| == 1 then "]" + rest else "," + PartsOn(ps[1..], rest);
    EndsAfter(p.after, end);
    TreeParses(p.tree, p.after + end);
    TreeStarts(p.tree, p.after + end);
    SkipOver(p.before, On(p.tree, p.after + end));
    assert end[1..] == if |ps| == 1 then rest else PartsOn(ps[1..], rest);
    if |ps| > 1 { PartsParse(ps[1..], rest); } else { assert Values(ps) == [Meaning(p.tree)]; }
  }

  lemma MemberParses(f: Field, s: string)
    requires FieldOk(f) && Ends(f.part.after + s) && ParseValue(On(f.part.tree, f.part.after + s)) == Got(Meaning(f.part.tree), f.part.after + s)
    ensures ParseMember(FieldOn(f, s)) == Got(Member(Joined(f.key), Meaning(f.part.tree)), f.part.after + s)
  {
    hide ParseValue, ParseChars, On, AllBlank, UnitsOk, TreeOk, Ends, SkipBlanks, Joined;
    var value := On(f.part.tree, f.part.after + s);
    var colon := ":" + (f.part.before + value);
    var text := "\"" + (Joined(f.key) + ("\"" + (f.mid + colon)));
    assert text[1..] == Joined(f.key) + ("\"" + (f.mid + colon));
    CharsParse(f.key, f.mid + colon);
    SkipOver(f.mid, colon);
    assert colon[1..] == f.part.before + value;
    TreeStarts(f.part.tree, f.part.after + s);
    SkipOver(f.part.before, value);
  }

  lemma {:induction false} FieldsParse(fs: seq<Field>, rest: string)
    requires fs != [] && forall i | 0 <= i < |fs| :: FieldOk(fs[i])
    ensures var s := SkipBlanks(FieldsOn(fs, rest)); ParseMembers(s) == Got(Members(fs), rest) && !Starts(s, '}')
    decreases fs, 1
  {
    hide ParseMember, ParseValue, On, AllBlank, UnitsOk, TreeOk, Ends, SkipBlanks, Joined;
    var f := fs[0];
    assert FieldOk(f);
    var p := f.part;
    var end := if |fs| == 1 then "}" + rest else "," + FieldsOn(fs[1..], rest);
    EndsAfter(p.after, end);
    TreeParses(p.tree, p.after + end);
    MemberParses(f, end);
    SkipOver(f.before, FieldOn(f, end));
    assert end[1..] == if |fs| == 1 then rest else FieldsOn(fs[1..], rest);
    if |fs| > 1 { FieldsParse(fs[1..], rest); } else { assert Members(fs) == [Member(Joined(f.key), Meaning(p.tree))]; }
  }

  // ---- Whatever is read is a text of the grammar ------------------------------------------

  lemma {:induction false} SkipSound(s: string) returns (b: string)
    ensures AllBlank(b) && s == b + SkipBlanks(s)
  {
    if s != "" && Blank(s[0]) {
      var c := SkipSound(s[1..]);
      b := [s[0]] + c;
      assert s == [s[0]] + s[1..];
    } else {
      b := "";
    }
  }

  lemma UnitSound(s: string, n: nat)
    requires s != "" && s[0] as int >= 0x20 && s[0] != '"' && n == (if s[0] == '\\' then EscapeLen(s) else 1) && n > 0
    ensures n <= |s| && UnitOk(s[..n])
  {
    if n == 6 { assert forall i | 2 <= i < 6 :: HexDigit(s[i]); }
  }

  lemma {:induction false} CharsSound(s: string) returns (us: seq<string>)
    requires ParseChars(s).Got?
    ensures var p := ParseChars(s); UnitsOk(us) && p.value == Joined(us) && s == Joined(us) + ("\"" + p.rest)
  {
    hide UnitOk, EscapeLen;
    var rest := ParseChars(s).rest;
    if s[0] == '"' {
      us := [];
      assert s == "\"" + s[1..] == Joined(us) + ("\"" + s[1..]);
    } else {
      var n := if s[0] == '\\' then EscapeLen(s) else 1;
      UnitSound(s, n);
      var more := CharsSound(s[n..]);
      us := [s[..n]] + more;
      assert us[1..] == more;
      assert s == s[..n] + s[n..] == Joined(us) + ("\"" + rest);
    }
  }

  lemma DigitsOf(s: string, i: nat)
    requires i < |s| && DigitRun(s, i) > i
    ensures Digits(s[i..DigitRun(s, i)])
  {
    RunIsDigits(s, i);
  }

  lemma IntSound(s: string, i: nat)
    requires i <= |s| && IntEnd(s, i) > i
    ensures var x := s[i..IntEnd(s, i)]; x == "0" || (Digits(x) && x[0] != '0')
  {
    if s[i] == '0' { assert s[i..i + 1] == "0"; } else { DigitsOf(s, i); }
  }

  lemma FractionSound(s: string, i: nat)
    requires i <= |s|
    ensures var x := s[i..FractionEnd(s, i)]; x == "" || (x[0] == '.' && Digits(x[1..]))
  {
    var j := FractionEnd(s, i);
    if j > i {
      DigitsOf(s, i + 1);
      assert s[i..j][1..] == s[i + 1..j];
    }
  }

  lemma ExponentSound(s: string, i: nat)
    requires i <= |s|
    ensures var x := s[i..ExponentEnd(s, i)];
      x == "" || (x[0] in {'e', 'E'} && (Digits(x[1..]) || (|x| > 1 && x[1] in {'+', '-'} && Digits(x[2..]))))
  {
    hide Digits;
    var j := ExponentEnd(s, i);
    if j > i {
      var k := if s[i + 1] == '+' || s[i + 1] == '-' then i + 2 else i + 1;
      DigitsOf(s, k);
      assert s[i..j][1..] == s[i + 1..j] && s[i..j][k - i..] == s[k..j];
    }
  }

  lemma NumberSound(s: string) returns (t: Tree)
    requires NumberLen(s) > 0
    ensures var n := NumberLen(s); t.Num? && TreeOk(t) && s == On(t, s[n..]) && Meaning(t) == Number(s[..n])
  {
    hide Digits, IntEnd, FractionEnd, ExponentEnd;
    var n := NumberLen(s);
    var i := if Starts(s, '-') then 1 else 0;
    var j := IntEnd(s, i);
    var k := FractionEnd(s, j);
    IntSound(s, i);
    FractionSound(s, j);
    ExponentSound(s, k);
    t := Num(s[..i], s[i..j], s[j..k], s[k..n]);
    assert s[..i] == if i == 0 then "" else "-";
    Pieces(s, i, j, k, n);
  }

  lemma Pieces(s: string, i: nat, j: nat, k: nat, n: nat)
    requires i <= j <= k <= n <= |s|
    ensures s == s[..i] + (s[i..j] + (s[j..k] + (s[k..n] + s[n..])))
    ensures s[..n] == s[..i] + (s[i..j] + (s[j..k] + s[k..n]))
  {
  }

  lemma LiteralSound(s: string) returns (t: Tree)
    requires Literal(s).Got?
    ensures (t.Word? || t.Num?) && TreeOk(t) && s == On(t, Literal(s).rest) && Literal(s).value == Meaning(t)
  {
    hide NumberLen, NumOk;
    if "null" <= s { t := Word("null"); }
    else if "true" <= s { t := Word("true"); }
    else if "false" <= s { t := Word("false"); }
    else if "NaN" <= s { t := Word("NaN"); }
    else if "Infinity" <= s { t := Word("Infinity"); }
    else if "-Infinity" <= s { t := Word("-Infinity"); }
    else { t := NumberSound(s); }
  }

  lemma {:induction false} ValueSound(s: string) returns (t: Tree)
    requires ParseValue(s).Got?
    ensures TreeOk(t) && s == On(t, ParseValue(s).rest) && ParseValue(s).value == Meaning(t)
    decreases |s|, 1
  {
    hide WordOk, NumOk, UnitsOk, AllBlank, PartOk, FieldOk, ParseElements, ParseMembers, PartsOn, FieldsOn, Literal;
    var rest := ParseValue(s).rest;
    assert s != "" ==> s == [s[0]] + s[1..];
    if Starts(s, '"') {
      var us := CharsSound(s[1..]);
      t := Quoted(us);
    } else if Starts(s, '{') {
      var b := SkipSound(s[1..]);
      var u := SkipBlanks(s[1..]);
      if Starts(u, '}') {
        t := Dict(b, []);
        assert u == "}" + u[1..];
      } else {
        var fs := MembersSound(u);
        BlankIsBlank();
        fs := IndentFields(b, fs, rest);
        t := Dict("", fs);
      }
    } else if Starts(s, '[') {
      var b := SkipSound(s[1..]);
      var u := SkipBlanks(s[1..]);
      if Starts(u, ']') {
        t := List(b, []);
        assert u == "]" + u[1..];
      } else {
        var ps := ElementsSound(u);
        BlankIsBlank();
        ps := IndentParts(b, ps, rest);
        t := List("", ps);
      }
    } else {
      t := LiteralSound(s);
    }
  }

  lemma BlankIsBlank()
    ensures AllBlank("")
  {
  }

  // White space in front of the first element, and of the first member.
  lemma IndentParts(b: string, ps: seq<Part>, rest: string) returns (r: seq<Part>)
    requires AllBlank(b) && ps != [] && ps[0].before == "" && forall i | 0 <= i < |ps| :: PartOk(ps[i])
    ensures r != [] && (forall i | 0 <= i < |r| :: PartOk(r[i])) && PartsOn(r, rest) == b + PartsOn(ps, rest) && Values(r) == Values(ps)
  {
    hide On, TreeOk, AllBlank;
    r := ps[0 := ps[0].(before := b)];
    assert r[1..] == ps[1..];
    var first := On(ps[0].tree, ps[0].after + if |ps| == 1 then "]" + rest else "," + PartsOn(ps[1..], rest));
    assert PartsOn(ps, rest) == "" + first == first;
    assert PartOk(ps[0]);
  }

  lemma IndentFields(b: string, fs: seq<Field>, rest: string) returns (r: seq<Field>)
    requires AllBlank(b) && fs != [] && fs[0].before == "" && forall i | 0 <= i < |fs| :: FieldOk(fs[i])
    ensures r != [] && (forall i | 0 <= i < |r| :: FieldOk(r[i])) && FieldsOn(r, rest) == b + FieldsOn(fs, rest) && Members(r) == Members(fs)
  {
    hide On, PartOk, AllBlank, UnitsOk, Joined;
    r := fs[0 := fs[0].(before := b)];
    assert r[1..] == fs[1..];
    var first := FieldOn(fs[0], if |fs| == 1 then "}" + rest else "," + FieldsOn(fs[1..], rest));
    assert FieldsOn(fs, rest) == "" + first == first;
    assert FieldOk(fs[0]);
  }

  lemma {:induction false} ElementsSound(s: string) returns (ps: seq<Part>)
    requires ParseElements(s).Got?
    ensures var p := ParseElements(s);
      ps != [] && ps[0].before == "" && (forall i | 0 <= i < |ps| :: PartOk(ps[i])) && s == PartsOn(ps, p.rest) && p.value == Values(ps)
    decreases |s|, 2
  {
    hide ParseValue, TreeOk, On, SkipBlanks, AllBlank;
    var rest := ParseElements(s).rest;
    var tree := ValueSound(s);
    var (v, after) := (ParseValue(s).value, ParseValue(s).rest);
    var a := SkipSound(after);
    var t := SkipBlanks(after);
    var part := Part("", tree, a);
    BlankIsBlank();
    assert t == [t[0]] + t[1..];
    if Starts(t, ']') {
      ps := [part];
      assert "" + On(tree, after) == s;
    } else {
      var b := SkipSound(t[1..]);
      var more := ElementsSound(SkipBlanks(t[1..]));
      more := IndentParts(b, more, rest);
      ps := [part] + more;
      assert ps[1..] == more && "" + On(tree, after) == s;
    }
  }

  lemma {:induction false} MemberSound(s: string) returns (f: Field)
    requires ParseMember(s).Got?
    ensures var p := ParseMember(s);
      f.before == "" && f.part.after == "" && FieldOk(f) && s == FieldOn(f, p.rest) && p.value == Member(Joined(f.key), Meaning(f.part.tree))
    decreases |s|, 0
  {
    hide ParseValue, ParseChars, TreeOk, On, SkipBlanks, AllBlank, UnitsOk, Joined;
    var key := CharsSound(s[1..]);
    var rest := ParseChars(s[1..]).rest;
    var b := SkipSound(rest);
    var t := SkipBlanks(rest);
    var c := SkipSound(t[1..]);
    var tree := ValueSound(SkipBlanks(t[1..]));
    var end := ParseMember(s).rest;
    BlankIsBlank();
    f := Field("", key, b, Part(c, tree, ""));
    assert s == "\"" + s[1..] && t == ":" + t[1..] && "" + end == end;
  }

  lemma {:induction false} MembersSound(s: string) returns (fs: seq<Field>)
    requires ParseMembers(s).Got?
    ensures var p := ParseMembers(s);
      fs != [] && fs[0].before == "" && (forall i | 0 <= i < |fs| :: FieldOk(fs[i])) && s == FieldsOn(fs, p.rest) && p.value == Members(fs)
    decreases |s|, 2
  {
    hide ParseMember, TreeOk, On, SkipBlanks, AllBlank, UnitsOk, Joined;
    var rest := ParseMembers(s).rest;
    var f := MemberSound(s);
    var after := ParseMember(s).rest;
    var a := SkipSound(after);
    var t := SkipBlanks(after);
    var g := f.(part := f.part.(after := a));
    assert "" + after == after && FieldOn(f, after) == FieldOn(g, t);
    assert t == [t[0]] + t[1..];
    if Starts(t, '}') {
      fs := [g];
      assert "" + FieldOn(g, t) == s;
    } else {
      var b := SkipSound(t[1..]);
      var more := MembersSound(SkipBlanks(t[1..]));
      more := IndentFields(b, more, rest);
      fs := [g] + more;
      assert fs[1..] == more && "" + FieldOn(g, t) == s;
    }
  }

  // ---- What more text changes --------------------------------------------------------

  lemma {:induction false} OnMore(t: Tree, rest: string, more: string)
    ensures On(t, rest) + more == On(t, rest + more)
    decreases t, 0
  {
    match t
    case Word(_) =>
    case Num(_, _, _, _) =>
    case Quoted(_) =>
    case List(pad, ps) => if ps != [] { PartsMore(ps, rest, more); }
    case Dict(pad, fs) => if fs != [] { FieldsMore(fs, rest, more); }
  }

  lemma {:induction false} PartsMore(ps: seq<Part>, rest: string, more: string)
    requires ps != []
    ensures PartsOn(ps, rest) + more == PartsOn(ps, rest + more)
    decreases ps, 1
  {
    hide On;
    var p := ps[0];
    var end := if |ps| == 1 then "]" + rest else "," + PartsOn(ps[1..], rest);
    var end' := if |ps| == 1 then "]" + (rest + more) else "," + PartsOn(ps[1..], rest + more);
    if |ps| > 1 { PartsMore(ps[1..], rest, more); }
    assert end + more == end' && (p.after + end) + more == p.after + end';
    OnMore(p.tree, p.after + end, more);
  }

  lemma {:induction false} FieldsMore(fs: seq<Field>, rest: string, more: string)
    requires fs != []
    ensures FieldsOn(fs, rest) + more == FieldsOn(fs, rest + more)
    decreases fs, 1
  {
    hide On;
    var p := fs[0].part;
    var end := if |fs| == 1 then "}" + rest else "," + FieldsOn(fs[1..], rest);
    var end' := if |fs| == 1 then "}" + (rest + more) else "," + FieldsOn(fs[1..], rest + more);
    if |fs| > 1 { FieldsMore(fs[1..], rest, more); }
    assert end + more == end' && (p.after + end) + more == p.after + end';
    OnMore(p.tree, p.after + end, more);
    FieldMore(fs[0], end, end', more);
  }

  lemma FieldMore(f: Field, end: string, end': string, more: string)
    requires On(f.part.tree, f.part.after + end) + more == On(f.part.tree, f.part.after + end')
    ensures FieldOn(f, end) + more == FieldOn(f, end')
  {
    hide On, Joined;
  }

  // An object text is read whole, and with anything after it; no proper prefix of it is.
  predicate ObjectText(s: string, v: Value) {
    Starts(s, '{') && ParseValue(s) == Got(v, "")
  }

  // The object texts are exactly those of the grammar.
  lemma ObjectExactly(s: string, v: Value)
    ensures ObjectText(s, v) <==> exists t: Tree :: TreeOk(t) && t.Dict? && s == On(t, "") && v == Meaning(t)
  {
    hide On, Meaning, TreeOk, ParseValue;
    if ObjectText(s, v) {
      var t := ValueSound(s);
      TreeStarts(t, "");
    }
    if t: Tree :| TreeOk(t) && t.Dict? && s == On(t, "") && v == Meaning(t) {
      TreeParses(t, "");
      TreeStarts(t, "");
    }
  }

  lemma ObjectWithMore(s: string, v: Value, more: string)
    requires ObjectText(s, v)
    ensures ParseValue(s + more) == Got(v, more)
  {
    hide On, Meaning, TreeOk, ParseValue;
    var t := ValueSound(s);
    TreeStarts(t, "");
    OnMore(t, "", more);
    assert "" + more == more;
    TreeParses(t, more);
  }

  lemma NoProperPrefixParses(s: string, v: Value, n: nat)
    requires ObjectText(s, v) && n < |s|
    ensures ParseValue(s[..n]).Fail?
  {
    hide On, Meaning, TreeOk, ParseValue;
    var (p, more) := (s[..n], s[n..]);
    assert p + more == s;
    if ParseValue(p).Got? {
      var t := ValueSound(p);
      var rest := ParseValue(p).rest;
      TreeStarts(t, rest);
      assert p[0] == s[0];
      OnMore(t, rest, more);
      TreeParses(t, rest + more);
    }
  }

  // The object at the start of a text, taken by itself.
  lemma ObjectAlone(s: string)
    requires Starts(s, '{') && ParseValue(s).Got?
    ensures var p := ParseValue(s); var k := |s| - |p.rest|;
      k > 0 && s == s[..k] + p.rest && ObjectText(s[..k], p.value) && p.value.Object?
  {
    hide On, Meaning, TreeOk, ParseValue;
    var t := ValueSound(s);
    var rest := ParseValue(s).rest;
    OnMore(t, "", rest);
    assert "" + rest == rest;
    var x := On(t, "");
    assert s[..|s| - |rest|] == x;
    TreeStarts(t, rest);
    TreeStarts(t, "");
    TreeParses(t, "");
    assert s == x + rest && s[|x|..] == rest;
  }

  // Text that decodes still does when more comes.
  lemma {:induction false} StillParses(s: string, more: string)
    requires ParseValue(s).Got?
    ensures ParseValue(s + more).Got?
  {
    hide On, Meaning, ParseValue;
    var t := ValueSound(s);
    var rest := ParseValue(s).rest;
    OnMore(t, rest, more);
    if t.Num? { NumStillParses(t, rest + more); } else { TreeParses(t, rest + more); }
  }

  lemma NumStillParses(t: Tree, rest: string)
    requires t.Num? && TreeOk(t)
    ensures ParseValue(On(t, rest)).Got?
  {
    hide NumberLen, Digits;
    var s := On(t, rest);
    NumberStarts(t.sign, t.whole, t.frac + (t.exp + rest));
    SomeNumber(s);
    NumberIsRead(s);
  }

  lemma SomeNumber(s: string)
    requires s != "" && (Digit(s[0]) || (s[0] == '-' && |s| > 1 && Digit(s[1])))
    ensures NumberLen(s) > 0
  {
  }

  // Only a text that begins with a brace decodes to an object.
  lemma OtherValue(s: string)
    requires ParseValue(s).Got? && !Starts(s, '{')
    ensures !ParseValue(s).value.Object?
  {
  }
}
