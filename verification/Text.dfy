// Python string primitives used by the trim: white space, strip and lower.
module Text {

  // The characters for which str.isspace() holds, which are also the ones that
  // str.strip() removes and that \s matches in a str pattern.
  predicate IsSpace(c: char) {
    var n := c as int;
    || 0x09 <= n <= 0x0D || 0x1C <= n <= 0x20 || n == 0x85 || n == 0xA0 || n == 0x1680
    || 0x2000 <= n <= 0x200A || n == 0x2028 || n == 0x2029 || n == 0x202F || n == 0x205F || n == 0x3000
  }

  function LStrip(s: string): (r: string)
    ensures |r| <= |s|
  {
    if s != "" && IsSpace(s[0]) then LStrip(s[1..]) else s
  }

  function RStrip(s: string): (r: string)
    ensures |r| <= |s|
  {
    if s != "" && IsSpace(s[|s| - 1]) then RStrip(s[..|s| - 1]) else s
  }

  function Strip(s: string): string {
    RStrip(LStrip(s))
  }

  // No white space at either end.
  predicate Tight(s: string) {
    s != "" ==> !IsSpace(s[0]) && !IsSpace(s[|s| - 1])
  }

  lemma {:induction false} LStripIsSuffix(s: string) returns (k: nat)
    ensures k <= |s| && LStrip(s) == s[k..]
    ensures forall i | 0 <= i < k :: IsSpace(s[i])
    ensures k < |s| ==> !IsSpace(s[k])
  {
    if s != "" && IsSpace(s[0]) {
      var j := LStripIsSuffix(s[1..]);
      assert forall i | 1 <= i < j + 1 :: s[i] == s[1..][i - 1];
      k := j + 1;
    } else {
      k := 0;
    }
  }

  lemma {:induction false} RStripIsPrefix(s: string) returns (k: nat)
    ensures k <= |s| && RStrip(s) == s[..k]
    ensures forall i | k <= i < |s| :: IsSpace(s[i])
    ensures k > 0 ==> !IsSpace(s[k - 1])
  {
    if s != "" && IsSpace(s[|s| - 1]) {
      var t := s[..|s| - 1];
      k := RStripIsPrefix(t);
      assert t[..k] == s[..k];
      assert forall i | k <= i < |t| :: t[i] == s[i];
    } else {
      k := |s|;
      assert s[..k] == s;
    }
  }

  // strip() cuts white space, and nothing else, off both ends.
  lemma StripIsMiddle(s: string) returns (a: nat, b: nat)
    ensures a <= b <= |s| && Strip(s) == s[a..b] && Tight(Strip(s))
    ensures forall i | 0 <= i < a || b <= i < |s| :: IsSpace(s[i])
  {
    a := LStripIsSuffix(s);
    var t := s[a..];
    var k := RStripIsPrefix(t);
    b := a + k;
    assert t[..k] == s[a..b];
    forall i | b <= i < |s| ensures IsSpace(s[i]) {
      assert s[i] == t[i - a];
    }
  }

  lemma StripTight(s: string)
    requires Tight(s)
    ensures Strip(s) == s
  {
  }

  // str.lower() as far as the ASCII markers of _protected can see it: upper-case
  // ASCII letters, and KELVIN SIGN, whose lower case is the ASCII letter k.
  function LowerChar(c: char): char {
    if 'A' <= c <= 'Z' then (c as int + 32) as char else if c == '\U{212A}' then 'k' else c
  }

  function Lower(s: string): (r: string)
    ensures |r| == |s| && forall i | 0 <= i < |s| :: r[i] == LowerChar(s[i])
  {
    seq(|s|, i requires 0 <= i < |s| => LowerChar(s[i]))
  }

  predicate Contains(s: string, part: string) {
    exists i {:trigger s[i..]} :: 0 <= i <= |s| - |part| && part <= s[i..]
  }
}
