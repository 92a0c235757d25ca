/**
 * String helpers with the semantics of the JavaScript built-ins the source uses:
 * `trim`, `startsWith`, a substring test (an unanchored regular expression of
 * alternatives), ASCII `toLowerCase`, and decimal formatting and parsing of integers
 * (template literals and `Number`).
 */
module Text {
  import opened Wrappers

  /** The ECMAScript WhiteSpace and LineTerminator code points, which `String.prototype.trim` removes. */
  predicate IsWhitespace(c: char) {
    || c == '\t' || c == '\U{B}' || c == '\U{C}' || c == ' ' || c == '\U{A0}' || c == '\U{FEFF}'
    || c == '\n' || c == '\r' || c == '\U{2028}' || c == '\U{2029}'
    || c == '\U{1680}' || ('\U{2000}' <= c <= '\U{200A}') || c == '\U{202F}' || c == '\U{205F}'
    || c == '\U{3000}'
  }

  predicate AllWhitespace(s: string) {
    forall i :: 0 <= i < |s| ==> IsWhitespace(s[i])
  }

  /** Drops the leading white space: the result is the longest suffix that does not start with it. */
  function TrimStart(s: string): (r: string)
    ensures |r| <= |s| && r == s[|s| - |r|..]
    ensures AllWhitespace(s[..|s| - |r|])
    ensures r == [] || !IsWhitespace(r[0])
    decreases |s|
  {
    if s != [] && IsWhitespace(s[0]) then
      var r := TrimStart(s[1..]);
      assert s[..|s| - |r|] == [s[0]] + s[1..][..|s| - 1 - |r|];
      r
    else s
  }

  /** Drops the trailing white space: the result is the longest prefix that does not end with it. */
  function TrimEnd(s: string): (r: string)
    ensures |r| <= |s| && r == s[..|r|]
    ensures AllWhitespace(s[|r|..])
    ensures r == [] || !IsWhitespace(r[|r| - 1])
    decreases |s|
  {
    if s != [] && IsWhitespace(s[|s| - 1]) then
      var r := TrimEnd(s[..|s| - 1]);
      assert s[|r|..] == s[..|s| - 1][|r|..] + [s[|s| - 1]];
      r
    else s
  }

  /** `String.prototype.trim`. */
  function Trim(s: string): (r: string)
    ensures r == [] || (!IsWhitespace(r[0]) && !IsWhitespace(r[|r| - 1]))
    ensures r == [] <==> AllWhitespace(s)
  {
    var t := TrimStart(s);
    var r := TrimEnd(t);
    assert r == [] ==> AllWhitespace(s) by {
      if r == [] {
        assert t[|r|..] == t;
        assert t == [];
        forall i | 0 <= i < |s| ensures IsWhitespace(s[i]) {
          assert s[i] == s[..|s| - |t|][i];
        }
      }
    }
    assert AllWhitespace(s) ==> t == [];
    r
  }

  /** A trimmed string is left alone by a second trim. */
  lemma TrimIdempotent(s: string)
    ensures Trim(Trim(s)) == Trim(s)
  {
    var r := Trim(s);
    if r != [] {
      assert TrimStart(r) == r;
      assert TrimEnd(r) == r;
    }
  }

  /** `s.startsWith(prefix)`. */
  predicate StartsWith(s: string, prefix: string) {
    |prefix| <= |s| && s[..|prefix|] == prefix
  }

  predicate OccursAt(s: string, pattern: string, i: int) {
    0 <= i && i + |pattern| <= |s| && s[i..i + |pattern|] == pattern
  }

  function ContainsFrom(s: string, pattern: string, i: nat): (r: bool)
    ensures r <==> exists j :: i <= j && OccursAt(s, pattern, j)
    decreases |s| - i
  {
    if i + |pattern| > |s| then false
    else if s[i..i + |pattern|] == pattern then assert OccursAt(s, pattern, i); true
    else ContainsFrom(s, pattern, i + 1)
  }

  /** `pattern` occurs somewhere in `s` (the test of an unanchored regular expression literal). */
  function Contains(s: string, pattern: string): (r: bool)
    ensures r <==> exists j :: OccursAt(s, pattern, j)
  {
    ContainsFrom(s, pattern, 0)
  }

  function LowerChar(c: char): (d: char)
    ensures 'A' <= c <= 'Z' ==> 'a' <= d <= 'z' && d as int == c as int + 32
    ensures !('A' <= c <= 'Z') ==> d == c
  {
    if 'A' <= c <= 'Z' then (c as int + 32) as char else c
  }

  /** `toLowerCase` on the ASCII letters; every other character is kept. */
  function ToLower(s: string): (r: string)
    ensures |r| == |s|
    ensures forall i :: 0 <= i < |s| ==> r[i] == LowerChar(s[i])
  {
    seq(|s|, i requires 0 <= i < |s| => LowerChar(s[i]))
  }

  predicate IsDigit(c: char) {
    '0' <= c <= '9'
  }

  predicate IsDigits(s: string) {
    |s| > 0 && forall i :: 0 <= i < |s| ==> IsDigit(s[i])
  }

  function DigitChar(d: nat): (c: char)
    requires d < 10
    ensures IsDigit(c)
  {
    (d + '0' as int) as char
  }

  function DigitValue(c: char): (d: nat)
    requires IsDigit(c)
    ensures d < 10 && DigitChar(d) == c
  {
    c as int - '0' as int
  }

  /** Decimal notation of a natural number, without leading zeros. */
  function NatToString(n: nat): (r: string)
    ensures IsDigits(r)
    decreases n
  {
    if n < 10 then [DigitChar(n)] else NatToString(n / 10) + [DigitChar(n % 10)]
  }

  function ParseNat(s: string): nat
    requires IsDigits(s)
    decreases |s|
  {
    if |s| == 1 then DigitValue(s[0])
    else 10 * ParseNat(s[..|s| - 1]) + DigitValue(s[|s| - 1])
  }

  lemma {:induction false} NatRoundTrip(n: nat)
    ensures ParseNat(NatToString(n)) == n
    decreases n
  {
    if n >= 10 {
      var s := NatToString(n);
      assert s[..|s| - 1] == NatToString(n / 10);
      NatRoundTrip(n / 10);
    }
  }

  /** `${i}` for an integer: decimal notation, with a minus sign when negative. */
  function IntToString(i: int): (r: string)
    ensures |r| > 0
    ensures forall k :: 0 <= k < |r| ==> r[k] == '-' || IsDigit(r[k])
  {
    if i < 0 then "-" + NatToString(-i) else NatToString(i)
  }

  /**
   * `Number(s)` restricted to decimal integers with an optional minus sign;
   * `None` stands for every other string (JavaScript would give NaN or another number).
   */
  function ParseInt(s: string): Option<int> {
    if |s| > 0 && s[0] == '-' then
      if IsDigits(s[1..]) then var n: int := ParseNat(s[1..]); Some(-n) else None
    else if IsDigits(s) then Some(ParseNat(s))
    else None
  }

  lemma IntRoundTrip(i: int)
    ensures ParseInt(IntToString(i)) == Some(i)
  {
    if i < 0 {
      assert IntToString(i)[1..] == NatToString(-i);
      NatRoundTrip(-i);
    } else {
      NatRoundTrip(i);
    }
  }

  /** `${Date.now()}-${suffix}`: a clock reading in decimal, a dash, then the suffix. */
  function Stamp(now: nat, suffix: string): string {
    NatToString(now) + "-" + suffix
  }

  /** A stamp determines the clock reading and the suffix it was made from. */
  lemma StampInjective(n1: nat, s1: string, n2: nat, s2: string)
    requires Stamp(n1, s1) == Stamp(n2, s2)
    ensures n1 == n2 && s1 == s2
  {
    var x := Stamp(n1, s1);
    var a, b := NatToString(n1), NatToString(n2);
    assert forall i :: 0 <= i < |a| ==> x[i] == a[i];
    assert forall i :: 0 <= i < |b| ==> x[i] == b[i];
    assert x[|a|] == '-' && x[|b|] == '-';
    assert |a| == |b|;
    assert a == x[..|a|] && b == x[..|b|];
    NatRoundTrip(n1);
    NatRoundTrip(n2);
    assert s1 == x[|a| + 1..] && s2 == x[|b| + 1..];
  }
  /** `s.split(sep)` for a one-character separator: the pieces between separators, in order. */
  function Split(s: string, sep: char): (r: seq<string>)
    ensures |r| >= 1
    decreases |s|
  {
    if s == [] then [""]
    else
      var rest := Split(s[1..], sep);
      if s[0] == sep then [""] + rest else [[s[0]] + rest[0]] + rest[1..]
  }

  /** A string without the separator is a single piece. */
  lemma {:induction false} SplitNone(s: string, sep: char)
    requires sep !in s
    ensures Split(s, sep) == [s]
    decreases |s|
  {
    if s != [] {
      SplitNone(s[1..], sep);
      assert [s[0]] + s[1..] == s;
    }
  }

  /** Two separator-free strings joined by the separator split back into the two. */
  lemma {:induction false} SplitJoin(a: string, b: string, sep: char)
    requires sep !in a && sep !in b
    ensures Split(a + [sep] + b, sep) == [a, b]
    decreases |a|
  {
    var s := a + [sep] + b;
    if a == [] {
      assert s[1..] == b;
      SplitNone(b, sep);
    } else {
      assert s[1..] == a[1..] + [sep] + b;
      SplitJoin(a[1..], b, sep);
      assert [a[0]] + a[1..] == a;
    }
  }
}
