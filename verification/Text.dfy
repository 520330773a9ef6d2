/** Decimal text, as the fmt and strconv packages of Go write and read it, and joined text. */
module Text {
  import opened Options

  const INT32_MAX := 0x7fff_ffff

  predicate IsDigit(c: char) {
    '0' <= c <= '9'
  }

  function Digit(n: nat): (c: char)
    requires n < 10
    ensures IsDigit(c) && DigitValue(c) == n
  {
    '0' + n as char
  }

  function DigitValue(c: char): nat
    requires IsDigit(c)
  {
    c as int - '0' as int
  }

  predicate AllDigits(s: string) {
    forall i :: 0 <= i < |s| ==> IsDigit(s[i])
  }

  /** The "%d" verb on a non-negative number. */
  function Decimal(n: nat): (s: string)
    ensures |s| > 0 && AllDigits(s)
  {
    if n < 10 then [Digit(n)] else Decimal(n / 10) + [Digit(n % 10)]
  }

  function DigitsValue(s: string): nat
    requires AllDigits(s)
  {
    if s == [] then 0 else 10 * DigitsValue(s[..|s| - 1]) + DigitValue(s[|s| - 1])
  }

  lemma {:induction false} DecimalRoundTrip(n: nat)
    ensures DigitsValue(Decimal(n)) == n
  {
    if n >= 10 {
      DecimalRoundTrip(n / 10);
      var s := Decimal(n);
      assert s[..|s| - 1] == Decimal(n / 10);
    }
  }

  lemma DecimalInjective(m: nat, n: nat)
    requires Decimal(m) == Decimal(n)
    ensures m == n
  {
    DecimalRoundTrip(m);
    DecimalRoundTrip(n);
  }

  /** isspace in the C locale. */
  predicate IsBlank(c: char) {
    c == ' ' || '\t' <= c <= '\r'
  }

  function TrimLeft(s: string): string {
    if s != "" && IsBlank(s[0]) then TrimLeft(s[1..]) else s
  }

  function TrimRight(s: string): string {
    if s != "" && IsBlank(s[|s| - 1]) then TrimRight(s[..|s| - 1]) else s
  }

  /** PostgreSQL's input of an integer, to which a string parameter is sent as text: an optional
      sign, then digits, within 32 bits, with white space around. */
  function ParseInt32(text: string): (r: Option<int>)
    ensures r.Some? ==> -INT32_MAX - 1 <= r.value <= INT32_MAX
  {
    var s := TrimRight(TrimLeft(text));
    var signed := s != [] && (s[0] == '-' || s[0] == '+');
    var digits := if signed then s[1..] else s;
    if digits == [] || !AllDigits(digits) then None
    else
      var n := if signed && s[0] == '-' then 0 - DigitsValue(digits) else DigitsValue(digits);
      if -INT32_MAX - 1 <= n <= INT32_MAX then Some(n) else None
  }

  lemma ParseInt32OfDecimal(n: nat)
    ensures ParseInt32(Decimal(n)) == if n <= INT32_MAX then Some(n) else None
  {
    DecimalRoundTrip(n);
    var s := Decimal(n);
    assert IsDigit(s[0]) && IsDigit(s[|s| - 1]);
    assert TrimRight(TrimLeft(s)) == s;
  }

  predicate Blank(s: string) {
    forall i :: 0 <= i < |s| ==> s[i] in [' ', '\t', '\n', '\U{0B}', '\U{0C}', '\r']
  }

  lemma {:induction false} TrimmedLeft(l: string, s: string)
    requires Blank(l) && s != "" && !IsBlank(s[0])
    ensures TrimLeft(l + s) == s
  {
    if l == "" {
      assert l + s == s;
    } else {
      assert (l + s)[1..] == l[1..] + s;
      TrimmedLeft(l[1..], s);
    }
  }

  lemma {:induction false} TrimmedRight(s: string, r: string)
    requires Blank(r) && s != "" && !IsBlank(s[|s| - 1])
    ensures TrimRight(s + r) == s
  {
    if r == "" {
      assert s + r == s;
    } else {
      var n := |r| - 1;
      assert (s + r)[..|s| + n] == s + r[..n];
      TrimmedRight(s, r[..n]);
    }
  }

  lemma Trimmed(left: string, s: string, right: string)
    requires Blank(left) && Blank(right) && s != "" && !IsBlank(s[0]) && !IsBlank(s[|s| - 1])
    ensures TrimRight(TrimLeft(left + s + right)) == s
  {
    hide Blank, IsBlank;
    assert left + s + right == left + (s + right) && (s + right)[0] == s[0];
    TrimmedLeft(left, s + right);
    TrimmedRight(s, right);
  }

  lemma SignedEnds(sign: string, n: nat)
    requires sign in ["", "-", "+"]
    ensures var s := sign + Decimal(n);
      s != "" && !IsBlank(s[0]) && !IsBlank(s[|s| - 1]) && s[|sign|..] == Decimal(n) && (sign == "" ==> IsDigit(s[0]))
  {
    var d, s := Decimal(n), sign + Decimal(n);
    assert IsDigit(d[0]) && IsDigit(d[|d| - 1]) && s[|s| - 1] == d[|d| - 1];
  }

  /** White space, a sign, digits and white space are read as the number, if it fits 32 bits. */
  lemma ParseInt32OfSigned(left: string, sign: string, n: nat, right: string)
    requires Blank(left) && Blank(right) && sign in ["", "-", "+"]
    ensures var v := if sign == "-" then 0 - n else n;
      ParseInt32(left + (sign + Decimal(n)) + right) == if -2147483648 <= v <= 2147483647 then Some(v) else None
  {
    DecimalRoundTrip(n);
    SignedEnds(sign, n);
    Trimmed(left, sign + Decimal(n), right);
    hide Decimal, DigitsValue, TrimLeft, TrimRight, IsBlank, Blank;
  }

  /** A separator that does not occur in the first part splits a text in one way only. */
  lemma SplitUnique(x: string, y: string, x': string, y': string, sep: char)
    requires sep !in x && sep !in x'
    requires x + [sep] + y == x' + [sep] + y'
    ensures x == x' && y == y'
  {
    var s := x + [sep] + y;
    assert s[|x|] == sep && s[|x'|] == sep;
    assert x == s[..|x|] && x' == s[..|x'|];
    assert y == s[|x| + 1..] && y' == s[|x'| + 1..];
  }

  /** strings.Join with a one-character separator. */
  function Joined(parts: seq<string>, sep: char): string {
    if |parts| == 0 then ""
    else if |parts| == 1 then parts[0]
    else parts[0] + [sep] + Joined(parts[1..], sep)
  }

  /** Parts that do not hold the separator, except the last, can be told apart again. */
  lemma {:induction false} JoinedInjective(a: seq<string>, b: seq<string>, sep: char)
    requires |a| == |b| && Joined(a, sep) == Joined(b, sep)
    requires forall i :: 0 <= i < |a| - 1 ==> sep !in a[i] && sep !in b[i]
    ensures a == b
  {
    if |a| > 1 {
      SplitUnique(a[0], Joined(a[1..], sep), b[0], Joined(b[1..], sep), sep);
      JoinedInjective(a[1..], b[1..], sep);
      assert a == [a[0]] + a[1..] && b == [b[0]] + b[1..];
    }
  }
}
