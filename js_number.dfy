/** JavaScript number conversions on integers: `Number(s)` for integer
    decimal strings, `String(n)`, and `Math.round` of an integer quotient. */
module JsNumber {
  import opened Wrappers
  import opened JsText

  predicate IsDigit(c: char) { '0' <= c <= '9' }

  predicate AllDigits(s: string) {
    forall i :: 0 <= i < |s| ==> IsDigit(s[i])
  }

  function DigitValue(c: char): (d: nat)
    requires IsDigit(c)
    ensures d < 10
  {
    c as int - '0' as int
  }

  function DigitChar(d: nat): (c: char)
    requires d < 10
    ensures IsDigit(c) && DigitValue(c) == d
  {
    ('0' as int + d) as char
  }

  /** The value of a run of decimal digits, most significant first. */
  function DigitsValue(s: string): nat
    requires AllDigits(s)
  {
    if s == [] then 0 else DigitsValue(s[..|s| - 1]) * 10 + DigitValue(s[|s| - 1])
  }

  /** `Number(s)` for the strings the dashboards pass around: surrounding `\s`
      is ignored, one character at a time from the front and then from the
      back, and the rest is read by `ParseTrimmed`. The result is that of
      the trimmed string: whitespace around a number does not change it. */
  function ParseNumber(s: string): (v: Option<int>)
    ensures v == ParseTrimmed(Trim(s))
  {
    if s != [] && IsSpace(s[0]) then
      TrimDropsFirst(s);
      ParseNumber(s[1..])
    else if s != [] && IsSpace(s[|s| - 1]) then
      TrimDropsLast(s);
      ParseNumber(s[..|s| - 1])
    else
      TrimFixpoint(s);
      ParseTrimmed(s)
  }

  lemma TrimDropsFirst(s: string)
    requires s != [] && IsSpace(s[0])
    ensures Trim(s) == Trim(s[1..])
  {
    assert TrimStart(s) == TrimStart(s[1..]);
  }

  lemma TrimDropsLast(s: string)
    requires s != [] && !IsSpace(s[0]) && IsSpace(s[|s| - 1])
    ensures Trim(s) == Trim(s[..|s| - 1])
  {
    var p := s[..|s| - 1];
    assert TrimStart(s) == s;
    assert TrimStart(p) == p;
    assert TrimEnd(s) == TrimEnd(p);
  }

  /** `Number` of a string without surrounding `\s`: the empty string is 0,
      an optional sign followed by decimal digits is that integer; anything
      else is NaN (`None`). */
  function ParseTrimmed(t: string): (v: Option<int>)
    ensures t == [] ==> v == Some(0)
    ensures t != [] && t[0] != '-' && t[0] != '+' && !AllDigits(t) ==> v.None?
  {
    if t == [] then Some(0)
    else if (t[0] == '-' || t[0] == '+') && |t| > 1 && AllDigits(t[1..]) then
      var v: int := DigitsValue(t[1..]);
      Some(if t[0] == '-' then -v else v)
    else if AllDigits(t) then Some(DigitsValue(t))
    else None
  }

  /** `String(n)` for a natural number: its shortest decimal digits. */
  function NatToString(n: nat): (s: string)
    ensures |s| >= 1 && AllDigits(s)
    ensures DigitsValue(s) == n
  {
    if n < 10 then [DigitChar(n)]
    else
      var p := NatToString(n / 10);
      var s := p + [DigitChar(n % 10)];
      assert s[..|s| - 1] == p;
      s
  }

  /** `String(n)` for an integer. */
  function IntToString(n: int): (s: string)
    ensures |s| >= 1
    ensures n >= 0 ==> AllDigits(s)
  {
    if n < 0 then "-" + NatToString(-n) else NatToString(n)
  }

  /** `Number(String(n)) === n` for every integer. */
  lemma {:induction false} ParseIntToString(n: int)
    ensures ParseNumber(IntToString(n)) == Some(n)
  {
    var s := IntToString(n);
    var d := NatToString(if n < 0 then -n else n);
    assert s[|s| - 1] == d[|d| - 1];
    assert !IsSpace(s[0]) && !IsSpace(s[|s| - 1]);
    if n < 0 {
      assert s[1..] == d;
    }
  }

  /** `Math.round(x / d)` for an integer `x` and a positive integer `d`:
      the nearest integer, halves rounded up. */
  function RoundDiv(x: int, d: int): (r: int)
    requires d > 0
    ensures 2 * d * r - d <= 2 * x < 2 * d * r + d
  {
    (2 * x + d) / (2 * d)
  }
}
