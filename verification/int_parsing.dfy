/** The global `parseInt(x, 10)` of ECMA-262 (section 19.2.5 of the 2021
    edition): skip leading white space, take an optional sign, then the
    longest prefix of decimal digits. No digits gives NaN, here `None`. */
module IntParsing {
  import opened JsValues

  /** StrWhiteSpaceChar: the WhiteSpace code points (every Zs character among
      them) and the LineTerminator code points. */
  predicate IsStrWhiteSpace(c: char) {
    || c == '\t' || c == '\U{000B}' || c == '\U{000C}' || c == ' '
    || c == '\U{00A0}' || c == '\U{FEFF}' || c == '\U{1680}'
    || ('\U{2000}' <= c <= '\U{200A}') || c == '\U{202F}' || c == '\U{205F}'
    || c == '\U{3000}'
    || c == '\n' || c == '\r' || c == '\U{2028}' || c == '\U{2029}'
  }

  predicate IsDigit(c: char) {
    '0' <= c <= '9'
  }

  predicate AllDigits(s: string) {
    forall i | 0 <= i < |s| :: IsDigit(s[i])
  }

  function DigitValue(c: char): nat
    requires IsDigit(c)
  {
    (c as int) - ('0' as int)
  }

  function DigitChar(n: nat): char
    requires n < 10
  {
    ('0' as int + n) as char
  }

  /** The text with its leading white space removed. */
  function TrimStart(s: string): (t: string)
    ensures |t| <= |s| && t == s[|s| - |t|..]
    ensures forall i | 0 <= i < |s| - |t| :: IsStrWhiteSpace(s[i])
    ensures t == [] || !IsStrWhiteSpace(t[0])
  {
    if |s| > 0 && IsStrWhiteSpace(s[0]) then TrimStart(s[1..]) else s
  }

  /** Whether a leading '-' makes the number negative, and the text after an
      optional leading '+' or '-'. */
  function SplitSign(t: string): (bool, string) {
    if |t| > 0 && t[0] == '-' then (true, t[1..])
    else if |t| > 0 && t[0] == '+' then (false, t[1..])
    else (false, t)
  }

  /** The longest prefix of decimal digits. */
  function DigitPrefix(s: string): (d: string)
    ensures |d| <= |s| && d == s[..|d|]
    ensures AllDigits(d)
    ensures |d| == |s| || !IsDigit(s[|d|])
  {
    if |s| > 0 && IsDigit(s[0]) then [s[0]] + DigitPrefix(s[1..]) else []
  }

  /** The number a string of decimal digits denotes, most significant first. */
  function DigitsValue(d: string): nat
    requires AllDigits(d)
  {
    if |d| == 0 then 0 else 10 * DigitsValue(d[..|d| - 1]) + DigitValue(d[|d| - 1])
  }

  /** The number after the sign: NaN when no digit follows. */
  function ParseDigits(negative: bool, u: string): Option<int> {
    var d := DigitPrefix(u);
    if d == [] then None
    else
      var v: int := DigitsValue(d);
      Some(if negative then -v else v)
  }

  /** `parseInt(s, 10)`: NaN exactly when no digit follows the white space and
      the optional sign; otherwise the value of the digit run, negative only
      after a '-'. */
  function ParseInt(s: string): (r: Option<int>)
    ensures r.None? <==> (var u := SplitSign(TrimStart(s)).1; u == [] || !IsDigit(u[0]))
    ensures r.Some? ==> r.value == 0 || (r.value < 0 <==> SplitSign(TrimStart(s)).0)
    ensures r.Some? ==> var u := SplitSign(TrimStart(s)).1;
      (if r.value < 0 then -r.value else r.value) == DigitsValue(DigitPrefix(u))
  {
    var (negative, u) := SplitSign(TrimStart(s));
    ParseDigits(negative, u)
  }

  /** `parseInt(p, 10)` of a parameter that may be absent. */
  function ParseIntParam(p: Option<string>): Option<int> {
    ParseInt(ToJsString(p))
  }

  /** The canonical decimal text of a natural number (no leading zeros). */
  function NatToDecimal(n: nat): (s: string)
    ensures |s| >= 1 && AllDigits(s)
  {
    if n < 10 then [DigitChar(n)] else NatToDecimal(n / 10) + [DigitChar(n % 10)]
  }

  /** The decimal text of an integer, with a leading '-' when negative. */
  function IntToDecimal(n: int): string {
    if n < 0 then "-" + NatToDecimal(-n) else NatToDecimal(n)
  }

  /** The longest digit prefix is fixed by where the digits stop. */
  lemma DigitPrefixOf(d: string, rest: string)
    requires AllDigits(d)
    requires rest == [] || !IsDigit(rest[0])
    ensures DigitPrefix(d + rest) == d
  {
    assert (d + rest)[..|d|] == d;
  }

  lemma TrimStartStops(s: string)
    requires s == [] || !IsStrWhiteSpace(s[0])
    ensures TrimStart(s) == s
  {
  }

  lemma {:induction false} DigitsValueOfDecimal(n: nat)
    ensures DigitsValue(NatToDecimal(n)) == n
  {
    if n >= 10 {
      var s := NatToDecimal(n);
      assert s[..|s| - 1] == NatToDecimal(n / 10);
      DigitsValueOfDecimal(n / 10);
    }
  }

  /** parseInt reads back the decimal text of every integer, whatever
      non-digit text follows it. */
  lemma {:induction false} ParseIntRoundTrip(n: int, rest: string)
    requires rest == [] || !IsDigit(rest[0])
    ensures ParseInt(IntToDecimal(n) + rest) == Some(n)
  {
    var m: nat := if n < 0 then -n else n;
    var d := NatToDecimal(m);
    DigitsValueOfDecimal(m);
    DigitPrefixOf(d, rest);
    assert ParseDigits(n < 0, d + rest) == Some(n);
    if n < 0 {
      assert IntToDecimal(n) + rest == "-" + (d + rest);
      ParseIntNegative(d + rest);
    } else {
      assert IntToDecimal(n) + rest == d + rest;
      ParseIntUnsigned(d + rest);
    }
  }

  lemma ParseIntNegative(u: string)
    ensures ParseInt("-" + u) == ParseDigits(true, u)
  {
  }

  lemma ParseIntUnsigned(u: string)
    requires u != [] && IsDigit(u[0])
    ensures ParseInt(u) == ParseDigits(false, u)
  {
  }

  /** Leading white space never changes the result. */
  lemma {:induction false} ParseIntSkipsWhiteSpace(w: string, s: string)
    requires forall i | 0 <= i < |w| :: IsStrWhiteSpace(w[i])
    ensures ParseInt(w + s) == ParseInt(s)
  {
    TrimStartSkips(w, s);
  }

  lemma {:induction false} TrimStartSkips(w: string, s: string)
    requires forall i | 0 <= i < |w| :: IsStrWhiteSpace(w[i])
    ensures TrimStart(w + s) == TrimStart(s)
  {
    if |w| > 0 {
      assert (w + s)[0] == w[0];
      assert (w + s)[1..] == w[1..] + s;
      TrimStartSkips(w[1..], s);
    } else {
      assert w + s == s;
    }
  }

  /** An absent parameter is read as the text "undefined", which is NaN. */
  lemma AbsentParamIsNaN()
    ensures ParseIntParam(None) == None
  {
    var s := "undefined";
    assert s[0] == 'u';
    TrimStartStops(s);
    assert SplitSign(TrimStart(s)).1 == s;
  }

  /** A left-to-right scan, as an engine performs it; it agrees with the
      declarative definition above on every input. */
  method ParseIntScan(s: string) returns (r: Option<int>)
    ensures r == ParseInt(s)
  {
    var i := SkipWhiteSpace(s);
    var negative := false;
    if i < |s| && (s[i] == '-' || s[i] == '+') {
      negative := s[i] == '-';
      assert s[i..][1..] == s[i + 1..];
      i := i + 1;
    }
    assert SplitSign(TrimStart(s)) == (negative, s[i..]);
    var end, value := ScanDigits(s, i);
    if end == i {
      r := None;
    } else if negative {
      r := Some(-(value as int));
    } else {
      r := Some(value);
    }
  }

  /** The index of the first character that is not white space. */
  method SkipWhiteSpace(s: string) returns (i: nat)
    ensures i <= |s| && s[i..] == TrimStart(s)
  {
    i := 0;
    while i < |s| && IsStrWhiteSpace(s[i])
      invariant i <= |s|
      invariant TrimStart(s[i..]) == TrimStart(s)
    {
      assert s[i..][1..] == s[i + 1..];
      i := i + 1;
    }
    TrimStartStops(s[i..]);
  }

  /** The end of the run of digits starting at `start`, and its value. */
  method ScanDigits(s: string, start: nat) returns (end: nat, value: nat)
    requires start <= |s|
    ensures start <= end <= |s|
    ensures s[start..end] == DigitPrefix(s[start..])
    ensures value == DigitsValue(s[start..end])
  {
    end := start;
    value := 0;
    while end < |s| && IsDigit(s[end])
      invariant start <= end <= |s|
      invariant AllDigits(s[start..end])
      invariant value == DigitsValue(s[start..end])
    {
      assert s[start..end + 1][..end - start] == s[start..end];
      value := 10 * value + DigitValue(s[end]);
      end := end + 1;
    }
    assert s[start..] == s[start..end] + s[end..];
    DigitPrefixOf(s[start..end], s[end..]);
  }
}
