/** The global `parseFloat` of ECMA-262 (section 19.2.4 of the 2021 edition),
    reduced to the one thing the handlers ask of its result: whether it is a
    number or NaN. The binary64 value itself is left abstract. */
module FloatParsing {
  import opened JsValues
  import opened IntParsing

  predicate StartsWith(s: string, prefix: string) {
    |prefix| <= |s| && s[..|prefix|] == prefix
  }

  /** Whether some prefix of the text after leading white space is a
      StrDecimalLiteral: an optional sign, then "Infinity", a digit, or a '.'
      followed by a digit. When none is, `parseFloat` returns NaN. */
  predicate FloatParses(s: string): (b: bool)
    ensures b ==> SplitSign(TrimStart(s)).1 != []
    ensures ParseInt(s).Some? ==> b
  {
    var u := SplitSign(TrimStart(s)).1;
    || StartsWith(u, "Infinity")
    || (|u| > 0 && IsDigit(u[0]))
    || (|u| > 1 && u[0] == '.' && IsDigit(u[1]))
  }

  /** The binary64 number `parseFloat(text)` yields; only whether it is NaN
      is modelled. Two texts for the same number are different values here. */
  datatype Float = FloatOf(text: string)

  predicate IsNaN(f: Float) {
    !FloatParses(f.text)
  }

  /** `parseFloat(p)` of a parameter that may be absent. */
  function FloatOfParam(p: Option<string>): Float {
    FloatOf(ToJsString(p))
  }

  /** Every text `parseInt` reads as a number `parseFloat` reads as one too. */
  lemma IntegerTextIsNumber(s: string)
    requires ParseInt(s).Some?
    ensures !IsNaN(FloatOf(s))
  {
  }

  /** An absent parameter reads as the text "undefined", which is NaN. */
  lemma AbsentParamIsNaN()
    ensures IsNaN(FloatOfParam(None))
  {
  }
}
