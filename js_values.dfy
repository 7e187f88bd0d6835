/**
 * The JavaScript values the portfolio script reads out of GitHub's JSON
 * responses, and the three coercions it applies to them: truthiness (`!x`,
 * `x && y`), nullish coalescing (`x ?? d`), `Number(x) || 0`, and the
 * string conversion a template literal (`${x}`) performs.
 */
module JsValues {
  import opened JsStrings

  datatype Option<T> = None | Some(value: T)

  /** A JSON-derived value. Numbers are unbounded integers here: the fields
      the script reads numerically (star counts, repository counts) are
      integers far below 2^53, where doubles are exact. */
  datatype JsValue = Undefined | Null | Bool(b: bool) | Num(n: int) | Str(s: string)

  /** The five falsy values a JSON-derived value can be (NaN is not modelled). */
  const FalsyValues: set<JsValue> := {Undefined, Null, Bool(false), Num(0), Str("")}

  /** JavaScript truthiness. */
  predicate Truthy(v: JsValue): (t: bool)
    ensures t <==> v !in FalsyValues
  {
    match v
    case Undefined => false
    case Null => false
    case Bool(b) => b
    case Num(n) => n != 0
    case Str(s) => s != ""
  }

  /** `v ?? d`: `d` exactly when `v` is `null` or `undefined`. */
  function Coalesce(v: JsValue, d: JsValue): (r: JsValue)
    ensures r == d <==> (v == Undefined || v == Null || v == d)
    ensures r != d ==> r == v
  {
    if v.Undefined? || v.Null? then d else v
  }

  // ---------------------------------------------------------------------
  // Decimal digits
  // ---------------------------------------------------------------------

  predicate IsDigit(c: char) { '0' <= c <= '9' }

  predicate AllDigits(s: string) {
    forall k :: 0 <= k < |s| ==> IsDigit(s[k])
  }

  /** The value of a string of decimal digits, read most significant first. */
  function DigitsValue(s: string): (n: nat)
    requires AllDigits(s)
  {
    if s == [] then 0 else DigitsValue(s[..|s| - 1]) * 10 + (s[|s| - 1] as int - '0' as int)
  }

  function DigitChar(d: nat): (c: char)
    requires d < 10
    ensures IsDigit(c) && c as int - '0' as int == d
  {
    ('0' as int + d) as char
  }

  /** The shortest decimal spelling of a natural number. */
  function NatDigits(n: nat): (s: string)
    ensures s != [] && AllDigits(s)
    ensures |s| > 1 ==> s[0] != '0'
  {
    if n < 10 then [DigitChar(n)] else NatDigits(n / 10) + [DigitChar(n % 10)]
  }

  /** How JavaScript spells an integer below 10^21 in magnitude: an optional
      minus sign and its digits (larger magnitudes, which it writes in
      exponent form, are not modelled). */
  function DecimalString(n: int): (s: string)
    ensures s != [] && !IsWhitespace(s[0]) && !IsWhitespace(s[|s| - 1])
  {
    if n < 0 then "-" + NatDigits(-n) else NatDigits(n)
  }

  // ---------------------------------------------------------------------
  // Coercions
  // ---------------------------------------------------------------------

  /** `Number(s)` on a string, restricted to the integral decimal syntax:
      the JavaScript-trimmed text is empty (0), or an optional sign followed
      by at least one decimal digit. Anything else is NaN (None). */
  function StringToNumber(s: string): (r: Option<int>)
    ensures AllWhitespace(s) ==> r == Some(0)
  {
    var t := Trim(s);
    TrimEmptyIff(s);
    if t == [] then Some(0)
    else if t[0] == '-' || t[0] == '+' then
      var digits := t[1..];
      if digits != [] && AllDigits(digits) then
        var k: int := DigitsValue(digits);
        Some(if t[0] == '-' then -k else k)
      else None
    else if AllDigits(t) then Some(DigitsValue(t))
    else None
  }

  /** `Number(v)`, with None standing for NaN: only `undefined` and
      unreadable strings are NaN; `null`, `false` and blank strings are 0. */
  function ToNumber(v: JsValue): (r: Option<int>)
    ensures r.None? <==> v == Undefined || (v.Str? && StringToNumber(v.s).None?)
    ensures v == Null || v == Bool(false) || (v.Str? && AllWhitespace(v.s)) ==> r == Some(0)
    ensures v.Num? ==> r == Some(v.n)
  {
    match v
    case Undefined => None
    case Null => Some(0)
    case Bool(b) => Some(if b then 1 else 0)
    case Num(n) => Some(n)
    case Str(s) => StringToNumber(s)
  }

  /** `Number(v) || 0`: NaN (and 0) become 0, every other number stays. */
  function NumberOrZero(v: JsValue): (n: int)
    ensures ToNumber(v).None? ==> n == 0
    ensures ToNumber(v).Some? ==> n == ToNumber(v).value
    ensures v in {Undefined, Null, Bool(false)} ==> n == 0
    ensures v == Bool(true) ==> n == 1
    ensures v.Num? ==> n == v.n
    ensures v.Str? && (AllWhitespace(v.s) || StringToNumber(v.s).None?) ==> n == 0
    ensures v.Str? && StringToNumber(v.s).Some? ==> n == StringToNumber(v.s).value
  {
    match ToNumber(v)
    case None => 0
    case Some(k) => k
  }

  /** The string a template literal `${v}` produces: a string is shown as
      is, and a number is shown so that `Number` reads it back. */
  function ToDisplayString(v: JsValue): (s: string)
    ensures v.Str? ==> s == v.s
    ensures v.Num? ==> StringToNumber(s) == Some(v.n)
    ensures v == Undefined ==> s == "undefined"
    ensures v == Null ==> s == "null"
  {
    match v
    case Undefined => "undefined"
    case Null => "null"
    case Bool(b) => if b then "true" else "false"
    case Num(n) => DecimalRoundTrip(n); DecimalString(n)
    case Str(s) => s
  }

  // ---------------------------------------------------------------------
  // Round trip between the two conversions
  // ---------------------------------------------------------------------

  lemma {:induction false} NatDigitsValue(n: nat)
    ensures DigitsValue(NatDigits(n)) == n
  {
    if n >= 10 {
      var s := NatDigits(n);
      assert s[..|s| - 1] == NatDigits(n / 10);
      NatDigitsValue(n / 10);
    }
  }

  /** A string of digits reads as its decimal value. */
  lemma DigitsNumber(d: string)
    requires d != [] && AllDigits(d)
    ensures StringToNumber(d) == Some(DigitsValue(d))
  {
    assert IsDigit(d[0]) && IsDigit(d[|d| - 1]);
    TrimOfTrimmed(d);
  }

  /** A minus sign followed by digits reads as the negated decimal value. */
  lemma NegatedDigitsNumber(d: string)
    requires d != [] && AllDigits(d)
    ensures StringToNumber("-" + d) == Some(-(DigitsValue(d) as int))
  {
    var s := "-" + d;
    assert s[0] == '-' && s[1..] == d && s[|s| - 1] == d[|d| - 1];
    assert IsDigit(d[|d| - 1]);
    TrimOfTrimmed(s);
  }

  /** Reading back the decimal spelling of an integer gives the integer:
      `Number(String(n)) === n`. */
  lemma DecimalRoundTrip(n: int)
    ensures StringToNumber(DecimalString(n)) == Some(n)
  {
    if n < 0 {
      NatDigitsValue(-n);
      NegatedDigitsNumber(NatDigits(-n));
    } else {
      NatDigitsValue(n);
      DigitsNumber(NatDigits(n));
    }
  }

  /** Where the card shows a star count and the total adds one up, they agree
      for every number: the total's `Number(x) || 0` of the value equals
      `Number` applied to the card's text `${x}`. */
  lemma NumberOfDisplayedNumber(n: int)
    ensures NumberOrZero(Str(ToDisplayString(Num(n)))) == NumberOrZero(Num(n))
  {
    DecimalRoundTrip(n);
  }
}
