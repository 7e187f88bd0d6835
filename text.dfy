/**
 * The two display helpers of the GitHub section: `safeText`, which guards
 * every text taken from a repository record, and the guard of `formatDate`.
 */
module Text {
  import opened JsStrings
  import opened JsValues

  const Dash := "—"

  /** True when `v` is a string with at least one non-whitespace character,
      i.e. when `typeof v === 'string' && v.trim()` is truthy. */
  predicate HasContent(v: JsValue) {
    v.Str? && exists k :: 0 <= k < |v.s| && !IsWhitespace(v.s[k])
  }

  /** `safeText(value, fallback)`: the trimmed string when the value is a
      string with content, the fallback untouched otherwise. */
  function SafeText(value: JsValue, fallback: string): (r: string)
    ensures HasContent(value) ==> r == Trim(value.s) && r != [] && IsTrimmed(r)
    ensures !HasContent(value) ==> r == fallback
  {
    if value.Str? then
      TrimEmptyIff(value.s);
      if Trim(value.s) != [] then Trim(value.s) else fallback
    else fallback
  }

  /** Feeding the result back with the same, already trimmed, fallback
      changes nothing. */
  lemma SafeTextIdempotent(value: JsValue, fallback: string)
    requires Trim(fallback) == fallback
    ensures SafeText(Str(SafeText(value, fallback)), fallback) == SafeText(value, fallback)
  {
    var r := SafeText(value, fallback);
    TrimEmptyIff(r);
    if HasContent(value) {
      TrimIdempotent(value.s);
    }
  }

  /** `new Date(iso)` followed by the `fr-FR` medium date style; None when
      the date's time value is NaN. Parsing and locale formatting are not
      modelled: the caller supplies them. */
  type DateFormat = JsValue -> Option<string>

  /** `formatDate(iso)`: a dash for a falsy argument or an invalid date,
      the formatter's text otherwise. */
  function FormatDate(iso: JsValue, format: DateFormat): (r: string)
    ensures iso in {Undefined, Null, Str(""), Num(0), Bool(false)} ==> r == Dash
    ensures Truthy(iso) && format(iso).None? ==> r == Dash
    ensures Truthy(iso) && format(iso).Some? ==> r == format(iso).value
  {
    if !Truthy(iso) then Dash
    else match format(iso)
      case None => Dash
      case Some(text) => text
  }
}
