/**
 * Strings as JavaScript's `String.prototype.trim` sees them: the whitespace
 * and line-terminator characters it strips, and the trim itself, with the
 * properties the portfolio script relies on (a string "has content" exactly
 * when its trim is non-empty; trimming is idempotent).
 */
module JsStrings {

  /** WhiteSpace or LineTerminator in the ECMAScript sense: TAB, VT, FF,
      ZWNBSP, every space separator (Zs), LF, CR, LS and PS. */
  predicate IsWhitespace(c: char) {
    || c == '\U{9}' || c == '\U{B}' || c == '\U{C}' || c == '\U{FEFF}'
    || c == ' ' || c == '\U{A0}' || c == '\U{1680}'
    || ('\U{2000}' <= c <= '\U{200A}') || c == '\U{202F}' || c == '\U{205F}' || c == '\U{3000}'
    || c == '\U{A}' || c == '\U{D}' || c == '\U{2028}' || c == '\U{2029}'
  }

  predicate AllWhitespace(s: string) {
    forall k :: 0 <= k < |s| ==> IsWhitespace(s[k])
  }

  /** A string with neither leading nor trailing whitespace. */
  predicate IsTrimmed(t: string) {
    t == [] || (!IsWhitespace(t[0]) && !IsWhitespace(t[|t| - 1]))
  }

  /** The first index at or after `i` that does not hold whitespace
      (`|s|` when there is none). */
  function SkipStart(s: string, i: nat): (r: nat)
    requires i <= |s|
    ensures i <= r <= |s|
    ensures r < |s| ==> !IsWhitespace(s[r])
    decreases |s| - i
  {
    if i < |s| && IsWhitespace(s[i]) then SkipStart(s, i + 1) else i
  }

  /** The end of `s[lo..j]` once its trailing whitespace is cut. */
  function SkipEnd(s: string, lo: nat, j: nat): (r: nat)
    requires lo <= j <= |s|
    ensures lo <= r <= j
    ensures lo < r ==> !IsWhitespace(s[r - 1])
    decreases j
  {
    if lo < j && IsWhitespace(s[j - 1]) then SkipEnd(s, lo, j - 1) else j
  }

  /** `s.trim()`: leading whitespace skipped, then trailing whitespace cut. */
  function Trim(s: string): (r: string)
    ensures IsTrimmed(r)
  {
    var i := SkipStart(s, 0);
    s[i..SkipEnd(s, i, |s|)]
  }

  lemma {:induction false} SkipStartSkipsWhitespace(s: string, i: nat)
    requires i <= |s|
    ensures forall k :: i <= k < SkipStart(s, i) ==> IsWhitespace(s[k])
    decreases |s| - i
  {
    if i < |s| && IsWhitespace(s[i]) {
      SkipStartSkipsWhitespace(s, i + 1);
    }
  }

  lemma {:induction false} SkipEndSkipsWhitespace(s: string, lo: nat, j: nat)
    requires lo <= j <= |s|
    ensures forall k :: SkipEnd(s, lo, j) <= k < j ==> IsWhitespace(s[k])
    decreases j
  {
    if lo < j && IsWhitespace(s[j - 1]) {
      SkipEndSkipsWhitespace(s, lo, j - 1);
    }
  }

  /** Trim(s) is the infix s[i..j] left after cutting whitespace-only ends. */
  lemma TrimInfix(s: string) returns (i: nat, j: nat)
    ensures i <= j <= |s| && Trim(s) == s[i..j]
    ensures forall k :: 0 <= k < i ==> IsWhitespace(s[k])
    ensures forall k :: j <= k < |s| ==> IsWhitespace(s[k])
    ensures i < |s| ==> !IsWhitespace(s[i])
    ensures i < j ==> !IsWhitespace(s[j - 1])
  {
    i := SkipStart(s, 0);
    j := SkipEnd(s, i, |s|);
    SkipStartSkipsWhitespace(s, 0);
    SkipEndSkipsWhitespace(s, i, |s|);
  }

  /** The reference characterisation of trim: an infix that has only
      whitespace outside it and neither starts nor ends with whitespace IS
      the trim. */
  lemma TrimUnique(s: string, i: nat, j: nat)
    requires i <= j <= |s|
    requires forall k :: 0 <= k < i ==> IsWhitespace(s[k])
    requires forall k :: j <= k < |s| ==> IsWhitespace(s[k])
    requires IsTrimmed(s[i..j])
    ensures Trim(s) == s[i..j]
  {
    var i', j' := TrimInfix(s);
    if i < j {
      assert !IsWhitespace(s[i]) && !IsWhitespace(s[j - 1]) by {
        assert s[i..j][0] == s[i] && s[i..j][j - i - 1] == s[j - 1];
      }
      assert i' == i;
      assert j' == j;
    } else {
      assert i' == |s|;
    }
  }

  /** An already trimmed string is its own trim. */
  lemma TrimOfTrimmed(s: string)
    ensures IsTrimmed(s) ==> Trim(s) == s
  {
    if IsTrimmed(s) {
      assert s[0..|s|] == s;
      TrimUnique(s, 0, |s|);
    }
  }

  /** A string has content (its trim is truthy) exactly when some character
      of it is not whitespace. */
  lemma TrimEmptyIff(s: string)
    ensures Trim(s) == [] <==> AllWhitespace(s)
  {
    var i, j := TrimInfix(s);
  }

  /** Trimming twice is trimming once. */
  lemma TrimIdempotent(s: string)
    ensures Trim(Trim(s)) == Trim(s)
  {
    TrimOfTrimmed(Trim(s));
  }
}
