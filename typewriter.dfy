/**
 * The typewriter effect: a timer-driven scanner that writes a text into an
 * element one character at a time, except that markup is written whole: a
 * `<` followed somewhere by a `>` is emitted as one tag. A `<` with no `>`
 * after it is never emitted, and the scanner stops making progress there.
 */
module Typewriter {

  /** `s.indexOf(c, from)`: the first index at or after `from` that holds
      `c`, or -1. */
  function IndexOf(s: string, c: char, from: nat): (r: int)
    requires from <= |s|
    ensures r == -1 || (from <= r < |s| && s[r] == c)
    ensures forall j :: from <= j < |s| && (r == -1 || j < r) ==> s[j] != c
    decreases |s| - from
  {
    if from == |s| then -1
    else if s[from] == c then from
    else IndexOf(s, c, from + 1)
  }

  /** Position `k` holds a `<` that no later `>` closes. */
  predicate Unclosed(text: string, k: nat) {
    k < |text| && text[k] == '<' && forall j :: k <= j < |text| ==> text[j] != '>'
  }

  predicate HasUnclosedTag(text: string) {
    exists k: nat :: k < |text| && Unclosed(text, k)
  }

  /** What one step writes: a single character other than `<`, or a whole tag
      that opens with `<` and ends at its first `>`. */
  predicate IsChunk(w: string) {
    || (|w| == 1 && w[0] != '<')
    || (2 <= |w| && w[0] == '<' && w[|w| - 1] == '>' && forall j :: 0 <= j < |w| - 1 ==> w[j] != '>')
  }

  function Concat(ws: seq<string>): string {
    if ws == [] then [] else Concat(ws[..|ws| - 1]) + ws[|ws| - 1]
  }

  /** The index after one call of `type()` at index `i` (still `i` when the
      call makes no progress). */
  function Next(text: string, i: nat): (n: nat)
    requires i < |text|
    ensures i <= n <= |text|
    ensures n == i <==> Unclosed(text, i)
    ensures i < n ==> IsChunk(text[i..n])
  {
    if text[i] == '<' then
      var tagEnd := IndexOf(text, '>', i);
      if tagEnd == -1 then i
      else
        var tag := text[i..tagEnd + 1];
        assert forall j :: 0 <= j < |tag| ==> tag[j] == text[i + j];
        tagEnd + 1
    else i + 1
  }

  /** No position a step passes over holds an unclosed `<`: the scanner can
      only stop at the first one. */
  lemma NextPassesNoUnclosed(text: string, i: nat)
    requires i < |text|
    ensures forall k: nat :: i <= k < Next(text, i) ==> !Unclosed(text, k)
  {
    if text[i] == '<' && i < Next(text, i) {
      var tagEnd := Next(text, i) - 1;
      assert text[tagEnd] == '>' by {
        assert text[i..Next(text, i)][tagEnd - i] == text[tagEnd];
      }
    }
  }

  /** The state of one running effect: the text, the index `i` of the
      closure, and the element's `innerHTML`. */
  class Typing {
    const text: string
    var i: nat
    var html: string
    /** Every piece appended to `innerHTML`, in order. */
    ghost var written: seq<string>

    ghost predicate Valid()
      reads this
    {
      && i <= |text|
      && html == text[..i]
      && Concat(written) == html
      && (forall c :: 0 <= c < |written| ==> IsChunk(written[c]))
      && (forall k: nat :: k < i ==> !Unclosed(text, k))
    }

    /** `let i = 0; element.innerHTML = '';` */
    constructor (text: string)
      ensures this.text == text && i == 0 && html == [] && written == []
      ensures Valid()
    {
      this.text := text;
      i := 0;
      html := [];
      written := [];
    }

    /** One call of `type()`. Returns whether it scheduled another call. */
    method Tick() returns (scheduled: bool)
      requires Valid()
      modifies this
      ensures Valid()
      ensures scheduled <==> old(i) < |text|
      ensures i == if old(i) < |text| then Next(text, old(i)) else old(i)
      ensures written == old(written) + if old(i) < i then [text[old(i)..i]] else []
    {
      if i < |text| {
        NextPassesNoUnclosed(text, i);
        if text[i] == '<' {
          var tagEnd := IndexOf(text, '>', i);
          if tagEnd != -1 {
            var tag := text[i..tagEnd + 1];
            assert text[..tagEnd + 1] == text[..i] + tag;
            html := html + tag;
            written := written + [tag];
            i := tagEnd + 1;
          }
        } else {
          assert text[..i + 1] == text[..i] + [text[i]];
          assert text[i..i + 1] == [text[i]];
          html := html + [text[i]];
          written := written + [[text[i]]];
          i := i + 1;
        }
        scheduled := true;
      } else {
        scheduled := false;
      }
    }

    /** The chain of timer callbacks, up to the first call that makes no
        progress: the end of the text, or an unclosed `<`. */
    method Run()
      requires Valid()
      modifies this
      ensures Valid()
      ensures i == |text| <==> !HasUnclosedTag(text)
      ensures i < |text| ==> Unclosed(text, i)
    {
      var progressing := true;
      while progressing
        invariant Valid()
        invariant !progressing ==> i == |text| || Unclosed(text, i)
        decreases |text| - i, progressing
      {
        var before := i;
        var scheduled := Tick();
        progressing := scheduled && before < i;
      }
      if i == |text| {
        assert forall k: nat :: !Unclosed(text, k);
      }
    }
  }

  /** `typeWriter(element, text)`: the final `innerHTML`, and whether the
      whole text was written. */
  method TypeWriter(text: string, prefersReduced: bool) returns (html: string, complete: bool)
    ensures prefersReduced ==> html == text && complete
    ensures !prefersReduced ==> (complete <==> !HasUnclosedTag(text))
    ensures complete ==> html == text
    ensures !complete ==> exists k: nat :: Unclosed(text, k) && html == text[..k]
                                         && forall j: nat :: j < k ==> !Unclosed(text, j)
  {
    if prefersReduced {
      return text, true;
    }
    var typing := new Typing(text);
    typing.Run();
    html := typing.html;
    complete := typing.i == |text|;
  }
}
