/** The placeholder tokenizer: split a line on whitespace and map every word
    to a numeric id with a string hash. The hash is a parameter of the model
    (it is Rust's DefaultHasher, whose algorithm is not modelled). */
module Tokenizer {

  /** Unicode White_Space, the set Rust's `char::is_whitespace` (and hence
      `str::split_whitespace`) separates words on. */
  predicate IsWhitespace(c: char) {
    ('\U{9}' <= c <= '\U{D}') || c == '\U{20}' || c == '\U{85}' || c == '\U{A0}'
    || c == '\U{1680}' || ('\U{2000}' <= c <= '\U{200A}') || c == '\U{2028}' || c == '\U{2029}'
    || c == '\U{202F}' || c == '\U{205F}' || c == '\U{3000}'
  }

  /** A word: a non-empty string without whitespace. */
  predicate IsWord(w: string) {
    |w| > 0 && forall i :: 0 <= i < |w| ==> !IsWhitespace(w[i])
  }

  /** Length of the maximal non-whitespace run at the front of `s`. */
  function RunLength(s: string): (k: nat)
    ensures k <= |s|
    ensures forall i :: 0 <= i < k ==> !IsWhitespace(s[i])
    ensures k < |s| ==> IsWhitespace(s[k])
  {
    if s == [] || IsWhitespace(s[0]) then 0 else 1 + RunLength(s[1..])
  }

  /** The words of `s`, in order: what `s.split_whitespace()` yields. */
  function Words(s: string): seq<string>
    decreases |s|
  {
    if s == [] then []
    else if IsWhitespace(s[0]) then Words(s[1..])
    else
      var k := RunLength(s);
      [s[..k]] + Words(s[k..])
  }

  /** Reference count of words, independent of `Words`: the number of
      positions holding a non-whitespace character that starts the string or
      follows a whitespace character. `afterSpace` says whether the position
      before `s` is a start of run. */
  function RunStarts(s: string, afterSpace: bool): nat
    decreases |s|
  {
    if s == [] then 0
    else (if afterSpace && !IsWhitespace(s[0]) then 1 else 0) + RunStarts(s[1..], IsWhitespace(s[0]))
  }

  /** `s` with every whitespace character removed. */
  function Squeezed(s: string): string
    decreases |s|
  {
    if s == [] then []
    else (if IsWhitespace(s[0]) then [] else [s[0]]) + Squeezed(s[1..])
  }

  function Concat(ws: seq<string>): string {
    if ws == [] then [] else ws[0] + Concat(ws[1..])
  }

  /** The ids `tokenize` returns for `text`: the hash of each word, in order. */
  function TokenIds(text: string, hash: string -> nat): seq<nat> {
    var ws := Words(text);
    seq(|ws|, i requires 0 <= i < |ws| => hash(ws[i]))
  }

  // ---------------------------------------------------------------------
  // Properties of the word split

  /** A run that ends at `j` (end of string or a whitespace character) has
      length `j`: the contract of `RunLength` determines it. */
  lemma RunLengthIs(s: string, j: nat)
    requires j <= |s|
    requires forall i :: 0 <= i < j ==> !IsWhitespace(s[i])
    requires j < |s| ==> IsWhitespace(s[j])
    ensures RunLength(s) == j
  {
  }

  /** Every word produced is non-empty and holds no whitespace: leading,
      trailing or repeated whitespace never yields an empty word. */
  lemma {:induction false} WordsAreWords(s: string)
    ensures forall k :: 0 <= k < |Words(s)| ==> IsWord(Words(s)[k])
    decreases |s|
  {
    if s == [] {
    } else if IsWhitespace(s[0]) {
      WordsAreWords(s[1..]);
    } else {
      var k := RunLength(s);
      WordsAreWords(s[k..]);
      assert IsWord(s[..k]);
    }
  }

  /** No words exactly when the text is empty or all whitespace. */
  lemma {:induction false} NoWordsIffBlank(s: string)
    ensures Words(s) == [] <==> forall i :: 0 <= i < |s| ==> IsWhitespace(s[i])
    decreases |s|
  {
    if s != [] {
      NoWordsIffBlank(s[1..]);
      if IsWhitespace(s[0]) {
        forall i | 0 <= i < |s| && !IsWhitespace(s[i]) ensures !IsWhitespace(s[1..][i - 1]) { }
      }
    }
  }

  /** Inside a run, the count does not change while the run goes on. */
  lemma {:induction false} RunStartsInsideRun(s: string, k: nat)
    requires k <= |s|
    requires forall i :: 0 <= i < k ==> !IsWhitespace(s[i])
    ensures RunStarts(s, false) == RunStarts(s[k..], false)
  {
    if k > 0 {
      RunStartsInsideRun(s[1..], k - 1);
      assert s[1..][k - 1..] == s[k..];
    }
  }

  /** The number of words equals the number of maximal non-whitespace runs. */
  lemma {:induction false} WordCountIsRunCount(s: string)
    ensures |Words(s)| == RunStarts(s, true)
    decreases |s|
  {
    if s == [] {
    } else if IsWhitespace(s[0]) {
      WordCountIsRunCount(s[1..]);
    } else {
      var k := RunLength(s);
      var rest := s[k..];
      WordCountIsRunCount(rest);
      RunStartsInsideRun(s[1..], k - 1);
      assert s[1..][k - 1..] == rest;
      // after the run comes either nothing or a whitespace character, where
      // the flag does not matter
      if rest != [] {
        assert IsWhitespace(rest[0]);
      }
    }
  }

  lemma {:induction false} SqueezedAppend(a: string, b: string)
    ensures Squeezed(a + b) == Squeezed(a) + Squeezed(b)
    decreases |a|
  {
    if a == [] {
      assert a + b == b;
    } else {
      SqueezedAppend(a[1..], b);
      assert (a + b)[0] == a[0] && (a + b)[1..] == a[1..] + b;
    }
  }

  lemma {:induction false} SqueezedWord(w: string)
    requires forall i :: 0 <= i < |w| ==> !IsWhitespace(w[i])
    ensures Squeezed(w) == w
    decreases |w|
  {
    if w != [] {
      SqueezedWord(w[1..]);
    }
  }

  /** Joined back together, the words are the text minus its whitespace: no
      character is lost, none is added and the order is kept. */
  lemma {:induction false} WordsKeepText(s: string)
    ensures Concat(Words(s)) == Squeezed(s)
    decreases |s|
  {
    if s == [] {
    } else if IsWhitespace(s[0]) {
      WordsKeepText(s[1..]);
    } else {
      var k := RunLength(s);
      WordsKeepText(s[k..]);
      assert s == s[..k] + s[k..];
      SqueezedAppend(s[..k], s[k..]);
      SqueezedWord(s[..k]);
      assert ([s[..k]] + Words(s[k..]))[1..] == Words(s[k..]);
    }
  }

  /** A text that is a single word splits into exactly that word. */
  lemma WordsOfWord(w: string)
    requires IsWord(w)
    ensures Words(w) == [w]
  {
    RunLengthIs(w, |w|);
    assert w[..|w|] == w;
  }

  /** Words break at every whitespace character and nowhere else: the words
      on either side of one whitespace character are the words of the two
      sides. With `WordsOfWord` and `NoWordsIffBlank` this fixes `Words` on
      every text. */
  lemma {:induction false} WordsSplitAtWhitespace(a: string, c: char, b: string)
    requires IsWhitespace(c)
    ensures Words(a + [c] + b) == Words(a) + Words(b)
    decreases |a|
  {
    var t := a + [c] + b;
    if a == [] {
      assert t == [c] + b;
      assert t[1..] == b;
    } else if IsWhitespace(a[0]) {
      WordsSplitAtWhitespace(a[1..], c, b);
      assert t[1..] == a[1..] + [c] + b;
    } else {
      var k := RunLength(a);
      RunAcrossWhitespace(a, c, b);
      WordsSplitAtWhitespace(a[k..], c, b);
    }
  }

  /** The run at the front of `a` followed by whitespace ends where it ends in
      `a`; what follows it is the rest of `a`, then `c` and `b`. */
  lemma RunAcrossWhitespace(a: string, c: char, b: string)
    requires IsWhitespace(c) && a != [] && !IsWhitespace(a[0])
    ensures Words(a + [c] + b) == [a[..RunLength(a)]] + Words(a[RunLength(a)..] + [c] + b)
  {
    var t := a + [c] + b;
    var k := RunLength(a);
    assert t[k] == if k < |a| then a[k] else c;
    RunLengthIs(t, k);
    assert t[..k] == a[..k];
    assert t[k..] == a[k..] + [c] + b;
  }

  // ---------------------------------------------------------------------
  // The code

  /** `str::split_whitespace`: scan the text, skip whitespace, collect each
      maximal run of other characters. */
  method SplitWhitespace(text: string) returns (words: seq<string>)
    ensures words == Words(text)
  {
    words := [];
    var i := 0;
    while i < |text|
      invariant 0 <= i <= |text|
      invariant words + Words(text[i..]) == Words(text)
    {
      if IsWhitespace(text[i]) {
        assert text[i..][1..] == text[i + 1..];
        i := i + 1;
      } else {
        var j := i + 1;
        while j < |text| && !IsWhitespace(text[j])
          invariant i < j <= |text|
          invariant forall m :: i <= m < j ==> !IsWhitespace(text[m])
        {
          j := j + 1;
        }
        ghost var rest := text[i..];
        RunLengthIs(rest, j - i);
        assert rest[..j - i] == text[i..j];
        assert rest[j - i..] == text[j..];
        words := words + [text[i..j]];
        i := j;
      }
    }
  }

  /** `tokenize`: one id per word, the `i`-th id being the hash of the
      `i`-th word; equal words get equal ids. */
  method Tokenize(text: string, hash: string -> nat) returns (ids: seq<nat>)
    ensures |ids| == |Words(text)|
    ensures forall i :: 0 <= i < |ids| ==> ids[i] == hash(Words(text)[i])
    ensures forall i, j :: 0 <= i < |ids| && 0 <= j < |ids| && Words(text)[i] == Words(text)[j] ==> ids[i] == ids[j]
    ensures ids == TokenIds(text, hash)
  {
    var words := SplitWhitespace(text);
    ids := [];
    for k := 0 to |words|
      invariant |ids| == k
      invariant forall i :: 0 <= i < k ==> ids[i] == hash(words[i])
    {
      ids := ids + [hash(words[k])];
    }
  }
}
