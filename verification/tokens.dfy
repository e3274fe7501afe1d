/**
 * Python's `str.split()` with no separator: the string is cut into the
 * maximal runs of non-whitespace characters, and leading, trailing and
 * repeated whitespace produce no empty words.
 */
module Tokens {

  /** The characters for which Python's `str.isspace()` holds. */
  predicate IsSpace(c: char)
  {
    || c == ' '
    || ('\t' <= c <= '\r')
    || ('\U{1C}' <= c <= '\U{1F}')
    || c == '\U{85}' || c == '\U{A0}' || c == '\U{1680}'
    || ('\U{2000}' <= c <= '\U{200A}')
    || c == '\U{2028}' || c == '\U{2029}' || c == '\U{202F}'
    || c == '\U{205F}' || c == '\U{3000}'
  }

  predicate NoSpace(s: string)
  {
    forall i :: 0 <= i < |s| ==> !IsSpace(s[i])
  }

  predicate AllSpace(s: string)
  {
    forall i :: 0 <= i < |s| ==> IsSpace(s[i])
  }

  /** A word as `split()` produces it: non-empty and free of whitespace. */
  predicate IsWord(w: string)
  {
    |w| > 0 && NoSpace(w)
  }

  /** Length of the leading run of non-whitespace characters of `s`. */
  function WordLength(s: string): (n: nat)
    ensures n <= |s|
    ensures NoSpace(s[..n])
    ensures n < |s| ==> IsSpace(s[n])
  {
    if |s| == 0 || IsSpace(s[0]) then 0
    else
      var m := WordLength(s[1..]);
      assert s[..1 + m] == [s[0]] + s[1..][..m];
      1 + m
  }

  /** `s.split()`. */
  function Split(s: string): (words: seq<string>)
    ensures forall i :: 0 <= i < |words| ==> IsWord(words[i])
    decreases |s|
  {
    if |s| == 0 then []
    else if IsSpace(s[0]) then Split(s[1..])
    else
      var n := WordLength(s);
      [s[..n]] + Split(s[n..])
  }

  /** Reference definition: the non-whitespace characters of `s`, in order. */
  function Visible(s: string): string
  {
    if |s| == 0 then []
    else if IsSpace(s[0]) then Visible(s[1..])
    else [s[0]] + Visible(s[1..])
  }

  /** The words joined with nothing between them. */
  function Concat(words: seq<string>): string
  {
    if |words| == 0 then [] else words[0] + Concat(words[1..])
  }

  lemma {:induction false} VisibleAppend(a: string, b: string)
    ensures Visible(a + b) == Visible(a) + Visible(b)
    decreases |a|
  {
    if |a| == 0 {
      assert a + b == b;
    } else {
      assert (a + b)[1..] == a[1..] + b;
      VisibleAppend(a[1..], b);
    }
  }

  lemma {:induction false} VisibleOfWord(w: string)
    requires NoSpace(w)
    ensures Visible(w) == w
    decreases |w|
  {
    if |w| > 0 {
      VisibleOfWord(w[1..]);
    }
  }

  /** Splitting loses exactly the whitespace: the words, joined, are the visible characters. */
  lemma {:induction false} SplitKeepsVisible(s: string)
    ensures Concat(Split(s)) == Visible(s)
    decreases |s|
  {
    if |s| == 0 {
    } else if IsSpace(s[0]) {
      SplitKeepsVisible(s[1..]);
    } else {
      var n := WordLength(s);
      var words := Split(s);
      assert words[1..] == Split(s[n..]);
      SplitKeepsVisible(s[n..]);
      assert s == s[..n] + s[n..];
      VisibleAppend(s[..n], s[n..]);
      VisibleOfWord(s[..n]);
    }
  }

  /** `split()` yields no word exactly when the string is empty or all whitespace. */
  lemma {:induction false} SplitEmptyIffAllSpace(s: string)
    ensures |Split(s)| == 0 <==> AllSpace(s)
    decreases |s|
  {
    if |s| > 0 && IsSpace(s[0]) {
      SplitEmptyIffAllSpace(s[1..]);
      if AllSpace(s[1..]) {
        forall i | 0 <= i < |s|
          ensures IsSpace(s[i])
        {
          if i > 0 {
            assert s[i] == s[1..][i - 1];
          }
        }
      }
    }
  }

  /** Leading whitespace is skipped. */
  lemma {:induction false} SplitSkipsLeadingSpace(sp: string, s: string)
    requires AllSpace(sp)
    ensures Split(sp + s) == Split(s)
    decreases |sp|
  {
    if |sp| > 0 {
      assert (sp + s)[1..] == sp[1..] + s;
      SplitSkipsLeadingSpace(sp[1..], s);
    } else {
      assert sp + s == s;
    }
  }

  lemma {:induction false} WordLengthOfWordThenSpace(w: string, rest: string)
    requires IsWord(w)
    requires |rest| > 0 && IsSpace(rest[0])
    ensures WordLength(w + rest) == |w|
    decreases |w|
  {
    var s := w + rest;
    if |w| > 1 {
      assert s[1..] == w[1..] + rest;
      WordLengthOfWordThenSpace(w[1..], rest);
    } else {
      assert s[1..] == rest;
    }
  }

  lemma {:induction false} WordLengthOfWord(w: string)
    requires IsWord(w)
    ensures WordLength(w) == |w|
    decreases |w|
  {
    if |w| > 1 {
      WordLengthOfWord(w[1..]);
    }
  }

  /** A word followed by whitespace and anything else is the first word. */
  lemma SplitFirstWord(w: string, rest: string)
    requires IsWord(w)
    requires |rest| > 0 && IsSpace(rest[0])
    ensures Split(w + rest) == [w] + Split(rest)
  {
    var s := w + rest;
    WordLengthOfWordThenSpace(w, rest);
    assert s[..|w|] == w;
    assert s[|w|..] == rest;
  }

  /** A lone word splits into itself. */
  lemma SplitOfWord(w: string)
    requires IsWord(w)
    ensures Split(w) == [w]
  {
    WordLengthOfWord(w);
    assert w[..|w|] == w;
    assert w[|w|..] == [];
  }
}
