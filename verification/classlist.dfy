/** The class-list tokenisation the selector walk applies to an element's
    `className`: `className.trim().split(/\s+/).filter(c => c)`.

    The expression is modelled step by step (trim, split on whitespace runs,
    drop empty strings) and proved equal to an independent reference, `Words`,
    which reads the maximal whitespace-free runs of the string from left to
    right. */
module ClassList {
  import opened Text

  /** Length of the longest whitespace-free prefix */
  function WordLength(s: string): (n: nat)
    ensures n <= |s|
    ensures forall i :: 0 <= i < n ==> !IsWhitespace(s[i])
    ensures n < |s| ==> IsWhitespace(s[n])
  {
    if s == [] || IsWhitespace(s[0]) then 0 else 1 + WordLength(s[1..])
  }

  /** Length of the longest all-whitespace prefix */
  function SpaceLength(s: string): (n: nat)
    ensures n <= |s|
    ensures forall i :: 0 <= i < n ==> IsWhitespace(s[i])
    ensures n < |s| ==> !IsWhitespace(s[n])
  {
    if s == [] || !IsWhitespace(s[0]) then 0 else 1 + SpaceLength(s[1..])
  }

  /** The characters of `s` that are not white space, in order */
  function Squeeze(s: string): string
  {
    if s == [] then []
    else (if IsWhitespace(s[0]) then [] else [s[0]]) + Squeeze(s[1..])
  }

  /** All parts concatenated, with no separator */
  function Concat(parts: seq<string>): string
  {
    if parts == [] then [] else parts[0] + Concat(parts[1..])
  }

  /** Reference tokenisation: the maximal whitespace-free runs of `s`.
      Every token is non-empty and free of white space, and the tokens
      together hold exactly the non-whitespace characters of `s`. */
  function Words(s: string): (tokens: seq<string>)
    ensures forall k :: 0 <= k < |tokens| ==> tokens[k] != [] && NoWhitespace(tokens[k])
    ensures Concat(tokens) == Squeeze(s)
    decreases |s|
  {
    if s == [] then []
    else if IsWhitespace(s[0]) then Words(s[1..])
    else
      var w := WordLength(s);
      SqueezeAppend(s[..w], s[w..]);
      SqueezeWord(s[..w]);
      assert s == s[..w] + s[w..];
      [s[..w]] + Words(s[w..])
  }

  lemma {:induction false} SqueezeAppend(a: string, b: string)
    ensures Squeeze(a + b) == Squeeze(a) + Squeeze(b)
  {
    if a != [] {
      assert (a + b)[0] == a[0];
      assert (a + b)[1..] == a[1..] + b;
      SqueezeAppend(a[1..], b);
      var h: string := if IsWhitespace(a[0]) then [] else [a[0]];
      assert Squeeze(a + b) == h + (Squeeze(a[1..]) + Squeeze(b));
    } else {
      assert a + b == b;
    }
  }

  lemma {:induction false} SqueezeWord(w: string)
    requires NoWhitespace(w)
    ensures Squeeze(w) == w
  {
    if w != [] {
      SqueezeWord(w[1..]);
    }
  }

  /** `s.trimStart()` */
  function TrimStart(s: string): string
  {
    if s != [] && IsWhitespace(s[0]) then TrimStart(s[1..]) else s
  }

  /** `s.trimEnd()` */
  function TrimEnd(s: string): string
  {
    if s != [] && IsWhitespace(s[|s| - 1]) then TrimEnd(s[..|s| - 1]) else s
  }

  /** `s.trim()` */
  function Trim(s: string): string
  {
    TrimEnd(TrimStart(s))
  }

  /** `s.split(/\s+/)`: the pieces between maximal runs of white space. A
      leading or trailing run yields an empty first or last piece, and the
      empty string splits to one empty piece. */
  function SplitOnWhitespaceRuns(s: string): (pieces: seq<string>)
    ensures |pieces| >= 1
    decreases |s|
  {
    var w := WordLength(s);
    if w == |s| then [s]
    else
      var rest := s[w..];
      [s[..w]] + SplitOnWhitespaceRuns(rest[SpaceLength(rest)..])
  }

  /** `parts.filter(c => c)` on strings: drops the empty ones */
  function DropEmpty(parts: seq<string>): seq<string>
  {
    if parts == [] then []
    else (if parts[0] == [] then [] else [parts[0]]) + DropEmpty(parts[1..])
  }

  /** `className.trim().split(/\s+/).filter(c => c)`, as the selector walk
      computes it; it yields the maximal whitespace-free runs of the class
      string, each a non-empty token without white space. */
  function ClassTokens(className: string): (tokens: seq<string>)
    ensures tokens == Words(className)
    ensures forall k :: 0 <= k < |tokens| ==> tokens[k] != [] && NoWhitespace(tokens[k])
    ensures tokens == [] <==> Squeeze(className) == []
  {
    WordsOfTrim(className);
    SplitRunsAreWords(Trim(className));
    WordsEmptyIff(className);
    DropEmpty(SplitOnWhitespaceRuns(Trim(className)))
  }

  /** There are no tokens exactly when the string is all white space */
  lemma WordsEmptyIff(s: string)
    ensures Words(s) == [] <==> Squeeze(s) == []
  {
    var ts := Words(s);
    if ts != [] {
      assert Concat(ts) == ts[0] + Concat(ts[1..]);
    }
  }

  lemma {:induction false} DropEmptyAppend(a: seq<string>, b: seq<string>)
    ensures DropEmpty(a + b) == DropEmpty(a) + DropEmpty(b)
  {
    if a != [] {
      assert (a + b)[0] == a[0];
      assert (a + b)[1..] == a[1..] + b;
      DropEmptyAppend(a[1..], b);
      var h: seq<string> := if a[0] == [] then [] else [a[0]];
      assert DropEmpty(a + b) == h + (DropEmpty(a[1..]) + DropEmpty(b));
    } else {
      assert a + b == b;
    }
  }

  /** Skipping leading white space does not change the tokens */
  lemma {:induction false} WordsSkipSpace(s: string, j: nat)
    requires j <= SpaceLength(s)
    ensures Words(s[j..]) == Words(s)
  {
    if j > 0 {
      assert s[1..][j - 1..] == s[j..];
      WordsSkipSpace(s[1..], j - 1);
    }
  }

  /** Splitting on whitespace runs and dropping the empty pieces yields the
      reference tokens, whatever white space surrounds the string. */
  lemma {:induction false} SplitRunsAreWords(s: string)
    ensures DropEmpty(SplitOnWhitespaceRuns(s)) == Words(s)
    decreases |s|
  {
    var w := WordLength(s);
    if w == |s| {
      if s != [] {
        assert s[..w] == s && s[w..] == [];
      }
    } else {
      var rest := s[w..];
      var k := SpaceLength(rest);
      assert SplitOnWhitespaceRuns(s) == [s[..w]] + SplitOnWhitespaceRuns(rest[k..]);
      DropEmptyAppend([s[..w]], SplitOnWhitespaceRuns(rest[k..]));
      SplitRunsAreWords(rest[k..]);
      WordsSkipSpace(rest, k);
      if w == 0 {
        assert rest == s;
      }
    }
  }

  /** Characterises WordLength by its two defining facts */
  lemma {:induction false} WordLengthIs(s: string, n: nat)
    requires n <= |s|
    requires forall i :: 0 <= i < n ==> !IsWhitespace(s[i])
    requires n < |s| ==> IsWhitespace(s[n])
    ensures WordLength(s) == n
  {
    if n > 0 {
      WordLengthIs(s[1..], n - 1);
    }
  }

  lemma {:induction false} WordsTrimStart(s: string)
    ensures Words(TrimStart(s)) == Words(s)
  {
    if s != [] && IsWhitespace(s[0]) {
      WordsTrimStart(s[1..]);
    }
  }

  /** Dropping one trailing whitespace character does not change the tokens */
  lemma {:induction false} WordsDropTrailing(t: string)
    requires |t| >= 1 && IsWhitespace(t[|t| - 1])
    ensures Words(t[..|t| - 1]) == Words(t)
    decreases |t|, 1
  {
    var t' := t[..|t| - 1];
    if IsWhitespace(t[0]) {
      if |t| > 1 {
        assert t'[1..] == t[1..][..|t| - 2];
        WordsDropTrailing(t[1..]);
      }
    } else {
      WordsDropTrailingAfterWord(t, WordLength(t));
    }
  }

  /** The inductive step of WordsDropTrailing when `t` starts with a word
      of length w */
  lemma {:induction false} WordsDropTrailingAfterWord(t: string, w: nat)
    requires |t| >= 1 && IsWhitespace(t[|t| - 1]) && !IsWhitespace(t[0])
    requires w == WordLength(t)
    ensures Words(t[..|t| - 1]) == Words(t)
    decreases |t|, 0
  {
    var t' := t[..|t| - 1];
    assert 0 < w < |t|;
    WordLengthIs(t', w);
    var head, rest := t[..w], t[w..];
    assert t'[..w] == head;
    assert t'[w..] == rest[..|rest| - 1];
    WordsDropTrailing(rest);
    var tail := Words(rest);
    assert Words(t'[w..]) == tail;
    assert Words(t) == [head] + tail;
    assert Words(t') == [head] + tail;
  }

  lemma {:induction false} WordsTrimEnd(s: string)
    ensures Words(TrimEnd(s)) == Words(s)
    decreases |s|
  {
    if s != [] && IsWhitespace(s[|s| - 1]) {
      WordsDropTrailing(s);
      WordsTrimEnd(s[..|s| - 1]);
    }
  }

  lemma WordsOfTrim(s: string)
    ensures Words(Trim(s)) == Words(s)
  {
    WordsTrimStart(s);
    WordsTrimEnd(TrimStart(s));
  }

  /** Tokenising class names joined by single spaces gives the class names
      back: the tokenisation inverts `tokens.join(" ")`. */
  lemma {:induction false} WordsOfJoin(tokens: seq<string>)
    requires forall k :: 0 <= k < |tokens| ==> tokens[k] != [] && NoWhitespace(tokens[k])
    ensures Words(Join(tokens, " ")) == tokens
  {
    if |tokens| == 1 {
      var t := tokens[0];
      WordLengthIs(t, |t|);
      assert t[..|t|] == t && t[|t|..] == [];
    } else if |tokens| > 1 {
      var t := tokens[0];
      var rest := Join(tokens[1..], " ");
      var s := Join(tokens, " ");
      assert s == t + (" " + rest);
      WordLengthIs(s, |t|);
      assert s[..|t|] == t;
      assert s[|t|..] == " " + rest;
      assert (" " + rest)[1..] == rest;
      WordsOfJoin(tokens[1..]);
    }
  }
}
