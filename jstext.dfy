/** The two JavaScript string operations behind the word count of the
    typing test: String.prototype.trim and String.prototype.split(/\s+/).
    A string is a sequence of characters; every character is one element. */
module JsText {

  /** JavaScript's `\s` class, which is also the set that trim() strips:
      the WhiteSpace and LineTerminator code points of ECMAScript (tab, line
      tabulation, form feed, space, no-break space, the other Unicode space
      separators, zero width no-break space, line feed, carriage return,
      line separator and paragraph separator). */
  predicate IsSpace(c: char)
  {
    c in SpaceChars || '\U{2000}' <= c <= '\U{200A}'
  }

  const SpaceChars: set<char> :=
    {'\t', '\n', '\U{B}', '\U{C}', '\r', ' ', '\U{A0}', '\U{1680}',
     '\U{2028}', '\U{2029}', '\U{202F}', '\U{205F}', '\U{3000}', '\U{FEFF}'}

  predicate AllSpace(s: string)
  {
    forall i :: 0 <= i < |s| ==> IsSpace(s[i])
  }

  predicate NoSpace(s: string)
  {
    forall i :: 0 <= i < |s| ==> !IsSpace(s[i])
  }

  /** s without its leading whitespace: the longest all-whitespace prefix is
      dropped, so nothing is left exactly when s is whitespace only. */
  function TrimStart(s: string): (r: string)
    ensures |r| <= |s| && r == s[|s| - |r|..]
    ensures forall i :: 0 <= i < |s| - |r| ==> IsSpace(s[i])
    ensures r == [] || !IsSpace(r[0])
    ensures r == [] <==> AllSpace(s)
    decreases |s|
  {
    if s != [] && IsSpace(s[0]) then
      var r := TrimStart(s[1..]);
      assert s[1..][|s| - 1 - |r|..] == s[|s| - |r|..];
      assert forall i :: 1 <= i < |s| ==> s[i] == s[1..][i - 1];
      r
    else
      s
  }

  /** s without its trailing whitespace: the longest all-whitespace suffix is
      dropped, so nothing is left exactly when s is whitespace only. */
  function TrimEnd(s: string): (r: string)
    ensures |r| <= |s| && r == s[..|r|]
    ensures forall i :: |r| <= i < |s| ==> IsSpace(s[i])
    ensures r == [] || !IsSpace(r[|r| - 1])
    ensures r == [] <==> AllSpace(s)
    decreases |s|
  {
    if s != [] && IsSpace(s[|s| - 1]) then
      var r := TrimEnd(s[..|s| - 1]);
      assert forall i :: 0 <= i < |s| - 1 ==> s[..|s| - 1][i] == s[i];
      r
    else
      s
  }

  /** String.prototype.trim: whitespace removed at both ends. Nothing is left
      exactly when the string was whitespace only. */
  function Trim(s: string): (r: string)
    ensures r == [] || (!IsSpace(r[0]) && !IsSpace(r[|r| - 1]))
    ensures r == [] <==> AllSpace(s)
  {
    TrimEnd(TrimStart(s))
  }

  /** A word without whitespace is left as it is by trim(). */
  lemma TrimOfWord(s: string)
    requires NoSpace(s)
    ensures Trim(s) == s
  {
    if s != [] {
      assert !IsSpace(s[0]) && !IsSpace(s[|s| - 1]);
    }
  }

  /** trim() keeps exactly the run of s that starts after the
      k = |s| - |TrimStart(s)| leading whitespace characters, character for
      character, and only whitespace precedes and follows that run. As the
      result neither starts nor ends with whitespace (the contract of Trim),
      both stripped runs are the longest possible. */
  lemma TrimKeepsMiddle(s: string)
    ensures var k := |s| - |TrimStart(s)|;
      RunAt(Trim(s), s, k) && SpaceBefore(s, k) && SpaceFrom(s, k + |Trim(s)|)
  {
    TrimRun(s);
    TrimTrailingSpace(s);
  }

  /** r occurs in s at position k. */
  predicate RunAt(r: string, s: string, k: nat)
  {
    k + |r| <= |s| && forall i :: 0 <= i < |r| ==> r[i] == s[k + i]
  }

  /** The first k characters of s are whitespace. */
  predicate SpaceBefore(s: string, k: nat)
  {
    k <= |s| && forall i :: 0 <= i < k ==> IsSpace(s[i])
  }

  /** The characters of s from position j on are whitespace. */
  predicate SpaceFrom(s: string, j: nat)
  {
    forall i :: j <= i < |s| ==> IsSpace(s[i])
  }

  /** The two halves of trim() compose: what TrimEnd keeps of TrimStart's
      result sits in s after the stripped leading whitespace. */
  lemma TrimRun(s: string)
    ensures var u := TrimStart(s); var k := |s| - |u|;
      RunAt(TrimEnd(u), s, k) && SpaceBefore(s, k)
  {
  }

  /** Everything after what trim() keeps is whitespace. */
  lemma TrimTrailingSpace(s: string)
    ensures var u := TrimStart(s); var r := TrimEnd(u);
      SpaceFrom(s, |s| - |u| + |r|)
  {
    var u := TrimStart(s);
    var r := TrimEnd(u);
    TrimStartAt(s);
    TrimEndSpace(u);
    SpaceAfter(s, u, r);
  }

  /** The text left by TrimStart is s from position |s| - |TrimStart(s)| on,
      position by position. */
  lemma TrimStartAt(s: string)
    ensures TailAt(TrimStart(s), s)
  {
  }

  /** What TrimEnd drops is whitespace. */
  lemma TrimEndSpace(u: string)
    ensures SpaceFrom(u, |TrimEnd(u)|)
  {
  }

  /** u is the tail of s, position by position. */
  predicate TailAt(u: string, s: string)
  {
    |u| <= |s| && forall i :: |s| - |u| <= i < |s| ==> s[i] == u[i - (|s| - |u|)]
  }

  /** If u is the tail of s and u ends in whitespace after position |r|, so
      does s after the corresponding position. */
  lemma SpaceAfter(s: string, u: string, r: string)
    requires TailAt(u, s) && |r| <= |u|
    requires SpaceFrom(u, |r|)
    ensures SpaceFrom(s, |s| - |u| + |r|)
  {
    var k := |s| - |u|;
    forall i | k + |r| <= i < |s|
      ensures IsSpace(s[i])
    {
      assert s[i] == u[i - k];
    }
  }

  /** String.prototype.split with the separator /\s+/: the pieces of s that
      lie between maximal runs of whitespace. There is always at least one
      piece, and no piece holds whitespace. */
  function Split(s: string): (r: seq<string>)
    ensures |r| >= 1
    ensures forall k :: 0 <= k < |r| ==> NoSpace(r[k])
    decreases |s|
  {
    if s == [] then
      [[]]
    else if IsSpace(s[0]) then
      [[]] + Split(TrimStart(s))
    else
      var rest := Split(s[1..]);
      assert NoSpace(rest[0]);
      [[s[0]] + rest[0]] + rest[1..]
  }

  /** The pieces of a split, glued back together without separators. */
  function Concat(pieces: seq<string>): string
  {
    if pieces == [] then [] else pieces[0] + Concat(pieces[1..])
  }

  /** s with every whitespace character removed. */
  function RemoveSpaces(s: string): string
  {
    if s == [] then []
    else if IsSpace(s[0]) then RemoveSpaces(s[1..])
    else [s[0]] + RemoveSpaces(s[1..])
  }

  lemma {:induction false} RemoveLeadingSpaces(s: string, k: nat)
    requires k <= |s|
    requires forall i :: 0 <= i < k ==> IsSpace(s[i])
    ensures RemoveSpaces(s) == RemoveSpaces(s[k..])
    decreases k
  {
    if k > 0 {
      assert IsSpace(s[0]);
      RemoveLeadingSpaces(s[1..], k - 1);
      assert s[1..][k - 1..] == s[k..];
    }
  }

  /** Concat of a list with a first piece: that piece, then the rest glued. */
  lemma ConcatCons(head: string, tail: seq<string>)
    ensures Concat([head] + tail) == head + Concat(tail)
  {
    assert ([head] + tail)[1..] == tail;
  }

  /** Splitting loses nothing but whitespace: the pieces hold exactly the
      non-whitespace characters of s, in order. */
  lemma {:induction false} SplitKeepsText(s: string)
    ensures Concat(Split(s)) == RemoveSpaces(s)
    decreases |s|
  {
    if s == [] {
    } else if IsSpace(s[0]) {
      var u := TrimStart(s);
      SplitKeepsText(u);
      RemoveLeadingSpaces(s, |s| - |u|);
      ConcatCons([], Split(u));
    } else {
      var rest := Split(s[1..]);
      SplitKeepsText(s[1..]);
      ConcatCons([s[0]] + rest[0], rest[1..]);
      ConcatCons(rest[0], rest[1..]);
      assert rest == [rest[0]] + rest[1..];
      assert ([s[0]] + rest[0]) + Concat(rest[1..]) == [s[0]] + (rest[0] + Concat(rest[1..]));
    }
  }

  /** Text without whitespace splits into itself alone. */
  lemma {:induction false} SplitOfWord(s: string)
    requires NoSpace(s)
    ensures Split(s) == [s]
    decreases |s|
  {
    if s != [] {
      assert !IsSpace(s[0]);
      SplitOfWord(s[1..]);
      assert [s[0]] + s[1..] == s;
    }
  }

  /** When s does not end in whitespace, every piece after the first is a
      real word: a split of a trimmed string yields no empty piece except the
      single one produced by the empty string. */
  lemma {:induction false} SplitPiecesNonEmpty(s: string)
    requires s == [] || !IsSpace(s[|s| - 1])
    ensures forall k :: 1 <= k < |Split(s)| ==> Split(s)[k] != []
    ensures s != [] && !IsSpace(s[0]) ==> Split(s)[0] != []
    decreases |s|
  {
    if s == [] {
    } else if IsSpace(s[0]) {
      var u := TrimStart(s);
      assert u[|u| - 1] == s[|s| - 1];
      SplitPiecesNonEmpty(u);
      assert Split(s) == [[]] + Split(u);
    } else if |s| > 1 {
      assert s[1..][|s| - 2] == s[|s| - 1];
      SplitPiecesNonEmpty(s[1..]);
      var rest := Split(s[1..]);
      assert Split(s) == [[s[0]] + rest[0]] + rest[1..];
    }
  }

  /** The number of words that begin in s, where a word begins at a
      non-whitespace character whose predecessor is whitespace; afterSpace
      says whether the character before s counts as whitespace (it does at
      the start of the text). */
  function WordsFrom(s: string, afterSpace: bool): nat
  {
    if s == [] then 0
    else (if afterSpace && !IsSpace(s[0]) then 1 else 0) + WordsFrom(s[1..], IsSpace(s[0]))
  }

  /** The number of whitespace-separated words of s: an independent
      reference for the word count that split() produces. */
  function CountWords(s: string): nat
  {
    WordsFrom(s, true)
  }

  lemma {:induction false} WordsFromAllSpace(s: string, afterSpace: bool)
    requires AllSpace(s)
    ensures WordsFrom(s, afterSpace) == 0
    decreases |s|
  {
    if s != [] {
      assert IsSpace(s[0]);
      WordsFromAllSpace(s[1..], true);
    }
  }

  /** Leading whitespace (k characters of it) starts no word. */
  lemma {:induction false} WordsFromLeadingSpace(s: string, k: nat)
    requires k <= |s|
    requires forall i :: 0 <= i < k ==> IsSpace(s[i])
    ensures WordsFrom(s, true) == WordsFrom(s[k..], true)
    decreases k
  {
    if k > 0 {
      assert IsSpace(s[0]);
      WordsFromLeadingSpace(s[1..], k - 1);
      assert s[1..][k - 1..] == s[k..];
    }
  }

  /** Trailing whitespace (from index k on) starts no word. */
  lemma {:induction false} WordsFromTrailingSpace(s: string, k: nat, afterSpace: bool)
    requires k <= |s|
    requires forall i :: k <= i < |s| ==> IsSpace(s[i])
    ensures WordsFrom(s, afterSpace) == WordsFrom(s[..k], afterSpace)
    decreases k
  {
    if k == 0 {
      WordsFromAllSpace(s, afterSpace);
    } else {
      WordsFromTrailingSpace(s[1..], k - 1, IsSpace(s[0]));
      assert s[1..][..k - 1] == s[..k][1..];
    }
  }

  /** The words of s are the words of a run t of it when only whitespace
      comes before and after that run: t is the start of u, the tail of s. */
  lemma WordsFromKept(s: string, u: string, t: string)
    requires TailAt(u, s) && SpaceBefore(s, |s| - |u|)
    requires |t| <= |u| && t == u[..|t|] && SpaceFrom(u, |t|)
    ensures WordsFrom(s, true) == WordsFrom(t, true)
  {
    var k := |s| - |u|;
    WordsFromLeadingSpace(s, k);
    assert s[k..] == u;
    WordsFromTrailingSpace(u, |t|, true);
  }

  /** The number of pieces of a split of a string that does not end in
      whitespace is one more than the number of words that begin after its
      first character. */
  lemma {:induction false} SplitLength(s: string)
    requires s == [] || !IsSpace(s[|s| - 1])
    ensures |Split(s)| == 1 + WordsFrom(s, false)
    decreases |s|
  {
    if s == [] {
    } else if IsSpace(s[0]) {
      var u := TrimStart(s);
      assert u[|u| - 1] == s[|s| - 1];
      SplitLength(u);
      WordsFromLeadingSpace(s[1..], |s| - |u| - 1);
      assert s[1..][|s| - |u| - 1..] == u;
    } else if |s| > 1 {
      assert s[1..][|s| - 2] == s[|s| - 1];
      SplitLength(s[1..]);
    }
  }
}
