/** What the page shows besides the raw numbers: the speed category of the
    result modal, the sliding window over the paragraph with the mark of
    each character, and the widths of the modal's three bars. */
module View {
  import opened Metrics

  /** Number of recently typed characters kept on screen. */
  const SlidingWindow: nat := 8

  function Min(a: int, b: int): int { if a <= b then a else b }

  function Max(a: int, b: int): int { if a >= b then a else b }

  /** The four speed categories of the result modal, slowest first. */
  datatype Category = Turtle | Rabbit | Cheetah | Hawk
  {
    function Label(): string
    {
      match this
      case Turtle => "Turtle \U{1F422}"
      case Rabbit => "Rabbit \U{1F407}"
      case Cheetah => "Cheetah \U{1F406}"
      case Hawk => "Hawk \U{1F985}"
    }

    function Color(): string
    {
      match this
      case Turtle => "#64748b"
      case Rabbit => "#22d3ee"
      case Cheetah => "#facc15"
      case Hawk => "#22c55e"
    }

    /** Position from slowest (0) to fastest (3). */
    function Rank(): nat
    {
      match this
      case Turtle => 0
      case Rabbit => 1
      case Cheetah => 2
      case Hawk => 3
    }
  }

  /** The category for a speed: below 20 a turtle, below 40 a rabbit, below
      60 a cheetah, and a hawk from 60 on. */
  function GetCategory(wpm: int): (c: Category)
    ensures c == Turtle <==> wpm < 20
    ensures c == Rabbit <==> 20 <= wpm < 40
    ensures c == Cheetah <==> 40 <= wpm < 60
    ensures c == Hawk <==> 60 <= wpm
  {
    if wpm < 20 then Turtle
    else if wpm < 40 then Rabbit
    else if wpm < 60 then Cheetah
    else Hawk
  }

  /** A faster speed never falls into a slower category. */
  lemma CategoryMonotone(a: int, b: int)
    requires a <= b
    ensures GetCategory(a).Rank() <= GetCategory(b).Rank()
  {
  }

  /** For a speed that is not negative (every computed speed), the category
      is the number of whole steps of 20 words per minute, capped at 3. */
  lemma CategoryIsStepsOfTwenty(wpm: nat)
    ensures GetCategory(wpm).Rank() == Min(wpm / 20, 3)
  {
    if wpm < 20 {
    } else if wpm < 40 {
      assert wpm / 20 == 1;
    } else if wpm < 60 {
      assert wpm / 20 == 2;
    } else {
      assert wpm / 20 >= 3;
    }
  }

  /** String.prototype.slice(from, to) for bounds that are not negative:
      both bounds are clamped to the length, and nothing is taken when the
      clamped start is not before the clamped end. The result is the run of
      characters of s that starts at from. */
  function Slice(s: string, from: nat, to: nat): (r: string)
    ensures |r| == if from < to && from < |s| then Min(to, |s|) - from else 0
    ensures forall i :: 0 <= i < |r| ==> r[i] == s[from + i]
  {
    if from < to && from < |s| then s[from..Min(to, |s|)] else []
  }

  /** The two slices of the paragraph the page shows: up to eight characters
      ending where the typed text ends, and the rest of the paragraph. */
  datatype Window = Window(startIdx: nat, recentTyped: string, remaining: string)

  /** The sliding window for typed text input over target. The recent part
      never holds more than eight characters. While the typed text is no
      longer than the paragraph, the two parts together are exactly the
      paragraph from startIdx on, and the recent part covers every typed
      position from startIdx; past the end of the paragraph the recent part
      is the paragraph from startIdx to its end and nothing remains. */
  function SlidingView(input: string, target: string): (w: Window)
    ensures w.startIdx == Max(0, |input| - SlidingWindow)
    ensures |w.recentTyped| <= SlidingWindow
    ensures |w.recentTyped| == Max(0, Min(|input|, |target|) - w.startIdx)
    ensures forall i {:trigger w.recentTyped[i]} :: 0 <= i < |w.recentTyped| ==> w.recentTyped[i] == target[w.startIdx + i]
    ensures |input| <= |target| ==>
      |w.recentTyped| == |input| - w.startIdx && w.recentTyped + w.remaining == target[w.startIdx..]
    ensures w.remaining == target[Min(|input|, |target|)..]
  {
    var start := Max(0, |input| - SlidingWindow);
    var w := Window(start, Slice(target, start, |input|), Slice(target, |input|, |target|));
    assert |input| <= |target| ==> w.recentTyped + w.remaining == target[start..] by {
      if |input| <= |target| {
        assert w.recentTyped == target[start..|input|];
        assert w.remaining == target[|input|..];
      }
    }
    w
  }

  /** The class name of a paragraph character. */
  datatype Mark = Plain | Correct | Incorrect | Current

  /** The class of the already-typed character ch shown at realIdx: a
      position that holds a typed character is correct or incorrect by
      comparison with it; any other position stays unmarked. */
  function TypedMark(input: string, realIdx: nat, ch: char): Mark
  {
    if realIdx < |input| then (if input[realIdx] == ch then Correct else Incorrect) else Plain
  }

  /** The recent part of the paragraph box, each character with its class. */
  function RecentSpans(input: string, target: string): seq<(char, Mark)>
  {
    var w := SlidingView(input, target);
    seq(|w.recentTyped|, idx requires 0 <= idx < |w.recentTyped| =>
      (w.recentTyped[idx], TypedMark(input, w.startIdx + idx, w.recentTyped[idx])))
  }

  /** The rest of the paragraph; its first character is the current one
      while time is left. */
  function RemainingSpans(input: string, timeLeft: nat, target: string): seq<(char, Mark)>
  {
    var w := SlidingView(input, target);
    seq(|w.remaining|, idx requires 0 <= idx < |w.remaining| =>
      (w.remaining[idx], if idx == 0 && timeLeft > 0 then Current else Plain))
  }

  /** Everything the paragraph box shows, left to right. */
  function Spans(input: string, timeLeft: nat, target: string): seq<(char, Mark)>
  {
    RecentSpans(input, target) + RemainingSpans(input, timeLeft, target)
  }

  /** While the typed text is no longer than the paragraph, the box shows
      the paragraph itself from startIdx on, character for character. */
  lemma SpansShowParagraph(input: string, timeLeft: nat, target: string)
    requires |input| <= |target|
    ensures var start := SlidingView(input, target).startIdx;
      |Spans(input, timeLeft, target)| == |target| - start &&
      forall i :: 0 <= i < |target| - start ==> Spans(input, timeLeft, target)[i].0 == target[start + i]
  {
    var w := SlidingView(input, target);
    var rs := RecentSpans(input, target);
    var ms := RemainingSpans(input, timeLeft, target);
    RecentChars(input, target);
    RemainingChars(input, timeLeft, target);
    assert Spans(input, timeLeft, target) == rs + ms;
    assert w.remaining == target[|input|..];
    ConcatShowsRun(rs, ms, w.recentTyped, w.remaining, target, w.startIdx);
  }

  lemma RecentChars(input: string, target: string)
    ensures var w := SlidingView(input, target); var rs := RecentSpans(input, target);
      |rs| == |w.recentTyped| && forall i :: 0 <= i < |rs| ==> rs[i].0 == w.recentTyped[i]
  {
  }

  lemma RemainingChars(input: string, timeLeft: nat, target: string)
    ensures var w := SlidingView(input, target); var ms := RemainingSpans(input, timeLeft, target);
      |ms| == |w.remaining| && forall i :: 0 <= i < |ms| ==> ms[i].0 == w.remaining[i]
  {
  }

  /** Two runs of spans showing a and b, where a is target's run at start
      and b is the rest of target, together show target from start on. */
  lemma ConcatShowsRun(rs: seq<(char, Mark)>, ms: seq<(char, Mark)>, a: string, b: string, target: string, start: nat)
    requires |rs| == |a| && forall i :: 0 <= i < |rs| ==> rs[i].0 == a[i]
    requires |ms| == |b| && forall i :: 0 <= i < |ms| ==> ms[i].0 == b[i]
    requires start + |a| <= |target| && forall i :: 0 <= i < |a| ==> a[i] == target[start + i]
    requires b == target[start + |a|..]
    ensures |rs + ms| == |target| - start
    ensures forall i :: 0 <= i < |target| - start ==> (rs + ms)[i].0 == target[start + i]
  {
    forall i | 0 <= i < |target| - start
      ensures (rs + ms)[i].0 == target[start + i]
    {
      if i >= |a| {
        assert (rs + ms)[i] == ms[i - |a|];
      }
    }
  }

  /** Every character of the recent part is judged: it is correct exactly
      when the character typed at its position equals the paragraph's. */
  lemma RecentSpansJudgeTyping(input: string, target: string)
    ensures var w := SlidingView(input, target);
      forall idx :: 0 <= idx < |RecentSpans(input, target)| ==>
        w.startIdx + idx < |input| && w.startIdx + idx < |target| &&
        RecentSpans(input, target)[idx].1 != Plain &&
        RecentSpans(input, target)[idx].1 != Current &&
        (RecentSpans(input, target)[idx].1 == Correct <==> input[w.startIdx + idx] == target[w.startIdx + idx])
  {
    var w := SlidingView(input, target);
    var rs := RecentSpans(input, target);
    forall idx | 0 <= idx < |rs|
      ensures w.startIdx + idx < |input| && w.startIdx + idx < |target| &&
        rs[idx].1 != Plain && rs[idx].1 != Current &&
        (rs[idx].1 == Correct <==> input[w.startIdx + idx] == target[w.startIdx + idx])
    {
      var j := w.startIdx + idx;
      assert w.recentTyped[idx] == target[j];
      assert j < |input|;
      assert rs[idx].1 == TypedMark(input, j, target[j]);
    }
  }

  /** The current-character marker sits on the first character not yet
      typed, and only there; it is shown exactly when time is left and the
      typed text is shorter than the paragraph. */
  lemma CurrentMarksNextCharacter(input: string, timeLeft: nat, target: string)
    ensures var sp := Spans(input, timeLeft, target);
      var k := |RecentSpans(input, target)|;
      (forall i :: 0 <= i < |sp| ==> (sp[i].1 == Current <==> i == k && timeLeft > 0)) &&
      (k < |sp| <==> |input| < |target|) &&
      (k < |sp| ==> sp[k].0 == target[|input|])
  {
    var sp := Spans(input, timeLeft, target);
    var k := |RecentSpans(input, target)|;
    var w := SlidingView(input, target);
    forall i | 0 <= i < |sp|
      ensures sp[i].1 == Current <==> i == k && timeLeft > 0
    {
      if i < k {
        assert sp[i] == RecentSpans(input, target)[i];
      } else {
        assert sp[i] == RemainingSpans(input, timeLeft, target)[i - k];
      }
    }
    if k < |sp| {
      assert sp[k] == RemainingSpans(input, timeLeft, target)[0];
    }
  }

  /** Typing along the paragraph leaves no character marked incorrect. */
  lemma FlawlessTypingShowsNoError(input: string, timeLeft: nat, target: string)
    requires IsPrefix(input, target)
    ensures forall i :: 0 <= i < |Spans(input, timeLeft, target)| ==> Spans(input, timeLeft, target)[i].1 != Incorrect
  {
    var sp := Spans(input, timeLeft, target);
    var k := |RecentSpans(input, target)|;
    RecentSpansJudgeTyping(input, target);
    forall i | 0 <= i < |sp|
      ensures sp[i].1 != Incorrect
    {
      if i < k {
        assert sp[i] == RecentSpans(input, target)[i];
        assert input[SlidingView(input, target).startIdx + i] == target[SlidingView(input, target).startIdx + i];
      } else {
        assert sp[i] == RemainingSpans(input, timeLeft, target)[i - k];
      }
    }
  }

  /** Width in percent of the modal's speed bar. */
  function WpmBar(wpm: int): int { Min(wpm + 20, 100) }

  /** Width in percent of the modal's accuracy bar. */
  function AccuracyBar(accuracy: int): int { Min(accuracy, 100) }

  /** Width in percent of the modal's mistakes bar. */
  function MistakesBar(mistakes: int): int { Min(mistakes, 100) }

  /** For the metrics of any state, every bar fits its box: the speed bar
      starts at 20% and is full from 80 words per minute, the accuracy bar
      shows the accuracy unclipped, and the mistakes bar is empty exactly
      when the typed text runs along the paragraph. */
  lemma ModalBars(input: string, timeLeft: nat, target: string)
    ensures var m := MetricsOf(input, timeLeft, target);
      20 <= WpmBar(m.wpm) <= 100 && (WpmBar(m.wpm) == 100 <==> m.wpm >= 80) &&
      AccuracyBar(m.accuracy) == m.accuracy &&
      0 <= MistakesBar(m.mistakes) <= 100 && (MistakesBar(m.mistakes) == 0 <==> IsPrefix(input, target))
  {
    PrefixIsFlawless(input, target, timeLeft);
  }
}
