/** The metrics engine of the typing test: from the typed text, the seconds
    left and the target paragraph it derives words per minute, accuracy and
    the number of mistakes. Math.round is modelled exactly on rationals with
    integer division: for x >= 0, Math.round(x) = floor(x + 1/2). */
module Metrics {
  import opened JsText

  /** Length of a test, in seconds. */
  const TestSeconds: nat := 60

  datatype Option<T> = None | Some(value: T)

  /** target[i] in JavaScript: the character at i, or undefined past the end. */
  function CharAt(s: string, i: nat): Option<char>
  {
    if i < |s| then Some(s[i]) else None
  }

  /** Number of positions i < |input| at which input[i] === target[i]. A
      position past the end of target reads undefined and never matches, so
      the count is bounded by both lengths. */
  function CorrectCount(input: string, target: string): (r: nat)
    ensures r <= |input| && r <= |target|
    decreases |input|
  {
    if input == [] then 0
    else
      var n := |input| - 1;
      CorrectCount(input[..n], target) + (if CharAt(target, n) == Some(input[n]) then 1 else 0)
  }

  /** The counting loop of the metrics effect. */
  method CountCorrect(input: string, target: string) returns (correct: nat)
    ensures correct == CorrectCount(input, target)
  {
    correct := 0;
    var i := 0;
    while i < |input|
      invariant 0 <= i <= |input|
      invariant correct == CorrectCount(input[..i], target)
    {
      assert input[..i + 1][..i] == input[..i];
      if CharAt(target, i) == Some(input[i]) {
        correct := correct + 1;
      }
      i := i + 1;
    }
    assert input[..|input|] == input;
  }

  /** input is a prefix of target. */
  predicate IsPrefix(input: string, target: string)
  {
    |input| <= |target| && input == target[..|input|]
  }

  /** Every typed character counts as correct exactly when the typed text is
      a prefix of the target. */
  lemma {:induction false} AllCorrectIffPrefix(input: string, target: string)
    ensures CorrectCount(input, target) == |input| <==> IsPrefix(input, target)
    decreases |input|
  {
    if input != [] {
      var n := |input| - 1;
      var p := input[..n];
      AllCorrectIffPrefix(p, target);
      if IsPrefix(input, target) {
        assert p == target[..n];
        assert input[n] == target[n];
      }
      if CorrectCount(input, target) == |input| {
        assert CorrectCount(p, target) == n && n < |target| && input[n] == target[n];
        assert input == p + [input[n]];
        assert target[..|input|] == target[..n] + [target[n]];
      }
    }
  }

  /** Characters typed beyond the end of target never count as correct: only
      the first |target| typed characters contribute. */
  lemma {:induction false} BeyondTargetNeverCorrect(input: string, target: string)
    requires |input| >= |target|
    ensures CorrectCount(input, target) == CorrectCount(input[..|target|], target)
    decreases |input|
  {
    if |input| > |target| {
      var n := |input| - 1;
      assert CharAt(target, n) == None;
      BeyondTargetNeverCorrect(input[..n], target);
      assert input[..n][..|target|] == input[..|target|];
    } else {
      assert input[..|target|] == input;
    }
  }

  lemma MulMono(d: int, x: int, y: int)
    requires d >= 0 && x <= y
    ensures d * x <= d * y
  {
    assert d * y - d * x == d * (y - x);
  }

  lemma MulCancelLt(d: int, x: int, y: int)
    requires d > 0 && d * x < d * y
    ensures x < y
  {
    if x >= y {
      MulMono(d, y, x);
    }
  }

  lemma MulCancelLe(d: int, x: int, y: int)
    requires d > 0 && d * x <= d * y
    ensures x <= y
  {
    if x > y {
      MulMono(d, y + 1, x);
    }
  }

  /** Math.round(num / den) for num >= 0 and den > 0: the integer nearest to
      num / den, halves rounded up. */
  function RoundDiv(num: nat, den: nat): (r: nat)
    requires den > 0
    ensures den * (2 * r - 1) <= 2 * num < den * (2 * r + 1)
  {
    var r := (2 * num + den) / (2 * den);
    assert 2 * num + den == 2 * den * r + (2 * num + den) % (2 * den);
    r
  }

  /** Rounding is monotone in the numerator. */
  lemma RoundDivMonotone(a: nat, b: nat, den: nat)
    requires den > 0 && a <= b
    ensures RoundDiv(a, den) <= RoundDiv(b, den)
  {
    var ra: int, rb: int := RoundDiv(a, den), RoundDiv(b, den);
    MulCancelLt(den, 2 * ra - 1, 2 * rb + 1);
  }

  /** words / minutes rounded, where minutes = (60 - timeLeft) / 60; 0 when
      no time has elapsed. For elapsed e = 60 - timeLeft seconds the result
      is the integer nearest to 60 * words / e, and at least one word in any
      elapsed time gives at least 1. */
  function Wpm(words: nat, timeLeft: nat): (r: nat)
    ensures timeLeft >= TestSeconds ==> r == 0
    ensures timeLeft < TestSeconds ==>
      (TestSeconds - timeLeft) * (2 * r - 1) <= 2 * TestSeconds * words < (TestSeconds - timeLeft) * (2 * r + 1)
    ensures words >= 1 && timeLeft < TestSeconds ==> r >= 1
  {
    if timeLeft < TestSeconds then
      var e := TestSeconds - timeLeft;
      var r := RoundDiv(TestSeconds * words, e);
      if words >= 1 then
        MulCancelLt(e, 2, 2 * r + 1);
        r
      else
        r
    else
      0
  }

  /** More words in the same time never lower the speed. */
  lemma WpmMonotoneInWords(w1: nat, w2: nat, timeLeft: nat)
    requires w1 <= w2
    ensures Wpm(w1, timeLeft) <= Wpm(w2, timeLeft)
  {
    if timeLeft < TestSeconds {
      RoundDivMonotone(TestSeconds * w1, TestSeconds * w2, TestSeconds - timeLeft);
    }
  }

  /** round(100 * correct / typed), or 100 when nothing is typed. Always a
      percentage in [0, 100]. */
  function Accuracy(correct: nat, typed: nat): (r: nat)
    requires correct <= typed
    ensures r <= 100
    ensures typed == 0 ==> r == 100
    ensures typed > 0 ==> typed * (2 * r - 1) <= 200 * correct < typed * (2 * r + 1)
  {
    if typed > 0 then
      var r := RoundDiv(100 * correct, typed);
      MulCancelLe(typed, 2 * r - 1, 200);
      r
    else
      100
  }

  /** Accuracy shows 100 exactly when at most one typed character in two
      hundred is wrong: a rounded percentage does not tell "perfect" from
      "nearly perfect". */
  lemma AccuracyHundredIff(correct: nat, typed: nat)
    requires correct <= typed && typed > 0
    ensures Accuracy(correct, typed) == 100 <==> 200 * (typed - correct) <= typed
  {
    var r := Accuracy(correct, typed);
    if 200 * (typed - correct) <= typed {
      MulCancelLt(typed, 199, 2 * r + 1);
    }
    if r == 100 {
      assert typed * (2 * r - 1) == typed * 199;
    }
  }

  /** `input.trim().split(/\s+/).length`: never less than one, because
      splitting the empty string yields one empty piece. */
  function WordsTyped(input: string): (n: nat)
    ensures n >= 1
  {
    |Split(Trim(input))|
  }

  /** The word count is the number of whitespace-separated words, except
      that text with no word at all (empty or whitespace only) counts as one
      word. */
  lemma WordsTypedCountsWords(input: string)
    ensures CountWords(input) == 0 <==> AllSpace(input)
    ensures WordsTyped(input) == if CountWords(input) == 0 then 1 else CountWords(input)
  {
    var u := TrimStart(input);
    var t := TrimEnd(u);
    SplitLength(t);
    if t == [] {
      WordsFromAllSpace(input, true);
    } else {
      assert !AllSpace(input) by { assert !AllSpace(u); }
      assert WordsFrom(t, true) == 1 + WordsFrom(t[1..], false) == 1 + WordsFrom(t, false);
      TrimStartAt(input);
      TrimEndSpace(u);
      WordsFromKept(input, u, t);
    }
  }

  /** The three numbers the test displays: words per minute, accuracy in
      percent and mistakes. */
  datatype Stats = Stats(wpm: nat, accuracy: nat, mistakes: nat)

  /** The metrics of typed text input against target with timeLeft seconds
      remaining: every typed character is either correct or a mistake, the
      accuracy is a percentage, and the speed is zero exactly when no time
      has elapsed. */
  function MetricsOf(input: string, timeLeft: nat, target: string): (m: Stats)
    ensures m.mistakes + CorrectCount(input, target) == |input|
    ensures m.accuracy <= 100
    ensures input == [] ==> m.accuracy == 100 && m.mistakes == 0
    ensures m.wpm == 0 <==> timeLeft >= TestSeconds
  {
    var correct := CorrectCount(input, target);
    Stats(Wpm(WordsTyped(input), timeLeft), Accuracy(correct, |input|), |input| - correct)
  }

  /** The metrics effect: recomputes the three numbers from the state. */
  method ComputeMetrics(input: string, timeLeft: nat, target: string) returns (m: Stats)
    ensures m == MetricsOf(input, timeLeft, target)
  {
    var wpm := Wpm(WordsTyped(input), timeLeft);
    var correct := CountCorrect(input, target);
    m := Stats(wpm, Accuracy(correct, |input|), |input| - correct);
  }

  /** Typing exactly along the target makes no mistake and scores 100%
      accuracy, and no mistake at all happens only then. */
  lemma PrefixIsFlawless(input: string, target: string, timeLeft: nat)
    ensures MetricsOf(input, timeLeft, target).mistakes == 0 <==> IsPrefix(input, target)
    ensures IsPrefix(input, target) ==> MetricsOf(input, timeLeft, target).accuracy == 100
  {
    AllCorrectIffPrefix(input, target);
    if IsPrefix(input, target) && input != [] {
      AccuracyHundredIff(|input|, |input|);
    }
  }

  /** Every character typed beyond the end of the target is a mistake. */
  lemma OverrunIsMistakes(input: string, target: string, timeLeft: nat)
    requires |input| > |target|
    ensures MetricsOf(input, timeLeft, target).mistakes >= |input| - |target|
  {
  }

  lemma OneWordCbt()
    ensures WordsTyped("cbt") == 1
  {
    assert NoSpace("cbt") by {
      assert !IsSpace('c') && !IsSpace('b') && !IsSpace('t');
    }
    TrimOfWord("cbt");
    SplitOfWord("cbt");
  }

  lemma CbtTwoCorrect()
    ensures CorrectCount("cbt", "cat") == 2
  {
    assert "cbt"[..2] == "cb" && "cb"[..1] == "c" && "c"[..0] == "";
  }

  /** With 1 second of 60 elapsed, "cbt" against "cat": two correct
      characters, one mistake, round(200/3) = 67% accuracy, and one word in
      one second is 60 words per minute. */
  lemma ExampleOneTypo()
    ensures MetricsOf("cbt", 59, "cat") == Stats(60, 67, 1)
  {
    CbtTwoCorrect();
    OneWordCbt();
    assert Wpm(1, 59) == 60;
    assert Accuracy(2, 3) == 67;
  }
}
