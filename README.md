# Typing speed test: a verified model of its core

The app shows a paragraph, starts a 60-second clock on the first keystroke,
and measures the typed text against the paragraph. It computes words per
minute, accuracy and the number of mistakes. When the clock reaches zero it
shows a modal with a speed category and three bars. This project models the
`App` component of `Typing_speed_test/src/App.jsx` in four Dafny modules:

- `JsText` (`jstext.dfy`): JavaScript's `trim()` and `split(/\s+/)`. The
  whitespace set is exactly ECMAScript's WhiteSpace and LineTerminator code
  points. `TrimKeepsMiddle` ties the trimmed text to its input, and the
  split of the trimmed text is proved to count the words that an
  independent definition counts.
- `Metrics` (`metrics.dfy`): the metrics effect. The correct-character
  counting loop is a method proved against a recursive specification.
  `Math.round` of a non-negative rational is computed as
  `floor(x + 1/2)` with integer division, so the model has
  `wpm = (120*words + e) div (2*e)` for `e = 60 - timeLeft` elapsed seconds,
  and `accuracy = (200*correct + n) div (2*n)` for `n` typed characters.
- `View` (`view.dfy`): `getCategory`, the sliding window of at most 8
  recently typed characters, the mark of each displayed character
  (correct, incorrect, current) and the widths of the modal's bars.
- `Session` (`session.dfy`): the state fields `target, input, timeLeft,
  isRunning, showModal, playSound, darkMode`. Each transition (timer tick,
  input, restart, close, theme toggle, sound effect) is a function on a
  `State` value. The class `App` holds the same fields and performs each
  transition in place, proved equal to the function. The metrics are not
  stored. They are always `MetricsOf` the current state, which is what the
  metrics effect recomputes after every change.

The four files are verified together, with
`dafny verify jstext.dfy metrics.dfy view.dfy session.dfy` or, with a
resource bound per proof,
`dafny verify --resource-limit 2000000 --verification-time-limit 0 jstext.dfy metrics.dfy view.dfy session.dfy`.

The timer is modelled as one atomic step. The pending timeout fires and
takes a second off. If that reaches zero, the effect's time-up branch runs
in the same step: the session stops, the modal shows and the sound is
requested. With no timeout pending (not running, or already at zero) a tick
changes nothing. The paragraph that `getRandomParagraph` would pick is a
parameter of the constructor and of `Restart`.

The typed text is not append-only: `handleInput` replaces it with whatever
the text area holds, and the model does the same.

## Model

| member | source | states |
|---|---|---|
| `JsText.TrimStart` | Typing_speed_test/src/App.jsx:119 | drops exactly the longest all-whitespace prefix; the result is empty iff the text is all whitespace |
| `JsText.TrimEnd` | Typing_speed_test/src/App.jsx:119 | drops exactly the longest all-whitespace suffix; the result is empty iff the text is all whitespace |
| `JsText.Trim` | Typing_speed_test/src/App.jsx:119 | `trim()`: the result neither starts nor ends with whitespace, and is empty iff the text is all whitespace |
| `JsText.TrimKeepsMiddle` | Typing_speed_test/src/App.jsx:119 | `trim()` returns the input's characters from position k = number of leading whitespace characters on, unchanged; everything before position k and everything after the kept run is whitespace. With `Trim`'s contract, both stripped runs are the longest possible |
| `JsText.Split` | Typing_speed_test/src/App.jsx:119 | `split(/\s+/)`: at least one piece, and no piece contains whitespace |
| `JsText.SplitKeepsText` | Typing_speed_test/src/App.jsx:119 | the pieces, concatenated, are exactly the non-whitespace characters of the text, in order |
| `JsText.SplitOfWord` | Typing_speed_test/src/App.jsx:119 | text without whitespace splits into exactly one piece, itself |
| `JsText.SplitPiecesNonEmpty` | Typing_speed_test/src/App.jsx:119 | on text without trailing whitespace, every piece after the first is non-empty, and so is the first when the text starts with a word |
| `JsText.SplitLength` | Typing_speed_test/src/App.jsx:119 | on text without trailing whitespace, the number of pieces is one more than the number of words starting after the first character |
| `Metrics.WordsTyped` | Typing_speed_test/src/App.jsx:119 | `input.trim().split(/\s+/).length` is at least 1 |
| `Metrics.WordsTypedCountsWords` | Typing_speed_test/src/App.jsx:119 | the word count equals the number of whitespace-separated words, except that empty or whitespace-only text counts as 1 word; there are no words iff the text is all whitespace |
| `Metrics.CorrectCount` | Typing_speed_test/src/App.jsx:123-126 | number of positions where the typed character equals the paragraph's character (undefined past its end); it is at most both lengths |
| `Metrics.CountCorrect` | Typing_speed_test/src/App.jsx:123-126 | the counting loop returns exactly `CorrectCount` |
| `Metrics.AllCorrectIffPrefix` | Typing_speed_test/src/App.jsx:123-126 | every typed character is correct iff the typed text is a prefix of the paragraph |
| `Metrics.BeyondTargetNeverCorrect` | Typing_speed_test/src/App.jsx:124-125 | characters typed past the paragraph's end never count as correct |
| `Metrics.RoundDiv` | Typing_speed_test/src/App.jsx:121 | `Math.round(num/den)`: the nearest integer, with halves rounded up |
| `Metrics.RoundDivMonotone` | Typing_speed_test/src/App.jsx:121 | rounding is monotone in the numerator |
| `Metrics.Wpm` | Typing_speed_test/src/App.jsx:120-121 | 0 when no time has elapsed; otherwise the integer nearest to `60*words/(60-timeLeft)`, which is at least 1 when at least one word is counted |
| `Metrics.WpmMonotoneInWords` | Typing_speed_test/src/App.jsx:120-121 | more words in the same time never lower the speed |
| `Metrics.Accuracy` | Typing_speed_test/src/App.jsx:127 | 100 with nothing typed; otherwise the integer nearest to `100*correct/typed`; always in [0, 100] |
| `Metrics.AccuracyHundredIff` | Typing_speed_test/src/App.jsx:127 | accuracy is 100 iff at most one typed character in 200 is a mistake |
| `Metrics.MetricsOf` | Typing_speed_test/src/App.jsx:117-129 | correct characters plus mistakes equal the typed length; accuracy in [0, 100]; empty input gives 100% and 0 mistakes; wpm is 0 iff no time has elapsed |
| `Metrics.ComputeMetrics` | Typing_speed_test/src/App.jsx:117-129 | the effect's computation returns exactly `MetricsOf` |
| `Metrics.PrefixIsFlawless` | Typing_speed_test/src/App.jsx:123-128 | no mistakes iff the typed text is a prefix of the paragraph, and then accuracy is 100 |
| `Metrics.OverrunIsMistakes` | Typing_speed_test/src/App.jsx:124-128 | every character typed past the paragraph's end is a mistake |
| `Metrics.ExampleOneTypo` | Typing_speed_test/src/App.jsx:117-129 | "cbt" against "cat" after 1 second gives 60 wpm, 67% accuracy and 1 mistake |
| `View.GetCategory` | Typing_speed_test/src/App.jsx:11-16 | Turtle iff wpm < 20, Rabbit iff 20 <= wpm < 40, Cheetah iff 40 <= wpm < 60, Hawk iff wpm >= 60 |
| `View.CategoryMonotone` | Typing_speed_test/src/App.jsx:11-16 | a faster speed never gets a slower category |
| `View.CategoryIsStepsOfTwenty` | Typing_speed_test/src/App.jsx:11-16 | for a non-negative speed, the category's rank is `min(wpm div 20, 3)` |
| `View.Slice` | Typing_speed_test/src/App.jsx:167-168 | `String.prototype.slice` with clamped bounds: the run of characters starting at `from`, as long as the clamped bounds allow |
| `View.SlidingView` | Typing_speed_test/src/App.jsx:165-168 | `startIdx = max(0, len(input) - 8)`; the recent part holds at most 8 characters; the recent part is `target.slice(startIdx, input.length)` in length and character for character, also when the input is longer than the paragraph; when the input is no longer than the paragraph, recent + remaining is the paragraph from `startIdx`; the remaining part is the paragraph after the typed length |
| `View.SpansShowParagraph` | Typing_speed_test/src/App.jsx:189-213 | when the input is no longer than the paragraph, the box shows the paragraph from `startIdx` on, character for character |
| `View.RecentSpansJudgeTyping` | Typing_speed_test/src/App.jsx:190-198 | every recent character is marked correct or incorrect (never unmarked), and correct iff the typed character at its position equals it |
| `View.CurrentMarksNextCharacter` | Typing_speed_test/src/App.jsx:201-213 | the current marker sits only on the first untyped character while time is left; it exists iff the input is shorter than the paragraph, and it shows `target[len(input)]` |
| `View.FlawlessTypingShowsNoError` | Typing_speed_test/src/App.jsx:190-198 | typing along the paragraph leaves no character marked incorrect |
| `View.ModalBars` | Typing_speed_test/src/App.jsx:242-256 | for computed metrics: the wpm bar is in [20, 100] and full iff wpm >= 80; the accuracy bar equals the accuracy; the mistakes bar is in [0, 100] and empty iff the input is a prefix of the paragraph |
| `Session.Initial` | Typing_speed_test/src/App.jsx:82-91 | the load state is idle with full time, empty input, no modal, light theme, and metrics 0 / 100 / 0 |
| `Session.Tick` | Typing_speed_test/src/App.jsx:97-107 | keeps the invariant; never touches input, paragraph or theme; decrements the clock by exactly 1 while running with time left, otherwise changes nothing; the tick from 1 to 0 finishes the session, shows the modal and requests the sound |
| `Session.Input` | Typing_speed_test/src/App.jsx:142-146 | keeps the invariant; at zero time nothing changes; otherwise the input becomes the text and the session runs; no other field changes |
| `Session.Restart` | Typing_speed_test/src/App.jsx:148-159 | from any state, the load state on the new paragraph with the theme kept; idle, metrics 0 / 100 / 0 |
| `Session.Close` | Typing_speed_test/src/App.jsx:259 | hides the modal and changes nothing else; status and metrics unchanged |
| `Session.ToggleTheme` | Typing_speed_test/src/App.jsx:161-163 | flips the theme and nothing else |
| `Session.SoundPlayed` | Typing_speed_test/src/App.jsx:109-115 | with the modal shown, the sound request is cleared; only that flag changes |
| `Session.RunKeepsInv` | Typing_speed_test/src/App.jsx:97-163 | every sequence of events keeps the invariant: the clock stays in [0, 60] and never runs at zero; an idle session has full time and nothing typed; the modal and the sound request come only with time up |
| `Session.FinishedIsFrozen` | Typing_speed_test/src/App.jsx:142-146 | once time is up, no event except Restart changes the input, the paragraph or the metrics |
| `Session.Countdown` | Typing_speed_test/src/App.jsx:97-107 | k ticks from a running session leave `timeLeft - k` seconds; it keeps running until the last tick, which finishes it with the modal and the sound request |
| `Session.RestartForgetsSession` | Typing_speed_test/src/App.jsx:148-159 | Restart is idempotent, and its result depends on the old state only through the theme |
| `Session.ElapsedTimeShowsSpeed` | Typing_speed_test/src/App.jsx:119-121 | once time has elapsed, the speed shown is at least 1, even with nothing typed |
| `Session.App.constructor` | Typing_speed_test/src/App.jsx:82-91 | the fields hold the load state |
| `Session.App.TimerTick` | Typing_speed_test/src/App.jsx:97-107 | the fields change exactly as `Tick` says |
| `Session.App.HandleInput` | Typing_speed_test/src/App.jsx:142-146 | the fields change exactly as `Input` says |
| `Session.App.HandleRestart` | Typing_speed_test/src/App.jsx:148-159 | the fields change exactly as `Restart` says |
| `Session.App.HandleClose` | Typing_speed_test/src/App.jsx:259 | the fields change exactly as `Close` says |
| `Session.App.HandleToggleTheme` | Typing_speed_test/src/App.jsx:161-163 | the fields change exactly as `ToggleTheme` says |
| `Session.App.SoundEffect` | Typing_speed_test/src/App.jsx:109-115 | the fields change exactly as `SoundPlayed` says |
| `Session.App.CurrentMetrics` | Typing_speed_test/src/App.jsx:117-129 | returns the metrics of the current state; accuracy is at most 100 and wpm at least 1 once time has elapsed |

## Left out

- `Confetti` (lines 19-79): floating-point particle motion on a canvas, driven by `requestAnimationFrame`. It is purely cosmetic.
- Audio playback (lines 110-112, 178) is a call into the browser. Only the `playSound` and `showModal` flags are modelled.
- Focus and blur of the text area (lines 105, 158) and auto-scroll to the current character (lines 131-140) are DOM side effects on floating-point geometry.
- `getRandomParagraph` (lines 5-7) uses `Math.random`, and `paragraphs.js` is not part of this model. The paragraph is a parameter.
- React scheduling: `setTimeout`, effect ordering and batching of state updates. Each transition is one atomic step. The timer effect's time-up branch can also re-run when `isRunning` flips at zero; it only re-sets the same flags, so it is folded into `Tick`.
- Metrics.Accuracy: uses exact rational rounding. JavaScript evaluates `(correct / n) * 100` in doubles, which can land just below a half; for 29 of 200 correct it gives 14.499999999999998 and shows 14, and for 23 of 40 it gives 57.49999999999999 and shows 57, where the model gives 15 and 58.
- Metrics.Wpm: uses exact rational rounding. The program evaluates `words / ((60 - timeLeft) / 60)` in doubles, which could in principle differ from it at exact halves; for every whole `timeLeft` in 0..59 and every word count below 20000 the double result rounds the same way, so the difference is only theoretical.
- Strings are sequences of Unicode scalar values. JavaScript indexes UTF-16 code units, so lengths, positions and window slices differ for characters outside the Basic Multilingual Plane.
- View.Slice: takes non-negative bounds only. The app never passes negative ones, which JavaScript counts from the end.
- Rendering: JSX markup, CSS classes, colours on screen, the disabled state of the text area (its effect on input is modelled by the guard in `handleInput`).
