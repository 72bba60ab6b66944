/** The session of the App component: the state fields that its event
    handlers and effects change, each transition as a function on the
    state, the invariant every reachable state keeps, and the component
    itself as a class whose methods perform the transitions in place. The
    metrics are not stored: they are MetricsOf the current state, which is
    what the metrics effect recomputes after every change of the typed text,
    the clock or the paragraph. */
module Session {
  import opened Metrics

  /** The state fields of App that the transitions change. */
  datatype State = State(
    target: string,
    input: string,
    timeLeft: nat,
    isRunning: bool,
    showModal: bool,
    playSound: bool,
    darkMode: bool)

  /** Idle before the first keystroke, Running while the clock counts down,
      Finished once it reaches zero. */
  datatype Status = Idle | Running | Finished

  function StatusOf(s: State): Status
  {
    if s.timeLeft == 0 then Finished else if s.isRunning then Running else Idle
  }

  /** What holds in every state the transitions can reach: the clock stays
      within the test length and stops at zero, an idle session has its full
      time and nothing typed, and the modal and the sound request only come
      with time up. */
  predicate Inv(s: State)
  {
    && s.timeLeft <= TestSeconds
    && (s.timeLeft == 0 ==> !s.isRunning)
    && (!s.isRunning && s.timeLeft > 0 ==> s.timeLeft == TestSeconds && s.input == [])
    && (s.showModal ==> s.timeLeft == 0)
    && (s.playSound ==> s.timeLeft == 0)
  }

  /** The metrics shown for a state. */
  function Shown(s: State): Stats
  {
    MetricsOf(s.input, s.timeLeft, s.target)
  }

  /** The state when the page loads with paragraph target: idle, full time,
      nothing typed, light theme, and the initial metrics 0 wpm, 100%
      accuracy, 0 mistakes agree with what the metrics effect computes. */
  function Initial(target: string): (s: State)
    ensures Inv(s) && StatusOf(s) == Idle
    ensures s.input == [] && s.timeLeft == TestSeconds && !s.showModal && !s.playSound && !s.darkMode
    ensures Shown(s) == Stats(0, 100, 0)
  {
    State(target, [], TestSeconds, false, false, false, false)
  }

  /** One step of the timer. While the session runs with time left, the
      pending timeout fires and takes one second off; the timer effect then
      sees the new value, and when it is zero it stops the session, shows
      the modal and asks for the completion sound. Otherwise no timeout is
      pending and nothing changes. The typed text, the paragraph and the
      theme are never touched. */
  function Tick(s: State): (r: State)
    ensures Inv(s) ==> Inv(r)
    ensures r.target == s.target && r.input == s.input && r.darkMode == s.darkMode
    ensures s.isRunning && s.timeLeft > 0 ==> r.timeLeft == s.timeLeft - 1
    ensures !(s.isRunning && s.timeLeft > 0) ==> r == s
    ensures StatusOf(r) == Finished <==> StatusOf(s) == Finished || (s.isRunning && s.timeLeft == 1)
    ensures StatusOf(s) != Finished && StatusOf(r) == Finished ==> !r.isRunning && r.showModal && r.playSound
  {
    if s.isRunning && s.timeLeft > 0 then
      var t := s.(timeLeft := s.timeLeft - 1);
      if t.timeLeft == 0 then t.(isRunning := false, showModal := true, playSound := true) else t
    else
      s
  }

  /** A change of the text area to text. Once time is up the typed text is
      frozen and nothing changes; before that the text is taken as typed
      and the session runs. */
  function Input(s: State, text: string): (r: State)
    ensures Inv(s) ==> Inv(r)
    ensures s.timeLeft == 0 ==> r == s
    ensures s.timeLeft > 0 ==> r.input == text && StatusOf(r) == Running
    ensures r.(input := s.input, isRunning := s.isRunning) == s
  {
    var t := if !s.isRunning && s.timeLeft > 0 then s.(isRunning := true) else s;
    if s.timeLeft == 0 then t else t.(input := text)
  }

  /** The Restart button with a freshly picked paragraph: from any state, a
      new idle session on that paragraph whose metrics read 0 wpm, 100%
      accuracy and 0 mistakes; only the theme survives. */
  function Restart(s: State, newTarget: string): (r: State)
    ensures r == Initial(newTarget).(darkMode := s.darkMode)
    ensures Inv(r) && StatusOf(r) == Idle && Shown(r) == Stats(0, 100, 0)
  {
    s.(target := newTarget, input := [], timeLeft := TestSeconds, isRunning := false,
       showModal := false, playSound := false)
  }

  /** The Close button of the modal: the modal goes away and nothing else
      changes, so the session and its metrics stay as they were. */
  function Close(s: State): (r: State)
    ensures !r.showModal && r.(showModal := s.showModal) == s
    ensures Inv(s) ==> Inv(r)
    ensures StatusOf(r) == StatusOf(s) && Shown(r) == Shown(s)
  {
    s.(showModal := false)
  }

  /** The theme button: flips the theme and nothing else. */
  function ToggleTheme(s: State): (r: State)
    ensures r.darkMode != s.darkMode && r.(darkMode := s.darkMode) == s
    ensures Inv(s) ==> Inv(r)
  {
    s.(darkMode := !s.darkMode)
  }

  /** The sound effect: a requested completion sound is played while the
      modal is shown, and the request is cleared; nothing else changes. */
  function SoundPlayed(s: State): (r: State)
    ensures r.(playSound := s.playSound) == s
    ensures s.showModal ==> !r.playSound
    ensures !s.showModal ==> r == s
    ensures Inv(s) ==> Inv(r)
  {
    if s.playSound && s.showModal then s.(playSound := false) else s
  }

  /** The events that drive the component. */
  datatype Event =
    | TickEvent
    | InputEvent(text: string)
    | RestartEvent(newTarget: string)
    | CloseEvent
    | ToggleThemeEvent
    | SoundEvent

  function Step(s: State, e: Event): State
  {
    match e
    case TickEvent => Tick(s)
    case InputEvent(text) => Input(s, text)
    case RestartEvent(newTarget) => Restart(s, newTarget)
    case CloseEvent => Close(s)
    case ToggleThemeEvent => ToggleTheme(s)
    case SoundEvent => SoundPlayed(s)
  }

  /** The state after the events es, in order. */
  function Run(s: State, es: seq<Event>): State
    decreases |es|
  {
    if es == [] then s else Run(Step(s, es[0]), es[1..])
  }

  /** Every sequence of events keeps the invariant; in particular every
      state reached from page load satisfies it, so the clock never leaves
      [0, 60] and never runs at zero. */
  lemma {:induction false} RunKeepsInv(s: State, es: seq<Event>)
    requires Inv(s)
    ensures Inv(Run(s, es))
    decreases |es|
  {
    if es != [] {
      RunKeepsInv(Step(s, es[0]), es[1..]);
    }
  }

  /** Once time is up, no event short of Restart changes the typed text,
      the paragraph or the metrics: the result is final. */
  lemma {:induction false} FinishedIsFrozen(s: State, es: seq<Event>)
    requires Inv(s) && StatusOf(s) == Finished
    requires forall i :: 0 <= i < |es| ==> !es[i].RestartEvent?
    ensures var r := Run(s, es);
      StatusOf(r) == Finished && r.input == s.input && r.target == s.target && Shown(r) == Shown(s)
    decreases |es|
  {
    if es != [] {
      var t := Step(s, es[0]);
      assert t.input == s.input && t.target == s.target && t.timeLeft == 0;
      FinishedIsFrozen(t, es[1..]);
    }
  }

  /** A running session left alone counts down one second per tick, keeps
      running until the last second, and on the tick that reaches zero
      stops, shows the modal and asks for the sound; the typed text is
      unchanged throughout. */
  lemma {:induction false} Countdown(s: State, es: seq<Event>)
    requires Inv(s) && s.isRunning
    requires |es| <= s.timeLeft
    requires forall i :: 0 <= i < |es| ==> es[i] == TickEvent
    ensures var r := Run(s, es);
      r.timeLeft == s.timeLeft - |es| && r.input == s.input && r.target == s.target &&
      (|es| < s.timeLeft ==> StatusOf(r) == Running) &&
      (|es| == s.timeLeft ==> StatusOf(r) == Finished && r.showModal && r.playSound)
    decreases |es|
  {
    if es != [] {
      var t := Tick(s);
      if s.timeLeft > 1 {
        Countdown(t, es[1..]);
      } else {
        assert es[1..] == [];
      }
    }
  }

  /** Restarting twice on the same paragraph is the same as restarting
      once, and the result does not depend on the session it replaced
      beyond the theme. */
  lemma RestartForgetsSession(s1: State, s2: State, newTarget: string)
    requires s1.darkMode == s2.darkMode
    ensures Restart(Restart(s1, newTarget), newTarget) == Restart(s1, newTarget)
    ensures Restart(s1, newTarget) == Restart(s2, newTarget)
  {
  }

  /** Once any time has elapsed in a reachable state, the speed shown is at
      least 1 word per minute, even with nothing typed: the word count of
      empty text is one. */
  lemma ElapsedTimeShowsSpeed(s: State)
    requires Inv(s) && s.timeLeft < TestSeconds
    ensures Shown(s).wpm >= 1 && Shown(s).accuracy <= 100
  {
  }

  /** The App component. Its fields are the state fields, and each method is
      one event handler or effect, performed in place. */
  class App {
    var target: string
    var input: string
    var timeLeft: nat
    var isRunning: bool
    var showModal: bool
    var playSound: bool
    var darkMode: bool

    /** The state the fields hold. */
    function Snapshot(): State
      reads this
    {
      State(target, input, timeLeft, isRunning, showModal, playSound, darkMode)
    }

    ghost predicate Valid()
      reads this
    {
      Inv(Snapshot())
    }

    /** Page load with the paragraph picked for the first session. */
    constructor (paragraph: string)
      ensures Valid() && Snapshot() == Initial(paragraph)
    {
      target := paragraph;
      input := [];
      timeLeft := TestSeconds;
      isRunning := false;
      showModal := false;
      playSound := false;
      darkMode := false;
    }

    /** The timer effect, at the moment its pending timeout fires. */
    method TimerTick()
      requires Valid()
      modifies this
      ensures Valid() && Snapshot() == Tick(old(Snapshot()))
    {
      if isRunning && timeLeft > 0 {
        timeLeft := timeLeft - 1;
        if timeLeft == 0 {
          isRunning := false;
          showModal := true;
          playSound := true;
        }
      }
    }

    /** handleInput: the text area now holds text. */
    method HandleInput(text: string)
      requires Valid()
      modifies this
      ensures Valid() && Snapshot() == Input(old(Snapshot()), text)
    {
      if !isRunning && timeLeft > 0 {
        isRunning := true;
      }
      if timeLeft == 0 {
        return;
      }
      input := text;
    }

    /** handleRestart, with the newly picked paragraph as a parameter. */
    method HandleRestart(paragraph: string)
      requires Valid()
      modifies this
      ensures Valid() && Snapshot() == Restart(old(Snapshot()), paragraph)
    {
      target := paragraph;
      input := [];
      timeLeft := TestSeconds;
      isRunning := false;
      showModal := false;
      playSound := false;
    }

    /** The Close button of the modal. */
    method HandleClose()
      requires Valid()
      modifies this
      ensures Valid() && Snapshot() == Close(old(Snapshot()))
    {
      showModal := false;
    }

    /** handleToggleTheme. */
    method HandleToggleTheme()
      requires Valid()
      modifies this
      ensures Valid() && Snapshot() == ToggleTheme(old(Snapshot()))
    {
      darkMode := !darkMode;
    }

    /** The sound effect; the playback itself is not modelled. */
    method SoundEffect()
      requires Valid()
      modifies this
      ensures Valid() && Snapshot() == SoundPlayed(old(Snapshot()))
    {
      if playSound && showModal {
        playSound := false;
      }
    }

    /** The metrics effect: the numbers shown for the current state. */
    method CurrentMetrics() returns (m: Stats)
      requires Valid()
      ensures m == Shown(Snapshot())
      ensures m.accuracy <= 100 && (timeLeft < TestSeconds ==> m.wpm >= 1)
    {
      m := ComputeMetrics(input, timeLeft, target);
    }
  }
}
