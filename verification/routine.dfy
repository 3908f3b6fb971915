/** The routine of the component (src/App.tsx): the ten screens, the state
    it keeps in `useState` hooks (lines 8-13), and every button's `onClick`
    handler as one atomic transition guarded by the condition under which
    the button is rendered. The interval of the timer effect is the `Tick`
    event. */
module Routine {
  import opened Wrappers
  import Timer
  import TimeFormat

  /** The screens, in the order of the `Step` union type (line 4). */
  datatype Step =
    | Initial | Workout | Meditation | Stretch | Breakfast
    | Shower | Dressed | Space | Declutter | Complete

  /** The non-null values of `WorkoutType` (line 5). */
  datatype WorkoutType = Home | Gym | Yoga | Cardio

  /** All of the component's state. `countdown` holds `timer` and
      `isTimerRunning`. */
  datatype State = State(
    step: Step,
    sleptWell: Option<bool>,
    workoutType: Option<WorkoutType>,
    countdown: Timer.Countdown,
    streak: nat)

  /** The streak shown before any morning is completed (line 9). */
  const InitialStreak: nat := 5

  /** The state on first render. */
  const Init := State(Initial, None, None, Timer.Idle, InitialStreak)

  /** The user's button presses, plus one firing of the timer interval. */
  datatype Event =
    | AnswerSleep(well: bool)        // "Well Rested" / "Tired"
    | StartMorning                   // "Start Your Morning"
    | ChooseWorkout(kind: WorkoutType)
    | StartTimer
    | Skip
    | Next
    | Done                           // breakfast, shower and dressed screens
    | SpaceAnswer(messy: bool)       // "Yes" / "No" on the space check
    | CompleteMorning
    | Back                           // the arrow in the header
    | Tick

  /** The screens that show a countdown, and its length in seconds. */
  predicate IsTimedStep(step: Step) {
    step.Workout? || step.Meditation? || step.Stretch? || step.Declutter?
  }

  function Duration(step: Step): nat
    requires IsTimedStep(step)
  {
    match step
    case Workout => 1200
    case Meditation => 600
    case Stretch => 300
    case Declutter => 900
  }

  /** The largest duration any screen starts: the workout's. */
  const LongestDuration: nat := Duration(Workout)

  /** What a timed screen shows when `timer` is null. */
  function Placeholder(step: Step): string
    requires IsTimedStep(step)
  {
    match step
    case Workout => "20:00"
    case Meditation => "10:00"
    case Stretch => "5:00"
    case Declutter => "15:00"
  }

  /** The large clock of a timed screen: the formatted value, or the
      placeholder while `timer` is null. */
  function ClockText(s: State): string
    requires IsTimedStep(s.step)
  {
    match s.countdown.remaining
    case Some(t) => TimeFormat.FormatTime(t)
    case None => Placeholder(s.step)
  }

  /** The timer controls of a timed screen are on screen: always on the
      meditation, stretch and declutter screens, and on the workout screen
      once a workout type has been chosen. */
  predicate ShowsTimer(s: State) {
    IsTimedStep(s.step) && (s.step.Workout? ==> s.workoutType.Some?)
  }

  /** The condition under which each button is rendered, read off the JSX
      event by event. The interval fires whatever the screen. */
  predicate Enabled(s: State, e: Event) {
    match e
    case AnswerSleep(_) => s.step.Initial?
    case StartMorning => s.step.Initial? && s.sleptWell.Some?
    case ChooseWorkout(_) => s.step.Workout? && s.workoutType.None?
    case StartTimer => ShowsTimer(s) && !s.countdown.running && s.countdown.remaining.None?
    case Skip => ShowsTimer(s)
    case Next => ShowsTimer(s) && s.countdown.remaining.None?
    case Done => s.step.Breakfast? || s.step.Shower? || s.step.Dressed?
    case SpaceAnswer(_) => s.step.Space?
    case CompleteMorning => s.step.Complete?
    case Back => !s.step.Initial?
    case Tick => true
  }

  /** The state written by "Complete Morning" and by the back arrow: the
      first screen, every answer and the timer cleared, with `streak`. */
  function Fresh(streak: nat): State {
    State(Initial, None, None, Timer.Idle, streak)
  }

  /** The states the component can reach. Leaving the first screen needs a
      sleep answer and only a reset returns to it; the stretch screen is
      only reached from a workout with a chosen type; and the countdown is
      either cleared or running with at most `LongestDuration` left. */
  predicate Inv(s: State) {
    && Timer.Valid(s.countdown)
    && (s.countdown.remaining.Some? ==> s.countdown.remaining.value <= LongestDuration)
    && (s.step.Initial? ==> s.workoutType.None? && s.countdown == Timer.Idle)
    && (!s.step.Initial? ==> s.sleptWell.Some?)
    && (s.step.Workout? ==> s.sleptWell == Some(true))
    && (s.step.Stretch? ==> s.sleptWell == Some(true) && s.workoutType.Some?)
    && (s.step.Meditation? ==> s.sleptWell == Some(false))
    && (s.workoutType.Some? ==> s.sleptWell == Some(true) && !s.step.Initial? && !s.step.Meditation?)
  }

  /** The `onClick` handlers of the two timed-screen buttons and of
      "Start Timer", on a screen whose countdown is `duration` seconds and
      whose successor is `next`. "Skip" is always shown; "Next" only while
      `timer` is null; "Start Timer" only while it is null and stopped. */
  function TimedScreen(s: State, e: Event, duration: nat, next: Step): (r: Option<State>)
    requires next != s.step
    ensures r.Some? && r.value.step == s.step ==>
              r.value == s.(countdown := Timer.Start(duration)) && s.countdown == Timer.Idle
    ensures r.Some? && r.value.step != s.step ==> r.value == s.(step := next)
    ensures r.Some? ==> (r.value.step == s.step <==> e.StartTimer?)
    ensures e.Skip? ==> r == Some(s.(step := next))
  {
    match e
    case StartTimer =>
      if !s.countdown.running && s.countdown.remaining.None?
      then Some(s.(countdown := Timer.Start(duration)))
      else None
    case Skip => Some(s.(step := next))
    case Next => if s.countdown.remaining.None? then Some(s.(step := next)) else None
    case _ => None
  }

  /** The "Done" button of the breakfast, shower and dressed screens. */
  function DoneScreen(s: State, e: Event, next: Step): (r: Option<State>)
    requires next != s.step
    ensures r.Some? <==> e.Done?
    ensures r.Some? ==> r.value == s.(step := next)
  {
    match e
    case Done => Some(s.(step := next))
    case _ => None
  }

  /** The buttons of `renderStep`, screen by screen. */
  function OnScreen(s: State, e: Event): Option<State>
  {
    match s.step
    case Initial =>
      (match e
       case AnswerSleep(well) => Some(s.(sleptWell := Some(well)))
       case StartMorning =>
         if s.sleptWell.Some?
         then Some(s.(step := if s.sleptWell.value then Workout else Meditation))
         else None
       case _ => None)
    case Workout =>
      if s.workoutType.None? then
        (match e
         case ChooseWorkout(kind) => Some(s.(workoutType := Some(kind)))
         case _ => None)
      else TimedScreen(s, e, Duration(Workout), Stretch)
    case Meditation => TimedScreen(s, e, Duration(Meditation), Breakfast)
    case Stretch => TimedScreen(s, e, Duration(Stretch), Breakfast)
    case Breakfast => DoneScreen(s, e, Shower)
    case Shower => DoneScreen(s, e, Dressed)
    case Dressed => DoneScreen(s, e, Space)
    case Space =>
      (match e
       case SpaceAnswer(messy) => Some(s.(step := if messy then Declutter else Complete))
       case _ => None)
    case Declutter => TimedScreen(s, e, Duration(Declutter), Complete)
    case Complete =>
      (match e
       case CompleteMorning => Some(Fresh(s.streak + 1))
       case _ => None)
  }

  /** One event: the header's back arrow (shown off the first screen), one
      firing of the interval, or a button of the current screen. None when
      the button is not on screen. */
  function Transition(s: State, e: Event): (r: Option<State>)
    ensures r.Some? <==> Enabled(s, e)
    ensures r.Some? && e.CompleteMorning? ==> r.value.streak == s.streak + 1
    ensures r.Some? && !e.CompleteMorning? ==> r.value.streak == s.streak
  {
    match e
    case Tick => Some(s.(countdown := Timer.Tick(s.countdown)))
    case Back => if !s.step.Initial? then Some(Fresh(s.streak)) else None
    case _ => OnScreen(s, e)
  }

  /** The number of "Complete Morning" presses in `events`. */
  function Completions(events: seq<Event>): nat
    decreases |events|
  {
    if events == [] then 0
    else (if events[0].CompleteMorning? then 1 else 0) + Completions(events[1..])
  }

  /** A sequence of events applied in order; None as soon as one of them
      is a button that is not on screen. The streak grows by exactly the
      number of completed mornings. */
  function Run(s: State, events: seq<Event>): (r: Option<State>)
    ensures r.Some? ==> r.value.streak == s.streak + Completions(events)
    decreases |events|
  {
    if events == [] then Some(s)
    else
      match Transition(s, events[0])
      case None => None
      case Some(t) => Run(t, events[1..])
  }

  /** Every button of a screen keeps the invariant. */
  lemma OnScreenKeepsInv(s: State, e: Event)
    requires Inv(s) && OnScreen(s, e).Some?
    ensures Inv(OnScreen(s, e).value)
  {
  }

  /** Every event keeps the invariant: the interval only counts down a
      valid countdown, the back arrow writes the reset state. */
  lemma TransitionKeepsInv(s: State, e: Event)
    requires Inv(s) && Transition(s, e).Some?
    ensures Inv(Transition(s, e).value)
  {
    match e
    case Tick =>
    case Back =>
    case _ => OnScreenKeepsInv(s, e);
  }

  /** A run that starts in a state satisfying the invariant stays in such
      states. */
  lemma {:induction false} RunKeepsInv(s: State, events: seq<Event>)
    requires Inv(s) && Run(s, events).Some?
    ensures Inv(Run(s, events).value)
    decreases |events|
  {
    if events != [] {
      TransitionKeepsInv(s, events[0]);
      RunKeepsInv(Transition(s, events[0]).value, events[1..]);
    }
  }
}
