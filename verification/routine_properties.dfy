/** What the routine promises: the branch on the sleep answer, the forward
    transition table, the two resets, where the streak comes from, which
    screens can be reached, and how the countdown runs inside the routine. */
module RoutineProperties {
  import opened Wrappers
  import Timer
  import TimeFormat
  import opened Routine

  /** The buttons that move to another screen without resetting. */
  predicate IsForward(e: Event) {
    e.StartMorning? || e.Skip? || e.Next? || e.Done? || e.SpaceAnswer?
  }

  /** The forward transition table, screen by screen. */
  function Successors(step: Step): set<Step> {
    match step
    case Initial => {Workout, Meditation}
    case Workout => {Stretch}
    case Meditation => {Breakfast}
    case Stretch => {Breakfast}
    case Breakfast => {Shower}
    case Shower => {Dressed}
    case Dressed => {Space}
    case Space => {Declutter, Complete}
    case Declutter => {Complete}
    case Complete => {}
  }

  // ---------------------------------------------------------------------
  // The first screen

  /** The sleep answer can be given and changed on the first screen only,
      and never moves off it; the last answer given is the one kept. */
  lemma SleepAnswerKeepsStep(s: State, first: bool, second: bool)
    ensures Transition(s, AnswerSleep(first)).Some? <==> s.step.Initial?
    ensures s.step.Initial? ==>
              Transition(s, AnswerSleep(first)) == Some(s.(sleptWell := Some(first)))
    ensures s.step.Initial? ==>
              Run(s, [AnswerSleep(first), AnswerSleep(second)]) == Transition(s, AnswerSleep(second))
  {
    if s.step.Initial? {
      var t := s.(sleptWell := Some(first));
      var u := s.(sleptWell := Some(second));
      assert Transition(t, AnswerSleep(second)) == Some(u);
      assert Run(u, []) == Some(u);
      assert Run(t, [AnswerSleep(second)]) == Some(u);
    }
  }

  /** "Start Your Morning" is on screen exactly when the sleep question has
      been answered, and leads to the workout after a good night and to the
      meditation after a bad one. */
  lemma StartMorningBranches(s: State)
    ensures Transition(s, StartMorning).Some? <==> s.step.Initial? && s.sleptWell.Some?
    ensures s.step.Initial? && s.sleptWell == Some(true) ==>
              Transition(s, StartMorning) == Some(s.(step := Workout))
    ensures s.step.Initial? && s.sleptWell == Some(false) ==>
              Transition(s, StartMorning) == Some(s.(step := Meditation))
  {
  }

  // ---------------------------------------------------------------------
  // The forward table

  /** A forward button moves along the table and changes nothing but the
      screen: a running countdown, the workout type, the sleep answer and
      the streak are carried over unchanged. */
  lemma ForwardFollowsTable(s: State, e: Event)
    requires IsForward(e) && Transition(s, e).Some?
    ensures Transition(s, e).value.step in Successors(s.step)
    ensures Transition(s, e) == Some(s.(step := Transition(s, e).value.step))
  {
  }

  /** Every entry of the table is taken by some forward button, from a
      state satisfying the invariant. */
  lemma ForwardTableRealised(from: Step, to: Step)
    requires to in Successors(from)
    ensures exists s: State, e: Event ::
              Inv(s) && s.step == from && IsForward(e) && Transition(s, e) == Some(s.(step := to))
  {
    var track := from.Workout? || from.Stretch?;
    var s := State(from, if from.Initial? then Some(to.Workout?) else Some(track),
                   if track then Some(Home) else None, Timer.Idle, InitialStreak);
    assert Inv(s);
    var e: Event :=
      match from
      case Initial => StartMorning
      case Space => SpaceAnswer(to.Declutter?)
      case Breakfast => Done
      case Shower => Done
      case Dressed => Done
      case _ => Skip;
    assert Transition(s, e) == Some(s.(step := to));
  }

  /** "Skip" and "Next" lead to the same screen; "Next" is the one that is
      hidden while `timer` is set. */
  lemma SkipAndNextAgree(s: State)
    ensures Transition(s, Next).Some? ==> Transition(s, Skip) == Transition(s, Next)
    ensures Transition(s, Next).Some? <==> Transition(s, Skip).Some? && s.countdown.remaining.None?
  {
  }

  /** The sleep answer, the workout choice, "Start Timer" and the interval
      never change the screen; a workout choice sets the chosen type and
      nothing else, and a workout type is chosen at most once. */
  lemma InScreenEventsKeepStep(s: State, e: Event, other: WorkoutType)
    requires e.AnswerSleep? || e.ChooseWorkout? || e.StartTimer? || e.Tick?
    requires Transition(s, e).Some?
    ensures Transition(s, e).value.step == s.step
    ensures e.ChooseWorkout? ==> Transition(s, e) == Some(s.(workoutType := Some(e.kind)))
    ensures e.ChooseWorkout? ==>
              && s.workoutType.None?
              && Transition(Transition(s, e).value, ChooseWorkout(other)).None?
  {
  }

  // ---------------------------------------------------------------------
  // Completing and going back

  /** "Complete Morning" bumps the streak by one and resets everything
      else; since the first screen follows, it cannot fire twice in a row. */
  lemma CompleteMorningResets(s: State)
    requires s.step.Complete?
    ensures Transition(s, CompleteMorning) == Some(Fresh(s.streak + 1))
    ensures Transition(Fresh(s.streak + 1), CompleteMorning).None?
    ensures Run(s, [CompleteMorning, CompleteMorning]).None?
  {
  }

  /** The back arrow is offered off the first screen only and performs the
      same reset, keeping the streak. */
  lemma BackResets(s: State)
    ensures Transition(s, Back).Some? <==> !s.step.Initial?
    ensures !s.step.Initial? ==> Transition(s, Back) == Some(Fresh(s.streak))
  {
  }

  /** The reset state, seen as a whole: first screen, nothing answered,
      nothing chosen, timer cleared. */
  lemma FreshIsClear(streak: nat)
    ensures var f := Fresh(streak);
            && f.step.Initial? && f.sleptWell.None? && f.workoutType.None?
            && f.countdown.remaining.None? && !f.countdown.running
            && f.streak == streak && Inv(f)
  {
  }

  /** From the final screen every button leads back to the first screen;
      only the interval keeps it where it is. */
  lemma CompleteOnlyResets(s: State, e: Event)
    requires s.step.Complete? && Transition(s, e).Some?
    ensures Transition(s, e).value.step.Initial? || (e.Tick? && Transition(s, e).value.step.Complete?)
  {
  }

  /** The final screen is entered only from the space check or from the
      declutter screen. */
  lemma CompleteEnteredFromSpaceOrDeclutter(s: State, e: Event)
    requires !s.step.Complete? && Transition(s, e).Some? && Transition(s, e).value.step.Complete?
    ensures s.step.Space? || s.step.Declutter?
  {
  }

  // ---------------------------------------------------------------------
  // Runs

  /** A run of `a` then `b` is the run of `b` from where `a` ends. */
  lemma {:induction false} RunAppend(s: State, a: seq<Event>, b: seq<Event>)
    ensures Run(s, a + b) == (if Run(s, a).Some? then Run(Run(s, a).value, b) else None)
    decreases |a|
  {
    if a == [] {
      assert a + b == b;
    } else {
      assert (a + b)[0] == a[0];
      assert (a + b)[1..] == a[1..] + b;
      match Transition(s, a[0])
      case None =>
      case Some(t) => RunAppend(t, a[1..], b);
    }
  }

  /** Event `i` of a run from `s` is pressed on the space check or the
      declutter screen and moves to the final screen. */
  predicate EntersCompleteAt(s: State, events: seq<Event>, i: nat)
    requires i < |events|
  {
    && Run(s, events[..i]).Some?
    && (Run(s, events[..i]).value.step.Space? || Run(s, events[..i]).value.step.Declutter?)
    && Transition(Run(s, events[..i]).value, events[i]).Some?
    && Transition(Run(s, events[..i]).value, events[i]).value.step.Complete?
  }

  /** Every run that reaches the final screen from another screen passes,
      just before, through the space check or the declutter screen. */
  lemma {:induction false} CompleteReachedThroughSpaceOrDeclutter(s: State, events: seq<Event>)
    requires !s.step.Complete?
    requires Run(s, events).Some? && Run(s, events).value.step.Complete?
    ensures exists i :: 0 <= i < |events| && EntersCompleteAt(s, events, i)
    decreases |events|
  {
    assert events != [];
    var t := Transition(s, events[0]).value;
    if t.step.Complete? {
      CompleteEnteredFromSpaceOrDeclutter(s, events[0]);
      assert events[..0] == [];
      assert EntersCompleteAt(s, events, 0);
    } else {
      CompleteReachedThroughSpaceOrDeclutter(t, events[1..]);
      var j :| 0 <= j < |events[1..]| && EntersCompleteAt(t, events[1..], j);
      ShiftEntry(s, t, events, j);
    }
  }

  /** An entry found in the rest of a run is an entry of the whole run,
      one position later. */
  lemma ShiftEntry(s: State, t: State, events: seq<Event>, j: nat)
    requires events != [] && Transition(s, events[0]) == Some(t)
    requires j < |events| - 1 && EntersCompleteAt(t, events[1..], j)
    ensures EntersCompleteAt(s, events, j + 1)
  {
    assert events[..j + 1] == [events[0]] + events[1..][..j];
    RunAppend(s, [events[0]], events[1..][..j]);
    assert Run(s, [events[0]]) == Some(t) by {
      assert Run(t, []) == Some(t);
    }
    assert events[j + 1] == events[1..][j];
  }

  /** A state is reachable when some run from the first render ends in it. */
  ghost predicate Reachable(s: State) {
    exists events :: Run(Init, events) == Some(s)
  }

  /** Every reachable state satisfies the invariant and shows a streak of
      at least the initial five. */
  lemma ReachableStates(s: State)
    requires Reachable(s)
    ensures Inv(s) && s.streak >= InitialStreak
  {
    var events :| Run(Init, events) == Some(s);
    RunKeepsInv(Init, events);
  }

  /** Every screen is reachable from the first render. */
  lemma EveryStepReachable(step: Step)
    ensures exists events :: Run(Init, events).Some? && Run(Init, events).value.step == step
  {
    var events, s := RunTo(step);
  }

  /** How many screens lie before `step` on its shortest path. */
  function Depth(step: Step): nat {
    match step
    case Initial => 0
    case Workout => 1
    case Meditation => 1
    case Stretch => 2
    case Breakfast => 2
    case Shower => 3
    case Dressed => 4
    case Space => 5
    case Declutter => 6
    case Complete => 6
  }

  /** A run from the first render to `step`, built screen by screen. */
  lemma RunTo(step: Step) returns (events: seq<Event>, s: State)
    ensures Run(Init, events) == Some(s) && s.step == step && Inv(s)
    decreases Depth(step)
  {
    match step
    case Initial =>
      events, s := [], Init;
    case Workout =>
      events, s := RunTo(Initial);
      events, s := Press(events, s, AnswerSleep(true));
      events, s := Press(events, s, StartMorning);
    case Meditation =>
      events, s := RunTo(Initial);
      events, s := Press(events, s, AnswerSleep(false));
      events, s := Press(events, s, StartMorning);
    case Stretch =>
      events, s := RunTo(Workout);
      if s.workoutType.None? {
        events, s := Press(events, s, ChooseWorkout(Home));
      }
      events, s := Press(events, s, Skip);
    case Breakfast =>
      events, s := RunTo(Meditation);
      events, s := Press(events, s, Skip);
    case Shower =>
      events, s := RunTo(Breakfast);
      events, s := Press(events, s, Done);
    case Dressed =>
      events, s := RunTo(Shower);
      events, s := Press(events, s, Done);
    case Space =>
      events, s := RunTo(Dressed);
      events, s := Press(events, s, Done);
    case Declutter =>
      events, s := RunTo(Space);
      events, s := Press(events, s, SpaceAnswer(true));
    case Complete =>
      events, s := RunTo(Space);
      events, s := Press(events, s, SpaceAnswer(false));
  }

  /** A reachable run extended by one button that is on screen. */
  lemma Press(events: seq<Event>, s: State, e: Event) returns (events': seq<Event>, t: State)
    requires Run(Init, events) == Some(s) && Inv(s) && Enabled(s, e)
    ensures Run(Init, events') == Some(t) && Transition(s, e) == Some(t) && Inv(t)
  {
    ExtendRun(Init, events, e);
    TransitionKeepsInv(s, e);
    events', t := events + [e], Transition(s, e).value;
  }

  /** A run extended by one event. */
  lemma ExtendRun(s: State, events: seq<Event>, e: Event)
    requires Run(s, events).Some?
    ensures Run(s, events + [e]) == Transition(Run(s, events).value, e)
  {
    RunAppend(s, events, [e]);
    var t := Run(s, events).value;
    match Transition(t, e)
    case None =>
    case Some(u) => assert Run(u, []) == Some(u);
  }

  // ---------------------------------------------------------------------
  // The countdown inside the routine

  /** `k` firings of the interval. */
  function TickEvents(k: nat): (events: seq<Event>)
    ensures |events| == k
    ensures forall i :: 0 <= i < k ==> events[i].Tick?
  {
    if k == 0 then [] else [Tick] + TickEvents(k - 1)
  }

  /** The interval touches the countdown only: `k` firings leave the screen
      and the answers alone and tick the countdown `k` times. */
  lemma {:induction false} RunTicks(s: State, k: nat)
    ensures Run(s, TickEvents(k)) == Some(s.(countdown := Timer.Ticks(s.countdown, k)))
    decreases k
  {
    if k > 0 {
      var t := s.(countdown := Timer.Tick(s.countdown));
      assert Transition(s, Tick) == Some(t);
      RunTicks(t, k - 1);
    }
  }

  /** "Start Timer" is on screen exactly when the timer controls are shown
      and `timer` is null and stopped; it starts that screen's duration. */
  lemma StartTimerStartsDuration(s: State)
    ensures Transition(s, StartTimer).Some? <==>
              ShowsTimer(s) && !s.countdown.running && s.countdown.remaining.None?
    ensures Transition(s, StartTimer).Some? ==>
              Transition(s, StartTimer) == Some(s.(countdown := Timer.Running(Duration(s.step))))
  {
  }

  /** On a timed screen, "Start Timer" followed by one tick less than the
      duration leaves one second on the clock; one more tick clears the
      timer and stops it, on the same screen. */
  lemma TimedScreenCountsDown(s: State)
    requires Enabled(s, StartTimer)
    ensures var d := Duration(s.step);
            && Run(s, [StartTimer] + TickEvents(d - 1)) == Some(s.(countdown := Timer.Running(1)))
            && Run(s, [StartTimer] + TickEvents(d)) == Some(s.(countdown := Timer.Idle))
  {
    var d := Duration(s.step);
    var started := s.(countdown := Timer.Running(d));
    assert Run(s, [StartTimer]) == Some(started);
    RunAppend(s, [StartTimer], TickEvents(d - 1));
    RunAppend(s, [StartTimer], TickEvents(d));
    RunTicks(started, d - 1);
    RunTicks(started, d);
    Timer.CountdownFrom(d, d - 1);
    Timer.CountdownFrom(d, d);
  }

  /** In a reachable state the interval does nothing while the timer is
      stopped. */
  lemma StoppedTickIsNoOp(s: State)
    requires Inv(s) && !s.countdown.running
    ensures Transition(s, Tick) == Some(s)
  {
  }

  /** The clock of a freshly started screen reads exactly what the screen
      showed as its placeholder before the start. */
  lemma StartedClockMatchesPlaceholder(step: Step)
    requires IsTimedStep(step)
    ensures TimeFormat.FormatTime(Duration(step)) == Placeholder(step)
  {
    var mins := Duration(step) / 60;
    TimeFormat.WholeMinutes(Duration(step), mins);
    MinutesNumeral(step);
  }

  /** The minutes numerals of the four durations. */
  lemma MinutesNumeral(step: Step)
    requires IsTimedStep(step)
    ensures TimeFormat.Decimal(Duration(step) / 60) + ":00" == Placeholder(step)
  {
    match step
    case Workout => assert TimeFormat.Decimal(20) == "20";
    case Meditation => assert TimeFormat.Decimal(10) == "10";
    case Stretch => assert TimeFormat.Decimal(5) == "5";
    case Declutter => assert TimeFormat.Decimal(15) == "15";
  }

  // ---------------------------------------------------------------------
  // Scenarios

  /** A running countdown is carried over when the user skips ahead: after
      one second of meditation the breakfast screen shows 599 seconds,
      still running. */
  lemma RunningTimerCarriesOver(streak: nat)
    ensures Run(Fresh(streak), [AnswerSleep(false), StartMorning, StartTimer, Tick, Skip])
            == Some(State(Breakfast, Some(false), None, Timer.Running(599), streak))
  {
    var m := Morning(streak, false);
    WakeUp(streak, false);
    TickThenSkip(m);
    Compose(Fresh(streak), [AnswerSleep(false), StartMorning], [StartTimer, Tick, Skip],
            m, m.(step := Breakfast, countdown := Timer.Running(599)));
    assert [AnswerSleep(false), StartMorning] + [StartTimer, Tick, Skip]
        == [AnswerSleep(false), StartMorning, StartTimer, Tick, Skip];
  }

  /** Because forward buttons leave the timer alone, a meditation timer
      started and skipped is still set on the declutter screen, where
      neither "Start Timer" nor "Next" is offered, only "Skip". */
  lemma LeftoverTimerOnDeclutter(streak: nat)
    ensures Run(Fresh(streak), MeditationSkippedToDeclutter()) == Some(LeftoverDeclutter(streak))
    ensures var d := LeftoverDeclutter(streak);
            && d.countdown == Timer.Running(Duration(Meditation))
            && !Enabled(d, StartTimer) && !Enabled(d, Next) && Enabled(d, Skip)
  {
    var b := Morning(streak, false).(step := Breakfast, countdown := Timer.Running(600));
    SkippedMeditation(streak);
    MessyFromBreakfast(b);
    Compose(Fresh(streak), [AnswerSleep(false), StartMorning, StartTimer, Skip],
            [Done, Done, Done, SpaceAnswer(true)], b, LeftoverDeclutter(streak));
    assert [AnswerSleep(false), StartMorning, StartTimer, Skip] + [Done, Done, Done, SpaceAnswer(true)]
        == MeditationSkippedToDeclutter();
  }

  /** The declutter screen with the meditation's timer still set. */
  function LeftoverDeclutter(streak: nat): State {
    State(Declutter, Some(false), None, Timer.Running(600), streak)
  }

  /** Its clock shows the meditation's "10:00" rather than the declutter
      screen's "15:00". */
  lemma LeftoverDeclutterClock(streak: nat)
    ensures ClockText(LeftoverDeclutter(streak)) == Placeholder(Meditation)
    ensures ClockText(LeftoverDeclutter(streak)) != Placeholder(Declutter)
  {
    StartedClockMatchesPlaceholder(Meditation);
  }

  /** Tired; meditation timer started and skipped; the space found messy. */
  function MeditationSkippedToDeclutter(): seq<Event> {
    [AnswerSleep(false), StartMorning, StartTimer, Skip, Done, Done, Done, SpaceAnswer(true)]
  }

  /** A good night, a gym workout, no clutter: the morning completes, the
      routine is back on a cleared first screen and the streak is one
      higher (six on the first morning). */
  lemma GoodMorning(streak: nat)
    ensures Run(Fresh(streak), MorningWithGym()) == Some(Fresh(streak + 1))
  {
    var b := Morning(streak, true).(step := Breakfast, workoutType := Some(Gym));
    GymUntilBreakfast(streak);
    TidyFromBreakfast(b);
    Compose(Fresh(streak), [AnswerSleep(true), StartMorning, ChooseWorkout(Gym), Next, Next],
            [Done, Done, Done, SpaceAnswer(false), CompleteMorning], b, Fresh(streak + 1));
    assert [AnswerSleep(true), StartMorning, ChooseWorkout(Gym), Next, Next]
           + [Done, Done, Done, SpaceAnswer(false), CompleteMorning] == MorningWithGym();
  }

  /** The first morning after the first render shows a streak of six. */
  lemma FirstMorning()
    ensures Run(Init, MorningWithGym()) == Some(Fresh(6))
  {
    assert Init == Fresh(InitialStreak);
    GoodMorning(InitialStreak);
  }

  /** The buttons of that morning. */
  function MorningWithGym(): seq<Event> {
    [AnswerSleep(true), StartMorning, ChooseWorkout(Gym), Next, Next,
     Done, Done, Done, SpaceAnswer(false), CompleteMorning]
  }

  /** The screen after the sleep answer and "Start Your Morning". */
  function Morning(streak: nat, well: bool): State {
    State(if well then Workout else Meditation, Some(well), None, Timer.Idle, streak)
  }

  /** The sleep answer and "Start Your Morning" lead to the workout or the
      meditation screen. */
  lemma WakeUp(streak: nat, well: bool)
    ensures Run(Fresh(streak), [AnswerSleep(well), StartMorning]) == Some(Morning(streak, well))
  {
    var s1 := Fresh(streak).(sleptWell := Some(well));
    assert Transition(Fresh(streak), AnswerSleep(well)) == Some(s1);
    assert Transition(s1, StartMorning) == Some(Morning(streak, well));
    RunStep(s1, [AnswerSleep(well), StartMorning], 1, Morning(streak, well));
    RunStep(Fresh(streak), [AnswerSleep(well), StartMorning], 0, s1);
  }

  /** Starting the meditation timer and skipping it reaches breakfast with
      the full ten minutes still set. */
  lemma StartThenSkip(m: State)
    requires m.step == Meditation && m.workoutType.None? && m.countdown == Timer.Idle
    ensures Run(m, [StartTimer, Skip]) == Some(m.(step := Breakfast, countdown := Timer.Running(600)))
  {
    var s1 := m.(countdown := Timer.Running(600));
    assert Transition(m, StartTimer) == Some(s1);
    RunStep(s1, [StartTimer, Skip], 1, s1.(step := Breakfast));
    RunStep(m, [StartTimer, Skip], 0, s1);
  }

  /** The same with one firing of the interval in between. */
  lemma TickThenSkip(m: State)
    requires m.step == Meditation && m.workoutType.None? && m.countdown == Timer.Idle
    ensures Run(m, [StartTimer, Tick, Skip])
            == Some(m.(step := Breakfast, countdown := Timer.Running(599)))
  {
    var events := [StartTimer, Tick, Skip];
    var s1 := m.(countdown := Timer.Running(600));
    var s2 := m.(countdown := Timer.Running(599));
    assert Transition(m, StartTimer) == Some(s1);
    RunStep(s2, events, 2, s2.(step := Breakfast));
    RunStep(s1, events, 1, s2);
    RunStep(m, events, 0, s1);
  }

  /** A good night and a gym workout, skipped through with "Next", up to
      breakfast. */
  lemma GymUntilBreakfast(streak: nat)
    ensures Run(Fresh(streak), [AnswerSleep(true), StartMorning, ChooseWorkout(Gym), Next, Next])
            == Some(Morning(streak, true).(step := Breakfast, workoutType := Some(Gym)))
  {
    var w := Morning(streak, true);
    WakeUp(streak, true);
    GymWorkout(w);
    Compose(Fresh(streak), [AnswerSleep(true), StartMorning], [ChooseWorkout(Gym), Next, Next],
            w, w.(step := Breakfast, workoutType := Some(Gym)));
  }

  /** A bad night and a started, skipped meditation, up to breakfast. */
  lemma SkippedMeditation(streak: nat)
    ensures Run(Fresh(streak), [AnswerSleep(false), StartMorning, StartTimer, Skip])
            == Some(Morning(streak, false).(step := Breakfast, countdown := Timer.Running(600)))
  {
    var m := Morning(streak, false);
    WakeUp(streak, false);
    StartThenSkip(m);
    Compose(Fresh(streak), [AnswerSleep(false), StartMorning], [StartTimer, Skip],
            m, m.(step := Breakfast, countdown := Timer.Running(600)));
  }

  /** From breakfast to the completed morning with a tidy space. */
  lemma TidyFromBreakfast(b: State)
    requires b.step == Breakfast
    ensures Run(b, [Done, Done, Done, SpaceAnswer(false), CompleteMorning]) == Some(Fresh(b.streak + 1))
  {
    ThreeDone(b);
    TidySpaceCompletes(b.(step := Space));
    Compose(b, [Done, Done, Done], [SpaceAnswer(false), CompleteMorning], b.(step := Space), Fresh(b.streak + 1));
  }

  /** From breakfast to the declutter screen with a messy space. */
  lemma MessyFromBreakfast(b: State)
    requires b.step == Breakfast
    ensures Run(b, [Done, Done, Done, SpaceAnswer(true)]) == Some(b.(step := Declutter))
  {
    var sp := b.(step := Space);
    ThreeDone(b);
    RunStep(sp, [SpaceAnswer(true)], 0, b.(step := Declutter));
    Compose(b, [Done, Done, Done], [SpaceAnswer(true)], sp, b.(step := Declutter));
  }

  /** Choosing the gym and pressing "Next" twice, through the stretch. */
  lemma GymWorkout(w: State)
    requires w.step == Workout && w.workoutType.None? && w.countdown == Timer.Idle
    ensures Run(w, [ChooseWorkout(Gym), Next, Next])
            == Some(w.(step := Breakfast, workoutType := Some(Gym)))
  {
    var events := [ChooseWorkout(Gym), Next, Next];
    var s1 := w.(workoutType := Some(Gym));
    var s2 := s1.(step := Stretch);
    RunStep(s2, events, 2, s2.(step := Breakfast));
    RunStep(s1, events, 1, s2);
    RunStep(w, events, 0, s1);
  }

  /** "Done" three times leads from breakfast past the shower and getting
      dressed to the space question. */
  lemma ThreeDone(b: State)
    requires b.step == Breakfast
    ensures Run(b, [Done, Done, Done]) == Some(b.(step := Space))
  {
    var events := [Done, Done, Done];
    RunStep(b.(step := Dressed), events, 2, b.(step := Space));
    RunStep(b.(step := Shower), events, 1, b.(step := Dressed));
    RunStep(b, events, 0, b.(step := Shower));
  }

  /** A tidy space leads to the final screen, and completing resets. */
  lemma TidySpaceCompletes(sp: State)
    requires sp.step == Space
    ensures Run(sp, [SpaceAnswer(false), CompleteMorning]) == Some(Fresh(sp.streak + 1))
  {
    var events := [SpaceAnswer(false), CompleteMorning];
    var c := sp.(step := Complete);
    RunStep(c, events, 1, Fresh(sp.streak + 1));
    RunStep(sp, events, 0, c);
  }

  /** Two runs one after the other. */
  lemma Compose(s: State, a: seq<Event>, b: seq<Event>, t: State, u: State)
    requires Run(s, a) == Some(t) && Run(t, b) == Some(u)
    ensures Run(s, a + b) == Some(u)
  {
    RunAppend(s, a, b);
  }

  /** One step of a run, read from the back. */
  lemma RunStep(s: State, events: seq<Event>, i: nat, t: State)
    requires i < |events| && Transition(s, events[i]) == Some(t)
    ensures Run(s, events[i..]) == Run(t, events[i + 1..])
  {
    assert events[i..][1..] == events[i + 1..];
  }
}
