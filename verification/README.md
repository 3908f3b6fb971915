# Rise morning routine — a Dafny model

Rise is a single-component React app that guides a user through a morning
routine. It asks how they slept, then goes through a workout and a stretch,
or a meditation, then breakfast, a shower, getting dressed, a check of the
space and an optional declutter. It ends on a completion screen that raises a "day
streak". All of its logic sits in `src/App.tsx`: six `useState` hooks, a
`useEffect` that runs a one-second countdown, `formatTime`, `startTimer`,
and the `onClick` handler of every button.

This project models that logic as pure Dafny:

- `wrappers.dfy`: `Option`, used for the component's nullable fields.
- `timer.dfy` (module `Timer`): the countdown (`timer`, `isTimerRunning`),
  `startTimer`, and the interval effect. One firing of the interval is
  one `Tick`.
- `time_format.dfy` (module `TimeFormat`): `formatTime` as an `m:ss`
  rendering, built on decimal numerals and `padStart`. A parser serves as
  its inverse, and both round trips are proved.
- `routine.dfy` (module `Routine`):
  - the `Step` and `WorkoutType` types and the state record;
  - `Enabled`, the render condition of every button, read event by event
    from the JSX;
  - `Transition`, every handler, written screen by screen as `renderStep`
    is;
  - `Run`, which applies a sequence of events.
- `routine_properties.dfy` (module `RoutineProperties`) proves:
  - the branch on the sleep answer and the forward transition table;
  - the two resets;
  - where the streak comes from;
  - that every screen is reachable;
  - how a countdown runs inside the routine.

A button that is not rendered cannot be pressed. `Transition` returns
`None` for it, and `Transition(s, e).Some?` holds exactly when
`Enabled(s, e)`.

Forward buttons only call `setCurrentStep`, so a timer that is running or
set carries over to the next screens. `RunningTimerCarriesOver` and
`LeftoverTimerOnDeclutter` prove this behaviour. For example, a meditation
timer that was started and skipped is still set on the declutter screen
if the user gets there before the interval fires. That screen's clock then
shows "10:00", not "15:00", and of the timer buttons only "Skip" is
offered.

## Model

| member | source | states |
|---|---|---|
| Timer.Start | src/App.tsx:36-39 | starting with a positive duration sets the value to it and sets the running flag; the result is a valid countdown; a zero duration is cleared at once, as the effect's `timer === 0` branch does |
| Timer.Tick | src/App.tsx:15-28 | while running above one second, a tick takes off exactly one; at one second it stops and clears; a stopped timer is untouched; validity is kept and the value never grows |
| Timer.CountdownFrom | src/App.tsx:15-28 | from `n` seconds running, `k < n` ticks leave `n - k` running, and exactly `n` ticks leave it stopped and cleared |
| Timer.IdleStaysIdle | src/App.tsx:17-24 | any number of ticks leaves a cleared timer cleared |
| Timer.StartThenCountdown | src/App.tsx:15-39 | after `start(d)`, `d - 1` ticks leave 1 second, `d` ticks clear and stop it, and further ticks change nothing |
| TimeFormat.Decimal | src/App.tsx:33 | the numeral printed for a natural number is canonical: digits only, no leading zero, "0" only for zero, and one digit exactly below ten |
| TimeFormat.PadStart | src/App.tsx:33 | `padStart` keeps a long enough string, and otherwise fills it at the front up to the width, ending in the original string |
| TimeFormat.DecimalRoundTrip | src/App.tsx:31-33 | reading back the printed numeral of `n` gives `n` |
| TimeFormat.CanonicalRoundTrip | src/App.tsx:31-33 | every canonical numeral is the printing of its own value |
| TimeFormat.FormatTime | src/App.tsx:30-34 | the text before the colon is a canonical numeral worth `seconds / 60`; after it come exactly two digits worth `seconds % 60` |
| TimeFormat.ParseFormat | src/App.tsx:30-34 | reading a rendered time gives back the seconds, so no two values render alike |
| TimeFormat.FormatParse | src/App.tsx:30-34 | every text of the `m:ss` shape is the rendering of the value it reads as |
| TimeFormat.FormatExamples | src/App.tsx:30-34 | 65 renders as "1:05", 5 as "0:05", 600 as "10:00" |
| Routine.TimedScreen | src/App.tsx:142-168 | the three buttons of a timed screen (shown for the workout; the meditation, stretch and declutter screens repeat them): "Start Timer" is the only one that keeps the screen, and it starts its duration, only from a cleared countdown; "Skip" always moves to the next screen, and "Skip" and "Next" change nothing else |
| Routine.DoneScreen | src/App.tsx:266-308 | the "Done" button of the breakfast, shower and dressed screens is the one accepted there, and it moves to the next screen and changes nothing else |
| Routine.Transition | src/App.tsx:41-421 | an event is accepted exactly when its button is rendered; "Complete Morning" adds one to the streak, every other event leaves it alone |
| Routine.Run | src/App.tsx:389-396 | along any run the streak grows by exactly the number of "Complete Morning" presses, so it never decreases |
| Routine.OnScreenKeepsInv | src/App.tsx:41-405 | every button of the current screen keeps the reachable-state invariant (answers set before leaving the first screen, a workout type only on the workout track, a valid countdown of at most twenty minutes) |
| Routine.TransitionKeepsInv | src/App.tsx:41-421 | every event, including the interval and the back arrow, keeps that invariant |
| Routine.RunKeepsInv | src/App.tsx:41-421 | a run that starts in a state satisfying the invariant stays in such states |
| RoutineProperties.SleepAnswerKeepsStep | src/App.tsx:63-85 | the sleep answer is taken on the first screen only and never moves off it; answering twice keeps the second answer |
| RoutineProperties.StartMorningBranches | src/App.tsx:88-90 | "Start Your Morning" is offered exactly when the question is answered; it leads to the workout after a good night and to the meditation after a bad one |
| RoutineProperties.ForwardFollowsTable | src/App.tsx:153-372 | every forward button moves along the transition table and changes nothing but the step: timer, running flag, workout type, sleep answer and streak are carried over |
| RoutineProperties.ForwardTableRealised | src/App.tsx:63-372 | every entry of the transition table is taken by some forward button, from a state satisfying the invariant |
| RoutineProperties.SkipAndNextAgree | src/App.tsx:153-168 | "Skip" and "Next" have the same target; "Next" is offered exactly where "Skip" is and the timer is null |
| RoutineProperties.InScreenEventsKeepStep | src/App.tsx:15-150 | the sleep answer, a workout choice, "Start Timer" and a tick never change the step; a workout choice sets the type to the chosen kind and changes nothing else; a workout type is chosen only while none is set, and then not again |
| RoutineProperties.CompleteMorningResets | src/App.tsx:389-396 | "Complete Morning" resets the step, the answers and the timer, adds one to the streak, and cannot fire twice in a row |
| RoutineProperties.BackResets | src/App.tsx:413-421 | the back arrow is offered off the first screen only and performs the same reset with the streak unchanged |
| RoutineProperties.FreshIsClear | src/App.tsx:415-420 | the reset state is on the first screen, with nothing answered or chosen, the timer cleared and stopped, and the invariant holding |
| RoutineProperties.CompleteOnlyResets | src/App.tsx:380-421 | from the completion screen every button returns to the first screen; only a tick stays there |
| RoutineProperties.CompleteEnteredFromSpaceOrDeclutter | src/App.tsx:321-372 | the completion screen is entered only from the space check or the declutter screen |
| RoutineProperties.CompleteReachedThroughSpaceOrDeclutter | src/App.tsx:321-372 | every run that reaches the completion screen takes its last step there from the space check or the declutter screen |
| RoutineProperties.ReachableStates | src/App.tsx:8-13 | every reachable state satisfies the invariant and shows a streak of at least 5 |
| RoutineProperties.EveryStepReachable | src/App.tsx:41-372 | each of the ten screens is reached by some run from the first render |
| RoutineProperties.RunTicks | src/App.tsx:15-28 | `k` ticks change only the timer, which ticks `k` times |
| RoutineProperties.StartTimerStartsDuration | src/App.tsx:142-150 | "Start Timer" is offered exactly on a screen that shows the timer while the timer is null and stopped; it starts that screen's duration |
| RoutineProperties.TimedScreenCountsDown | src/App.tsx:15-39 | on a timed screen, start and then one tick less than the duration leaves 1 second; one more tick clears and stops the timer; the screen does not change |
| RoutineProperties.StoppedTickIsNoOp | src/App.tsx:15-28 | in a reachable state, a tick while the timer is stopped changes nothing |
| RoutineProperties.StartedClockMatchesPlaceholder | src/App.tsx:139-144 | each duration renders exactly as its screen's placeholder: 1200 as "20:00", 600 as "10:00", 300 as "5:00", 900 as "15:00" |
| RoutineProperties.RunningTimerCarriesOver | src/App.tsx:196-202 | a meditation timer that was started, ticked once and skipped is still running at 599 on the breakfast screen |
| RoutineProperties.LeftoverTimerOnDeclutter | src/App.tsx:338-374 | a meditation timer that was started and skipped is still set on the declutter screen, where neither "Start Timer" nor "Next" is offered |
| RoutineProperties.LeftoverDeclutterClock | src/App.tsx:346 | that declutter screen's clock reads the meditation's "10:00", not "15:00" |
| RoutineProperties.GoodMorning | src/App.tsx:63-396 | a good night, a gym workout, no clutter: the morning ends on a cleared first screen with the streak one higher |
| RoutineProperties.FirstMorning | src/App.tsx:9 | the first such morning after the first render shows a streak of 6 |

## Left out

- Markup, CSS classes, icons and quote texts are not modelled. They are presentational.
- React hook mechanics are not modelled: batching of `setState` calls, effect scheduling and cleanup, `setInterval`/`clearInterval` and the 1000 ms period. Each handler is one atomic transition. Each interval firing is one `Tick` event that also covers the effect's re-run on the new value.
- Timer.Tick, Timer.Start: the `timer === 0` branch of the effect is applied only after these two. No other event can produce a zero value: `Inv` keeps a set value positive.
- The component has no error paths: a button that is not rendered cannot be pressed, so `Transition` returns `None` for it.
- JavaScript number semantics beyond naturals are not modelled. Timer values are only the positive constants passed to `startTimer` and values decremented from them, so `nat` suffices. `formatTime` on negative or fractional numbers is out of scope.
- TimeFormat.Decimal: matches JavaScript's printing of integers below 1e21 (exactly below 2^53); larger numbers print in exponent form there. Every timer value is at most 1200.
- `StartMorning` reads `sleptWell` at press time. React's stale-closure reading cannot differ here, because every handler is one atomic transition.
