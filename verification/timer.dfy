/** The countdown of the component: the `timer` and `isTimerRunning` state
    (src/App.tsx lines 12-13), the interval effect that drives them
    (lines 15-28) and `startTimer` (lines 36-39). One firing of the
    one-second interval is an abstract `Tick`; wall-clock time is not
    modelled. */
module Timer {
  import opened Wrappers

  /** `remaining` is `timer` (None for null), `running` is `isTimerRunning`. */
  datatype Countdown = Countdown(remaining: Option<nat>, running: bool)

  /** The cleared timer: what every full reset writes. */
  const Idle := Countdown(None, false)

  /** A countdown that is ticking with `n` seconds left. */
  function Running(n: nat): Countdown {
    Countdown(Some(n), true)
  }

  /** The consistent shapes: running exactly when a positive value is set. */
  predicate Valid(c: Countdown) {
    && (c.running <==> c.remaining.Some?)
    && (c.remaining.Some? ==> c.remaining.value > 0)
  }

  /** The second branch of the effect: once the value has reached zero the
      countdown stops and the value is cleared. Any other countdown is left
      alone by that branch. */
  function Settle(c: Countdown): (r: Countdown)
    ensures r.remaining != Some(0)
  {
    if c.remaining == Some(0) then Idle else c
  }

  /** `startTimer(duration)`: sets the value and the running flag; the effect
      then runs on the new state, which clears a zero duration at once. */
  function Start(duration: nat): (r: Countdown)
    ensures duration > 0 ==> r == Running(duration) && Valid(r)
    ensures duration == 0 ==> r == Idle
  {
    Settle(Countdown(Some(duration), true))
  }

  /** One firing of the interval followed by the effect re-running on the
      new value: while running and above zero the value drops by one, and
      a value that reaches zero stops the countdown and is cleared. */
  function Tick(c: Countdown): (r: Countdown)
    ensures c.running && c.remaining.Some? && c.remaining.value > 1
            ==> r == Running(c.remaining.value - 1)
    ensures c.running && c.remaining == Some(1) ==> r == Idle
    ensures !c.running && c.remaining != Some(0) ==> r == c
    ensures Valid(c) ==> Valid(r)
    ensures r.remaining.Some? ==> c.remaining.Some? && r.remaining.value <= c.remaining.value
  {
    var decremented :=
      if c.running && c.remaining.Some? && c.remaining.value > 0
      then c.(remaining := Some(c.remaining.value - 1))
      else c;
    Settle(decremented)
  }

  /** `k` consecutive firings of the interval. */
  function Ticks(c: Countdown, k: nat): Countdown
    decreases k
  {
    if k == 0 then c else Ticks(Tick(c), k - 1)
  }

  /** A running countdown with `n` seconds left shows `n - k` after `k < n`
      ticks and is stopped and cleared after exactly `n`. */
  lemma {:induction false} CountdownFrom(n: nat, k: nat)
    requires 0 < n && k <= n
    ensures k < n ==> Ticks(Running(n), k) == Running(n - k)
    ensures k == n ==> Ticks(Running(n), k) == Idle
    decreases k
  {
    if k > 0 {
      if n == 1 {
        assert Tick(Running(1)) == Idle;
        assert Ticks(Running(n), k) == Ticks(Idle, 0);
      } else {
        assert Tick(Running(n)) == Running(n - 1);
        CountdownFrom(n - 1, k - 1);
      }
    }
  }

  /** Ticking a stopped, cleared timer never changes it. */
  lemma {:induction false} IdleStaysIdle(k: nat)
    ensures Ticks(Idle, k) == Idle
    decreases k
  {
    if k > 0 {
      assert Tick(Idle) == Idle;
      IdleStaysIdle(k - 1);
    }
  }

  /** `start(d)` followed by `d - 1` ticks leaves one second on the clock;
      after `d` ticks the value is cleared and the countdown stopped, and
      any further ticks change nothing. */
  lemma StartThenCountdown(d: nat, extra: nat)
    requires d > 0
    ensures Ticks(Start(d), d - 1) == Running(1)
    ensures Ticks(Start(d), d) == Idle
    ensures Ticks(Start(d), d + extra) == Idle
  {
    CountdownFrom(d, d - 1);
    CountdownFrom(d, d);
    TicksAdd(Start(d), d, extra);
    IdleStaysIdle(extra);
  }

  /** Ticks compose: `a` ticks then `b` ticks are `a + b` ticks. */
  lemma {:induction false} TicksAdd(c: Countdown, a: nat, b: nat)
    ensures Ticks(c, a + b) == Ticks(Ticks(c, a), b)
    decreases a
  {
    if a > 0 {
      TicksAdd(Tick(c), a - 1, b);
    }
  }
}
