/**
 * The older single-file pomodoro widget, py3status/modules/simple_pomodoro.py:
 * the same state machine, every click (whatever the button) is a click
 * transition, durations are in seconds and the bar is wrapped in a font span.
 */
module SimplePomodoroLegacy {
  import opened PomodoroStates
  import opened PyStr

  /** `EMPTY_BAR_SEGMENT` and `FULL_BAR_SEGMENT`: two icon-font glyphs. */
  const EmptyBarSegment: string := "\U{F131}"
  const FullBarSegment: string := "\U{F12E}"

  /** The span around the segments of `FULL_BAR`. */
  const BarOpen: string := "<span font='Material Design Icons 11'>"
  const BarClose: string := "</span>"

  /** `FULL_BAR`: five full segments in the span. */
  const FullBar: string := BarOpen + Repeat(FullBarSegment, 5) + BarClose

  /** `POMODORO_DURATION_SEC` (`2 * 5`) and `BREAK_DURATION_SEC` (`5 * 1`), passed to `_init_timers` by the timed states. */
  const PomodoroDurationSec: real := 10.0
  const BreakDurationSec: real := 5.0

  /** The glyph of a full segment does not occur in the span's opening tag. */
  lemma FullSegmentNotInSpan()
    ensures FullBarSegment == [FullBarSegment[0]] && FullBarSegment[0] !in BarOpen
  {
  }

  /** The bar text the `i`-th timer shows: the first `i` segments empty. */
  lemma BarText(i: nat)
    requires i <= 5
    ensures Replace(FullBar, FullBarSegment, EmptyBarSegment, i)
         == BarOpen + Repeat(EmptyBarSegment, i) + Repeat(FullBarSegment, 5 - i) + BarClose
  {
    FullSegmentNotInSpan();
    SpanBarText(BarOpen, FullBarSegment[0], EmptyBarSegment, BarClose, 5, i);
  }

  /** `BarText` for any opening tag without the full glyph `c` and any number `m` of segments. */
  lemma SpanBarText(open: string, c: char, e: string, close: string, m: nat, i: nat)
    requires c !in open && i <= m
    ensures Replace(open + Repeat([c], m) + close, [c], e, i) == open + Repeat(e, i) + Repeat([c], m - i) + close
  {
    var bar := Repeat([c], m) + close;
    assert open + Repeat([c], m) + close == open + bar;
    ReplaceAfterPrefix(open, c, e, bar, i);
    ReplaceInRepeat([c], e, m, i, close);
    assert open + (Repeat(e, i) + Repeat([c], m - i) + close) == open + Repeat(e, i) + Repeat([c], m - i) + close;
  }

  /**
   * What the five timers of `_init_timers` amount to: the `i`-th update shows
   * `i` empty segments, and for a positive duration they fire in order.
   */
  lemma ScheduleShape(d: real, timers: seq<Timer>)
    requires |timers| == 5
    requires forall i :: 0 <= i < 4 ==>
      timers[i] == Timer((i + 1) as real * (d / 5.0),
                         UpdateWidget(Replace(FullBar, FullBarSegment, EmptyBarSegment, i + 1)))
    requires timers[4] == Timer(d, NextStateOnTimer)
    ensures forall i :: 0 <= i < 4 ==>
      timers[i].callback.text == BarOpen + Repeat(EmptyBarSegment, i + 1) + Repeat(FullBarSegment, 4 - i) + BarClose
    ensures d > 0.0 ==> forall i, j :: 0 <= i < j < 5 ==> timers[i].interval < timers[j].interval
  {
    if d > 0.0 {
      forall i, j | 0 <= i < j < 5 ensures timers[i].interval < timers[j].interval {
        FifthsIncrease(d, i + 1, j + 1);
      }
    }
    forall i | 0 <= i < 4
      ensures timers[i].callback.text == BarOpen + Repeat(EmptyBarSegment, i + 1) + Repeat(FullBarSegment, 4 - i) + BarClose
    {
      BarText(i + 1);
    }
  }

  /**
   * The duration a timed state passes to `_init_timers` when it is entered:
   * `StateWorking` runs a pomodoro, `StateTakingBreak` a break.
   */
  function TimerDuration(p: Phase): (d: real)
    requires IsTimerState(p)
    ensures d > 0.0
    ensures p == Working ==> d == PomodoroDurationSec
    ensures p == TakingBreak ==> d == BreakDurationSec
  {
    if p == Working then PomodoroDurationSec else BreakDurationSec
  }

  class Py3status {
    /** `_state`. */
    var state: Phase

    /** `__init__`: `_initial_state`. */
    constructor()
      ensures state == WaitForStart
    {
      new;
      InitialState();
    }

    /** `_initial_state`: fresh tables and state objects; the machine waits for a start. */
    method InitialState()
      modifies this`state
      ensures state == WaitForStart
    {
      state := WaitForStart;
    }

    /**
     * `_enter_next_state_on_timer`: follow the timer table; in a state without
     * an entry the lookup raises `KeyError` and the state stays.
     */
    method EnterNextStateOnTimer() returns (keyError: bool)
      modifies this`state
      ensures keyError <==> old(state) !in OnTimerTransitions
      ensures !keyError ==> state == OnTimerTransitions[old(state)]
      ensures keyError ==> state == old(state)
    {
      keyError := state !in OnTimerTransitions;
      if !keyError {
        state := OnTimerTransitions[state];
      }
    }

    /** `_enter_next_state_on_click`: follow the click table; without an entry the state stays. */
    method EnterNextStateOnClick()
      modifies this`state
      ensures old(state) in OnClickTransitions ==> state == OnClickTransitions[old(state)]
      ensures old(state) !in OnClickTransitions ==> state == old(state)
    {
      if state in OnClickTransitions {
        state := OnClickTransitions[state];
      }
    }

    /** `on_click`: every button is a click transition; there is no reset. */
    method OnClick(button: int)
      modifies this`state
      ensures old(state) in OnClickTransitions ==> state == OnClickTransitions[old(state)]
      ensures old(state) !in OnClickTransitions ==> state == old(state)
    {
      EnterNextStateOnClick();
    }

    /**
     * `_init_timers`: four timers at each fifth of the duration in seconds,
     * each showing `FULL_BAR` with one more empty segment, and a fifth at the
     * full duration that enters the next state.
     */
    method InitTimers(durationInSeconds: real) returns (timers: seq<Timer>)
      ensures |timers| == 5
      ensures forall i :: 0 <= i < 4 ==>
        timers[i] == Timer((i + 1) as real * (durationInSeconds / 5.0),
                           UpdateWidget(Replace(FullBar, FullBarSegment, EmptyBarSegment, i + 1)))
      ensures timers[4] == Timer(durationInSeconds, NextStateOnTimer)
      ensures forall i :: 0 <= i < 4 ==>
        timers[i].callback.text == BarOpen + Repeat(EmptyBarSegment, i + 1) + Repeat(FullBarSegment, 4 - i) + BarClose
      ensures durationInSeconds > 0.0 ==> forall i, j :: 0 <= i < j < 5 ==> timers[i].interval < timers[j].interval
    {
      var timerInterval := durationInSeconds / 5.0;
      timers := [];
      for i := 1 to 5
        invariant |timers| == i - 1
        invariant forall j :: 0 <= j < i - 1 ==>
          timers[j] == Timer((j + 1) as real * timerInterval,
                             UpdateWidget(Replace(FullBar, FullBarSegment, EmptyBarSegment, j + 1)))
      {
        var widgetText := Replace(FullBar, FullBarSegment, EmptyBarSegment, i);
        timers := timers + [Timer(i as real * timerInterval, UpdateWidget(widgetText))];
      }
      timers := timers + [Timer(durationInSeconds, NextStateOnTimer)];
      ScheduleShape(durationInSeconds, timers);
    }

    /**
     * `TimerState.enter` without live timers: the state's own duration goes
     * to `_init_timers`, so a pomodoro updates the bar every 2 seconds and
     * ends after 10, a break every second and ends after 5.
     */
    method StartTimers() returns (timers: seq<Timer>)
      requires IsTimerState(state)
      ensures |timers| == 5 && timers[4].callback == NextStateOnTimer
      ensures state == Working ==> forall i :: 0 <= i < 5 ==> timers[i].interval == 2.0 * (i + 1) as real
      ensures state == TakingBreak ==> forall i :: 0 <= i < 5 ==> timers[i].interval == (i + 1) as real
    {
      timers := InitTimers(TimerDuration(state));
    }
  }

  /**
   * A whole pomodoro from the start, whatever buttons are pressed: a click
   * starts work, the work timer ends it, a click starts the break and the
   * break timer ends it. Neither timer transition raises `KeyError`, and the
   * widget waits for a start again.
   */
  method PomodoroCycle(w: Py3status, first: int, second: int) returns (workKeyError: bool, breakKeyError: bool)
    requires w.state == WaitForStart
    modifies w
    ensures !workKeyError && !breakKeyError
    ensures w.state == WaitForStart
  {
    w.OnClick(first);
    workKeyError := w.EnterNextStateOnTimer();
    w.OnClick(second);
    breakKeyError := w.EnterNextStateOnTimer();
  }

  /** Pausing work with a click and resuming it with another returns to work. */
  method PauseResume(w: Py3status, first: int, second: int)
    requires w.state == Working
    modifies w
    ensures w.state == Working
  {
    w.OnClick(first);
    w.OnClick(second);
  }
}
