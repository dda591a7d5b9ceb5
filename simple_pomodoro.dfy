/**
 * The pomodoro widget of py3status/modules/simple_pomodoro/__init__.py:
 * button 1 moves to the next phase, button 2 resets the machine, and each
 * timed phase runs five timers that empty the progress bar segment by segment.
 */
module SimplePomodoro {
  import opened PomodoroStates
  import opened PyStr

  /** The bar text of the `i`-th timer: the first `i` of five full segments replaced by empty ones. */
  lemma BarText(full: string, empty: string, i: nat)
    requires full != [] && i <= 5
    ensures Replace(Repeat(full, 5), full, empty, i) == Repeat(empty, i) + Repeat(full, 5 - i)
  {
    ReplaceInRepeat(full, empty, 5, i, []);
    assert Repeat(full, 5) + [] == Repeat(full, 5);
    assert Repeat(empty, i) + Repeat(full, 5 - i) + [] == Repeat(empty, i) + Repeat(full, 5 - i);
  }

  /**
   * What the five timers of `_init_timers` amount to: the `i`-th update shows
   * `i` empty segments, and for a positive duration they fire in order.
   */
  lemma ScheduleShape(d: real, full: string, empty: string, timers: seq<Timer>)
    requires |timers| == 5
    requires forall i :: 0 <= i < 4 ==>
      timers[i] == Timer((i + 1) as real * (d / 5.0) * 60.0,
                         UpdateWidget(Replace(Repeat(full, 5), full, empty, i + 1)))
    requires timers[4] == Timer(d * 60.0, NextStateOnTimer)
    ensures full != [] ==> forall i :: 0 <= i < 4 ==>
      timers[i].callback.text == Repeat(empty, i + 1) + Repeat(full, 4 - i)
    ensures d > 0.0 ==> forall i, j :: 0 <= i < j < 5 ==> timers[i].interval < timers[j].interval
  {
    if d > 0.0 {
      forall i, j | 0 <= i < j < 5 ensures timers[i].interval < timers[j].interval {
        FifthsIncrease(d, i + 1, j + 1);
      }
    }
    if full != [] {
      forall i | 0 <= i < 4
        ensures timers[i].callback.text == Repeat(empty, i + 1) + Repeat(full, 4 - i)
      {
        BarText(full, empty, i + 1);
      }
    }
  }

  class Py3status {
    /** Configuration: the bar segments and the two durations in minutes. */
    var emptyBarSegment: string
    var fullBarSegment: string
    var breakDurationMinutes: int
    var workDurationMinutes: int
    /** `_state`. */
    var state: Phase

    /** `__init__`: the configuration defaults, then `_initial_state`. */
    constructor()
      ensures emptyBarSegment == "\U{F131}" && fullBarSegment == "\U{F12E}"
      ensures breakDurationMinutes == 5 && workDurationMinutes == 25
      ensures state == WaitForStart
    {
      emptyBarSegment := "\U{F131}";
      fullBarSegment := "\U{F12E}";
      breakDurationMinutes := 5;
      workDurationMinutes := 25;
      new;
      InitialState();
    }

    /** `_initial_state`: fresh tables and state objects; the machine waits for a start. */
    method InitialState()
      modifies this`state
      ensures state == WaitForStart
    {
      state := WaitForStart;
    }

    /**
     * `_enter_next_state_on_timer`: follow the timer table; in a state without
     * an entry the lookup raises `KeyError` and the state stays.
     */
    method EnterNextStateOnTimer() returns (keyError: bool)
      modifies this`state
      ensures keyError <==> old(state) !in OnTimerTransitions
      ensures !keyError ==> state == OnTimerTransitions[old(state)]
      ensures keyError ==> state == old(state)
    {
      keyError := state !in OnTimerTransitions;
      if !keyError {
        state := OnTimerTransitions[state];
      }
    }

    /** `_enter_next_state_on_click`: follow the click table; without an entry the state stays. */
    method EnterNextStateOnClick()
      modifies this`state
      ensures old(state) in OnClickTransitions ==> state == OnClickTransitions[old(state)]
      ensures old(state) !in OnClickTransitions ==> state == old(state)
    {
      if state in OnClickTransitions {
        state := OnClickTransitions[state];
      }
    }

    /** `on_click`: button 1 is a click transition, button 2 a reset, any other button nothing. */
    method OnClick(button: int)
      modifies this`state
      ensures button == 1 && old(state) in OnClickTransitions ==> state == OnClickTransitions[old(state)]
      ensures button == 1 && old(state) !in OnClickTransitions ==> state == old(state)
      ensures button == 2 ==> state == WaitForStart
      ensures button != 1 && button != 2 ==> state == old(state)
    {
      if button == 1 {
        EnterNextStateOnClick();
      } else if button == 2 {
        InitialState();
      }
    }

    /**
     * `_init_timers`: four timers at each fifth of the duration, each showing
     * the bar with one more empty segment, and a fifth at the full duration
     * that enters the next state.
     */
    method InitTimers(durationMinutes: real) returns (timers: seq<Timer>)
      ensures |timers| == 5
      ensures forall i :: 0 <= i < 4 ==>
        timers[i] == Timer((i + 1) as real * (durationMinutes / 5.0) * 60.0,
                           UpdateWidget(Replace(Repeat(fullBarSegment, 5), fullBarSegment, emptyBarSegment, i + 1)))
      ensures timers[4] == Timer(durationMinutes * 60.0, NextStateOnTimer)
      ensures fullBarSegment != [] ==> forall i :: 0 <= i < 4 ==>
        timers[i].callback.text == Repeat(emptyBarSegment, i + 1) + Repeat(fullBarSegment, 4 - i)
      ensures durationMinutes > 0.0 ==> forall i, j :: 0 <= i < j < 5 ==> timers[i].interval < timers[j].interval
    {
      var timerInterval := durationMinutes / 5.0;
      timers := [];
      for i := 1 to 5
        invariant |timers| == i - 1
        invariant forall j :: 0 <= j < i - 1 ==>
          timers[j] == Timer((j + 1) as real * timerInterval * 60.0,
                             UpdateWidget(Replace(Repeat(fullBarSegment, 5), fullBarSegment, emptyBarSegment, j + 1)))
      {
        var widgetText := Replace(Repeat(fullBarSegment, 5), fullBarSegment, emptyBarSegment, i);
        timers := timers + [Timer(i as real * timerInterval * 60.0, UpdateWidget(widgetText))];
      }
      timers := timers + [Timer(durationMinutes * 60.0, NextStateOnTimer)];
      ScheduleShape(durationMinutes, fullBarSegment, emptyBarSegment, timers);
    }
  }

  /**
   * A whole pomodoro from the start: button 1 starts work, the work timer
   * ends it, button 1 starts the break and the break timer ends it. Neither
   * timer transition raises `KeyError`, and the widget waits for a start again.
   */
  method PomodoroCycle(w: Py3status) returns (workKeyError: bool, breakKeyError: bool)
    requires w.state == WaitForStart
    modifies w
    ensures !workKeyError && !breakKeyError
    ensures w.state == WaitForStart
  {
    w.OnClick(1);
    workKeyError := w.EnterNextStateOnTimer();
    w.OnClick(1);
    breakKeyError := w.EnterNextStateOnTimer();
  }

  /** Pausing work with button 1 and resuming it with button 1 returns to work. */
  method PauseResume(w: Py3status)
    requires w.state == Working
    modifies w
    ensures w.state == Working
  {
    w.OnClick(1);
    w.OnClick(1);
  }
}
