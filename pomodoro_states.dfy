/**
 * The state machine shared by both pomodoro widgets
 * (py3status/modules/simple_pomodoro/__init__.py and its single-file
 * predecessor py3status/modules/simple_pomodoro.py): five states, one table
 * of transitions on a click and one on the expiry of the last timer.
 */
module PomodoroStates {

  /** The five state objects `_initial_state` creates. */
  datatype Phase = WaitForStart | Working | PauseWorking | WaitForBreak | TakingBreak

  /** `_on_click_transitions`. */
  const OnClickTransitions: map<Phase, Phase> :=
    map[WaitForStart := Working, Working := PauseWorking, PauseWorking := Working, WaitForBreak := TakingBreak]

  /** `_on_timer_transitions`. */
  const OnTimerTransitions: map<Phase, Phase> :=
    map[Working := WaitForBreak, TakingBreak := WaitForStart]

  /** The states whose class derives from `TimerState`: they start timers when entered. */
  predicate IsTimerState(p: Phase) {
    p == Working || p == TakingBreak
  }

  /** Every state but taking a break has a click transition. */
  lemma ClickDomain(p: Phase)
    ensures p in OnClickTransitions <==> p != TakingBreak
  {
  }

  /** Timer expiry is defined exactly in the states that own timers. */
  lemma TimerDomainIsTimerStates(p: Phase)
    ensures p in OnTimerTransitions <==> IsTimerState(p)
  {
  }

  /**
   * A click never enters a waiting state: waiting for a break is reached only
   * when the work timer expires, waiting for a start only when the break timer
   * expires (or on a reset).
   */
  lemma ClicksAvoidTimedTargets(p: Phase)
    requires p in OnClickTransitions
    ensures OnClickTransitions[p] != WaitForBreak && OnClickTransitions[p] != WaitForStart
  {
  }

  /** The `i`-th of five equal steps of a positive duration `d` grows with `i`; the fifth is `d`. */
  lemma FifthsIncrease(d: real, i: nat, j: nat)
    requires d > 0.0 && i < j <= 5
    ensures (i as real) * (d / 5.0) < (j as real) * (d / 5.0)
    ensures 5.0 * (d / 5.0) == d
  {
    var x := d / 5.0;
    assert (j as real) * x - (i as real) * x == (j - i) as real * x;
  }

  /** What a timer does when it fires: show a bar text, or enter the next state. */
  datatype Callback = UpdateWidget(text: string) | NextStateOnTimer

  /** A `TimeleftTimer` as `_init_timers` creates it: its interval and its callback. */
  datatype Timer = Timer(interval: real, callback: Callback)
}
