/** The stored `timerState` record of popup.js and the four commands that
    rewrite it (switchPhase, startTimer, pauseTimer, resetTimer), as pure
    transitions on the record. Times are milliseconds since the epoch;
    durations are seconds. */
module Timer {
  import opened Wrappers

  /** `currentPhase`: the source compares with 'focus' and treats every
      other value as the break phase. */
  datatype Phase = Focus | Break

  const FOCUS_DURATION: nat := 50 * 60
  const BREAK_DURATION: nat := 10 * 60

  /** The full length of a phase in seconds. */
  function Duration(p: Phase): (d: nat)
    ensures d == 3000 || d == 600
    ensures d == 3000 <==> p == Focus
  {
    if p == Focus then FOCUS_DURATION else BREAK_DURATION
  }

  /** `{isRunning, remainingSeconds, currentPhase, endTime}`; `endTime` is
      null (None) or the absolute deadline in milliseconds. */
  datatype TimerState = TimerState(
    isRunning: bool,
    remainingSeconds: int,
    currentPhase: Phase,
    endTime: Option<int>)

  /** A deadline is stored exactly while the timer runs. */
  predicate WellFormed(st: TimerState) {
    st.isRunning <==> st.endTime.Some?
  }

  /** The remaining time is the full length of the current phase. */
  predicate AtFullDuration(st: TimerState) {
    st.remainingSeconds == Duration(st.currentPhase)
  }

  /** The record every command leaves behind when it stops the timer in
      phase `p` with the full duration. */
  function Idle(p: Phase): TimerState {
    TimerState(false, Duration(p), p, None)
  }

  /** switchPhase(p): a missing record reads as `{}` (not running); a
      running timer is left alone; otherwise the record is replaced. */
  function SwitchedTo(st: Option<TimerState>, p: Phase): Option<TimerState> {
    if st.Some? && st.value.isRunning then st else Some(Idle(p))
  }

  /** startTimer at time `now`: no guard, the record is spread and only
      `isRunning` and `endTime` are overwritten. */
  function Started(st: TimerState, now: int): TimerState {
    st.(isRunning := true, endTime := Some(now + st.remainingSeconds * 1000))
  }

  /** pauseTimer: spread the record, clear `isRunning` and `endTime`;
      `remainingSeconds` is not recomputed from the deadline. */
  function Paused(st: TimerState): TimerState {
    st.(isRunning := false, endTime := None)
  }

  /** resetTimer: keep only the phase. */
  function Reset(st: TimerState): TimerState {
    Idle(st.currentPhase)
  }

  /** `totalSeconds - state.remainingSeconds`, the value the progress ring
      is drawn from. */
  function Elapsed(st: TimerState): int {
    Duration(st.currentPhase) - st.remainingSeconds
  }

  /** switchPhase while the timer runs changes nothing; otherwise the new
      record is idle, in phase `p`, at the full length of `p`. */
  lemma SwitchPhaseOutcome(st: Option<TimerState>, p: Phase)
    ensures st.Some? && st.value.isRunning ==> SwitchedTo(st, p) == st
    ensures !(st.Some? && st.value.isRunning) ==>
      var r := SwitchedTo(st, p).value;
      !r.isRunning && r.endTime.None? && r.currentPhase == p && r.remainingSeconds == Duration(p)
  {
  }

  /** startTimer keeps the phase and the remaining time and sets a deadline
      exactly `remainingSeconds` seconds after `now`. */
  lemma StartOutcome(st: TimerState, now: int)
    ensures Started(st, now).isRunning
    ensures Started(st, now).remainingSeconds == st.remainingSeconds
    ensures Started(st, now).currentPhase == st.currentPhase
    ensures Started(st, now).endTime == Some(now + 1000 * st.remainingSeconds)
  {
  }

  /** pauseTimer keeps the phase and the remaining time, whatever the
      deadline was. */
  lemma PauseOutcome(st: TimerState)
    ensures !Paused(st).isRunning && Paused(st).endTime.None?
    ensures Paused(st).remainingSeconds == st.remainingSeconds
    ensures Paused(st).currentPhase == st.currentPhase
  {
  }

  /** Starting and then pausing an idle timer whose deadline is null gives
      back the record it started from, whatever the clock said. */
  lemma StartThenPauseRestores(st: TimerState, now: int)
    requires !st.isRunning && st.endTime.None?
    ensures Paused(Started(st, now)) == st
  {
  }

  /** resetTimer from any record: idle, no deadline, same phase, full
      length of that phase; a second reset changes nothing more. */
  lemma ResetOutcome(st: TimerState)
    ensures !Reset(st).isRunning && Reset(st).endTime.None?
    ensures Reset(st).currentPhase == st.currentPhase
    ensures Reset(st).remainingSeconds == Duration(st.currentPhase)
    ensures Reset(Reset(st)) == Reset(st)
  {
  }

  /** Every command keeps both invariants: a deadline exactly while
      running, and the remaining time at the phase's full length. */
  lemma CommandsKeepInvariants(st: TimerState, p: Phase, now: int)
    requires WellFormed(st) && AtFullDuration(st)
    ensures WellFormed(SwitchedTo(Some(st), p).value) && AtFullDuration(SwitchedTo(Some(st), p).value)
    ensures WellFormed(Started(st, now)) && AtFullDuration(Started(st, now))
    ensures WellFormed(Paused(st)) && AtFullDuration(Paused(st))
    ensures WellFormed(Reset(st)) && AtFullDuration(Reset(st))
  {
  }

  /** Because nothing in the popup ever lowers `remainingSeconds`, a
      paused timer resumes with the full phase length again, not with
      what was left at the pause: the new deadline is `later` plus the
      whole phase. */
  lemma PauseThenStartRestartsPhase(st: TimerState, now: int, later: int)
    requires AtFullDuration(st)
    ensures Started(Paused(Started(st, now)), later).endTime
         == Some(later + 1000 * Duration(st.currentPhase))
  {
  }

  /** Starting an already running timer is not ignored: it moves the
      deadline to `now` plus the remaining time. */
  lemma StartWhileRunningMovesDeadline(st: TimerState, now: int)
    requires st.isRunning && AtFullDuration(st)
    ensures Started(st, now).endTime == Some(now + 1000 * Duration(st.currentPhase))
  {
  }

  /** The progress value is always zero for a record that keeps the
      invariants: the ring never advances. */
  lemma ElapsedIsZero(st: TimerState)
    requires AtFullDuration(st)
    ensures Elapsed(st) == 0
  {
  }
}
