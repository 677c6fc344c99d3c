/** `chrome.storage.local` as the two scripts use it: one object whose
    fields are the stored keys. A field holding `None` is a key that has
    never been written. */
module Storage {
  import opened Wrappers
  import opened Timer
  import opened SessionLog

  class Store {
    /** The `timerState` key, written only by the popup's commands. */
    var timerState: Option<TimerState>
    /** The `sessions` key: the session log. */
    var sessions: Option<seq<Session>>
    /** The `userName` key, written on install. */
    var userName: Option<string>

    /** What every command keeps true of a stored timer record. */
    ghost predicate Valid()
      reads this
    {
      timerState.Some? ==> WellFormed(timerState.value) && AtFullDuration(timerState.value)
    }

    /** The store of a freshly installed extension: no key is set. */
    constructor ()
      ensures timerState.None? && sessions.None? && userName.None?
      ensures Valid()
    {
      timerState, sessions, userName := None, None, None;
    }
  }
}
