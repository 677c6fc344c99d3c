/** The background service worker: the defaults written on install and
    the toolbar badge that shows today's focus-session count. */
module Background {
  import opened Wrappers
  import opened Text
  import opened Timer
  import opened SessionLog
  import opened Storage
  import Popup

  // ---------------------------------------------------------------------
  // Install defaults (runtime.onInstalled).

  const DEFAULT_USER_NAME: string := "krit"

  /** `if (!result.userName) set({ userName: 'krit' })`: a missing name and
      the empty name (the only falsy string) are replaced. */
  function InstalledName(name: Option<string>): (r: Option<string>)
    ensures r.Some? && r.value != []
    ensures name.Some? && name.value != [] ==> r == name
    ensures name.None? || name.value == [] ==> r == Some(DEFAULT_USER_NAME)
  {
    if name.None? || name.value == [] then Some(DEFAULT_USER_NAME) else name
  }

  /** `if (!result.sessions) set({ sessions: [] })`: an array is truthy even
      when empty, so only a missing log is created. */
  function InstalledSessions(sessions: Option<seq<Session>>): (r: Option<seq<Session>>)
    ensures r.Some?
    ensures sessions.Some? ==> r == sessions
    ensures sessions.None? ==> r == Some([])
  {
    if sessions.None? then Some([]) else sessions
  }

  /** The install handler: fills in the two defaults and leaves everything
      else, the timer record included, as it was. */
  method OnInstalled(store: Store)
    modifies store`userName, store`sessions
    ensures store.userName == InstalledName(old(store.userName))
    ensures store.sessions == InstalledSessions(old(store.sessions))
    ensures old(store.Valid()) ==> store.Valid()
  {
    var name, sessions := store.userName, store.sessions;
    if name.None? || name.value == [] {
      store.userName := Some(DEFAULT_USER_NAME);
    }
    if sessions.None? {
      store.sessions := Some([]);
    }
  }

  /** Installing again (an update or a reinstall over kept storage)
      changes nothing more: the defaults are idempotent, and a log that
      already exists is never reset. */
  lemma InstallIdempotent(name: Option<string>, sessions: Option<seq<Session>>)
    ensures InstalledName(InstalledName(name)) == InstalledName(name)
    ensures InstalledSessions(InstalledSessions(sessions)) == InstalledSessions(sessions)
    ensures sessions.Some? ==> InstalledSessions(sessions).value == sessions.value
  {
  }

  /** The fresh store: after the first install the name is `krit` and the
      log is empty, and there is still no timer record. */
  method FirstInstall() returns (store: Store)
    ensures store.userName == Some(DEFAULT_USER_NAME)
    ensures store.sessions == Some([])
    ensures store.timerState.None?
    ensures store.Valid()
  {
    store := new Store();
    OnInstalled(store);
  }

  // ---------------------------------------------------------------------
  // The badge (updateBadge).

  const BADGE_COLOR: string := "#dc2626"

  /** What `updateBadge` sets: the badge text and, when there is a count,
      the background colour. */
  datatype BadgeUpdate = BadgeUpdate(text: string, color: Option<string>)

  /** The number of focus sessions logged today, filtered exactly as the
      popup filters them. */
  function BadgeCount(sessions: seq<Session>, today: string): (n: nat)
    ensures n <= |sessions|
    ensures n == CountOn(sessions, today)
    ensures n == multiset(sessions)[Session(today, Focus)]
  {
    TodaysSessionsByDate(sessions, today);
    CountOnEntries(sessions, today);
    |TodaysSessions(sessions, today)|
  }

  /** updateBadge over `result.sessions` (missing reads as `[]`) and
      today's date key. */
  function UpdateBadge(sessions: Option<seq<Session>>, today: string): (b: BadgeUpdate)
    ensures b.text == [] <==> CountOn(sessions.GetOr([]), today) == 0
    ensures b.color.Some? <==> CountOn(sessions.GetOr([]), today) > 0
    ensures b.color.Some? ==> b.color.value == BADGE_COLOR
    ensures b.text != [] ==>
      AllDigits(b.text) && b.text[0] != '0' && Value(b.text) == CountOn(sessions.GetOr([]), today)
  {
    var n := BadgeCount(sessions.GetOr([]), today);
    if n > 0 then
      DecimalValue(n);
      BadgeUpdate(Decimal(n), Some(BADGE_COLOR))
    else
      BadgeUpdate([], None)
  }

  /** storage.onChanged: the badge is recomputed only when the `sessions`
      key changed. */
  function OnStorageChanged(sessionsChanged: bool, sessions: Option<seq<Session>>, today: string): (r: Option<BadgeUpdate>)
    ensures r.Some? <==> sessionsChanged
    ensures r.Some? ==> r.value == UpdateBadge(sessions, today)
  {
    if sessionsChanged then Some(UpdateBadge(sessions, today)) else None
  }

  /** The badge and the popup's "today" figure always agree. */
  lemma BadgeMatchesPopup(sessions: seq<Session>, today: string)
    ensures BadgeCount(sessions, today) == Popup.LoadStats(sessions, today).todaySessions
  {
  }

  /** Clearing the log takes the badge off. */
  lemma ClearedLogBadge(today: string)
    ensures UpdateBadge(Some([]), today) == BadgeUpdate([], None)
  {
  }
}
