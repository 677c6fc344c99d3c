# Focus timer: a verified model of the popup and the background worker

The focus timer is a browser extension with a 50-minute focus phase and a
10-minute break phase. It has three parts:

- the popup (`popup.js`) writes a timer record, shows statistics and a log
  of the focus sessions grouped by day, and draws a month calendar that
  marks the days with sessions;
- the background worker (`background.js`) writes the defaults on install
  and keeps a toolbar badge with today's focus-session count;
- an offscreen page plays a sound. It is not part of this model.

The two scripts share one key-value store with three keys: `timerState`,
`sessions` and `userName`.

The Dafny project models that core:

- `wrappers.dfy`: module `Wrappers`, the `Option` type. `None` stands for a
  key that was never written.
- `text.dfy`: module `Text`. It covers `String(n)` for integers,
  `padStart(2, '0')` and the reading of a digit string back into its value.
  That reading is the inverse used to state round trips.
- `timer.dfy`: module `Timer`. It holds the `timerState` record, the phase
  durations, and the four popup commands as pure transitions. Lemmas say
  what each command does and which invariants every command keeps.
- `sessions.dfy`: module `SessionLog`. It holds the session log and the
  filters the two scripts apply to it: focus sessions, sessions on a day,
  and today's focus sessions. Lemmas show that the one-pass filter and the
  grouped count agree, and that grouping by day loses and duplicates
  nothing.
- `dateorder.dfy`: module `DateOrder`. It models string comparison as
  `Array.prototype.sort()` uses it. It proves that this is a strict total
  order and that `sort().reverse()` on the distinct day keys yields the
  same keys, newest first.
- `storage.dfy`: module `Storage`. The class `Store` has one field per
  stored key. `Valid()` is the invariant that the popup's commands keep on
  the timer record.
- `popup.dfy`: module `Popup`. It contains:
  - the four timer commands as methods on the store;
  - `updateDisplay` and `formatMinutes`, with round trips through a reader
    of the texts they produce;
  - `loadStats`, `clearAllLogs`, `loadLogs` (grouping loop, newest-first
    order, one line per day);
  - `renderCalendar` (header row, leading, current and trailing day loops,
    `Math.ceil(n / 7) * 7`).
- `background.dfy`: module `Background`. It has the install defaults, the
  badge text and colour, the `onChanged` trigger, and lemmas tying the
  badge to the popup's statistics.

Where the extension's documented design and its code disagree, the model
follows the code:

- `startTimer` has no guard. Starting a running timer moves its deadline,
  and a zero remaining time is not refused. See
  `Timer.StartWhileRunningMovesDeadline`.
- `pauseTimer` does not recompute the remaining time from the deadline. It
  only clears `isRunning` and `endTime`. Since nothing in the popup lowers
  `remainingSeconds`, a resumed timer restarts the full phase
  (`Timer.PauseThenStartRestartsPhase`), and the progress value is always
  zero (`Timer.ElapsedIsZero`).
- No code in these two scripts completes a phase or appends a session. The
  log is only read, or cleared by `clearAllLogs`.
- The install handler does not create a timer record. `userName` is
  replaced when it is missing or empty. `sessions` is set to `[]` only when
  it is missing.

`startTimer` and `resetTimer` read `state.remainingSeconds` and
`state.currentPhase` of a missing record. That throws inside the storage
callback before anything is written. The model returns `ok == false` and
leaves the store unchanged.

## Model

| member | source | states |
|---|---|---|
| `Timer.Duration` | popup.js:39-40 | A phase lasts 3000 s exactly when it is the focus phase, and 600 s otherwise. |
| `Timer.SwitchPhaseOutcome` | popup.js:126-145 | Switching while running leaves the record as it was. Otherwise the record is idle, has no deadline, and holds the new phase at that phase's full length. |
| `Timer.StartOutcome` | popup.js:148-160 | Starting sets running and a deadline `remainingSeconds * 1000` ms after `now`. Phase and remaining time are kept. |
| `Timer.PauseOutcome` | popup.js:176-189 | Pausing clears running and the deadline. Phase and remaining time are kept, whatever the deadline was. |
| `Timer.StartThenPauseRestores` | popup.js:148-189 | Pausing right after starting an idle record gives back the original record for any clock value. |
| `Timer.ResetOutcome` | popup.js:196-212 | Resetting gives an idle record with no deadline, the same phase and that phase's full length. A second reset changes nothing. |
| `Timer.CommandsKeepInvariants` | popup.js:126-212 | Switch, start, pause and reset each keep both invariants: a deadline exactly while running, and the remaining time at the phase's full length. |
| `Timer.PauseThenStartRestartsPhase` | popup.js:148-189 | After start, pause and start again, the deadline is the last start time plus the whole phase, not what was left at the pause. |
| `Timer.StartWhileRunningMovesDeadline` | popup.js:148-159 | Starting a running timer is not ignored. The deadline moves to `now` plus the full phase. |
| `Timer.ElapsedIsZero` | popup.js:100-101 | The elapsed time behind the progress ring is zero for every record the commands can produce. |
| `Text.Decimal` | background.js:36 | `String(n)` is a non-empty digit string with no leading zero unless `n == 0`. It has one digit exactly when `n < 10` and at most two exactly when `n < 100`. |
| `Text.DecimalValue` | background.js:36 | Reading back the digits of `String(n)` gives `n`. |
| `Text.IntToString` | popup.js:319 | The text of an integer starts with `-` exactly when the integer is negative. The digits after the sign have no leading zero and read back as the integer's absolute value. |
| `Text.PadTwo` | popup.js:223 | `padStart(2, '0')` returns a string of two or more characters unchanged. A shorter string gets `'0'`s in front up to length 2. |
| `Text.NoLeadingZeroIsDecimal` | background.js:36 | A digit field with no leading zero is exactly `String(n)` of the number it denotes, so no other digit text reads back as `n`. |
| `Text.PadTwoValue` | popup.js:223 | Padding a digit string keeps it a digit string and keeps its value. |
| `SessionLog.FocusSessions` | popup.js:245 | The focus filter keeps exactly the focus entries and is never longer than the log. `SessionLog.FocusSessionsEntries` fixes how often each entry is kept. |
| `SessionLog.OnDate` | popup.js:267-274 | A day's group holds exactly the entries logged on that day. `SessionLog.OnDateEntries` fixes how often each entry is kept. |
| `SessionLog.TodaysSessions` | popup.js:238 | Today's filter keeps exactly the focus entries dated today. `SessionLog.TodaysSessionsEntries` fixes how often each entry is kept. |
| `SessionLog.FocusSessionsEntries` | popup.js:245 | The focus filter keeps each focus entry exactly as many times as the log holds it, and keeps no other entry. |
| `SessionLog.OnDateEntries` | popup.js:267-274 | A day's group holds each entry of that day exactly as many times as the log holds it, and no other entry. |
| `SessionLog.TodaysSessionsEntries` | background.js:33 | Today's filter keeps each focus entry dated today exactly as many times as the log holds it, and no other entry. |
| `SessionLog.CountOnEntries` | popup.js:326-331 | A day's focus count is the number of log entries that are focus sessions dated that day. |
| `SessionLog.DatesInMembership` | popup.js:267-274 | A day is among the log's days exactly when some entry is dated that day. |
| `SessionLog.FocusDateIffCounted` | popup.js:326-331 | A day has a focus session exactly when its focus count is positive. |
| `SessionLog.TodaysSessionsByDate` | background.js:33 | The one-pass day-and-phase filter equals grouping the focus sessions by day, entry for entry and in order. So the badge, the popup and the calendar all count today alike. |
| `SessionLog.TodayAtMostTotal` | popup.js:238-248 | Today's focus count never exceeds the all-time focus count. |
| `SessionLog.GroupSizesSum` | popup.js:267-274 | Over distinct days covering every day of the log, the group sizes add up to the log's length. |
| `DateOrder.BeforeIrreflexive` | popup.js:277 | No key sorts before itself. |
| `DateOrder.BeforeTransitive` | popup.js:277 | String order is transitive. |
| `DateOrder.BeforeTotal` | popup.js:277 | Any two different keys are ordered one way or the other. |
| `DateOrder.DescendingIsDistinct` | popup.js:277 | A strictly newest-first list repeats no key. |
| `DateOrder.NewestFirst` | popup.js:277 | `sort().reverse()` of distinct keys holds the same keys, as many of them, strictly newest first. |
| `Storage.Store.constructor` | background.js:7 | Before install no key is set, and the invariant holds. |
| `Popup.SwitchPhase` | popup.js:126-145 | The stored record becomes the switch transition of the old one, and the invariant is kept. |
| `Popup.StartTimer` | popup.js:148-174 | The start is written exactly when a record exists, and then it is the start transition at `now`. Otherwise nothing changes. The invariant is kept. |
| `Popup.PauseTimer` | popup.js:176-194 | A stored record becomes the pause transition of it, and the invariant is kept. |
| `Popup.ResetTimer` | popup.js:196-218 | The reset is written exactly when a record exists, and then it is the reset transition. Afterwards the invariant holds in every case. |
| `Popup.UpdateDisplay` | popup.js:220-224 | The text has a colon before the last two characters and is exactly `MM:SS` long below 100 minutes. |
| `Popup.UpdateDisplayRoundTrip` | popup.js:220-224 | The text reads back as exactly `seconds`: minutes times 60 plus a seconds field below 60. |
| `Popup.PaddedFieldIsPadTwo` | popup.js:223 | A field of two digits, or of more digits with no leading zero, is exactly `String(n).padStart(2, '0')` of the number it denotes. |
| `Popup.ParseClockExact` | popup.js:220-224 | Any text the clock reader reads as `seconds` is the display text of `seconds`. With the round trip, the display text is the only text that denotes that time. |
| `Popup.FormatMinutes` | popup.js:385-393 | The text ends in `m` and contains an `h` exactly from one hour on. |
| `Popup.FormatMinutesRoundTrip` | popup.js:385-393 | `Mm` or `Hh Mm` reads back as exactly the minutes given. |
| `Popup.ParseDurationExact` | popup.js:385-393 | Any text the duration reader reads as `minutes` is `formatMinutes(minutes)`. So zero-padded forms such as `050m` or `5h 00m` are not texts the popup shows. |
| `Popup.FormatMinutesExample` | popup.js:385-393 | 50 minutes read `50m` and 200 minutes read `3h 20m`. |
| `Popup.LoadStats` | popup.js:232-251 | Today's count is the number of focus entries dated today, and the day's focus count, and the total is the number of focus sessions, never below today's. Both times are formatted from 50 minutes per session. |
| `Popup.LoadStatsTimes` | popup.js:239-249 | Both time texts read back as 50 minutes per counted session. |
| `Popup.LoadStatsExample` | popup.js:232-251 | Three focus sessions on another day and one today give 1 session, 50m, 4 sessions and 3h 20m. |
| `Popup.ClearAllLogs` | popup.js:301-309 | With confirmation the log becomes `[]`. Without it the log is unchanged. |
| `Popup.ClearedLogStats` | popup.js:303-304 | After clearing, the statistics read 0, 0m, 0 and 0m. |
| `Popup.SessionsLabelCount` | popup.js:290 | The details label starts with the count's digits, with no leading zero (so they are `String(n)`), then ` session`, with a plural `s` exactly when the count is not one. |
| `Popup.GroupByDate` | popup.js:267-274 | The groups are keyed by exactly the days of the focus sessions, with no repeated key. Each group is that day's sessions in log order. |
| `Popup.LogLinesAt` | popup.js:280-292 | Line `i` belongs to the `i`-th sorted day and counts that day's sessions. |
| `Popup.RenderEntries` | popup.js:280-296 | The rendering loop produces one line per sorted day, each from that day's group. |
| `Popup.LoadLogs` | popup.js:257-299 | There are no lines exactly when there is no focus session. Otherwise the days run strictly newest first and are exactly the focus days, each line's count is that day's positive focus count, and the counts add up to the focus total. |
| `Popup.EntryTime` | popup.js:283-292 | A line's time text reads back as 50 minutes per session on that day. |
| `Popup.DateKeyDay` | popup.js:357 | A day key ends in `-DD`, and those digits read back as the day. |
| `Popup.WeekCeil` | popup.js:369 | The cell count is a multiple of seven, at least the count of leading and current days, and less than seven above it. |
| `Popup.WeekCeilFormula` | popup.js:369 | The rounding equals `Math.ceil(n / 7) * 7` for non-negative `n`. |
| `Popup.CountByDate` | popup.js:324-331 | The count map is keyed by exactly the focus days, and each value is that day's focus count. |
| `Popup.CountedFlag` | popup.js:359 | `sessionDates[key] > 0` holds exactly when the day has a focus session, including keys that were never counted. |
| `Popup.CurrentDays` | popup.js:356-366 | The month contributes one cell per day. |
| `Popup.CurrentDaysAt` | popup.js:356-366 | Cell `i` of the month is day `i + 1`'s cell. |
| `Popup.DayCellFlags` | popup.js:357-363 | A day's cell shows its number. It is marked today exactly when its key is today's key, and marked as having sessions exactly when its key is a focus day. |
| `Popup.LeadingDays` | popup.js:350-353 | The previous month contributes `firstDay` cells of consecutive days, ending with its last day. |
| `Popup.TrailingDays` | popup.js:371-373 | The next month contributes `n` cells of consecutive days, starting with day 1. |
| `Popup.RenderHeaders` | popup.js:337-340 | The header loop produces the seven weekday headers in order. |
| `Popup.RenderLeadingDays` | popup.js:350-353 | The descending loop produces the previous month's last `firstDay` days, oldest first. |
| `Popup.RenderCurrentDays` | popup.js:324-366 | The counting pass and the day loop produce exactly the month's day cells. |
| `Popup.RenderTrailingDays` | popup.js:371-373 | The trailing loop produces days `1..n` of the next month. |
| `Popup.RenderGrid` | popup.js:343-373 | The grid is the leading days, the month's days and fewer than seven next-month days, filling whole weeks. |
| `Popup.RenderCalendar` | popup.js:312-377 | The label is the month's name and the year. The cells are the seven headers followed by the whole-week grid. |
| `Background.InstalledName` | background.js:8-10 | The name is kept when present and non-empty, and otherwise becomes `krit`. It is never empty afterwards. |
| `Background.InstalledSessions` | background.js:11-13 | A present log, even an empty one, is kept. Only a missing log becomes `[]`. |
| `Background.OnInstalled` | background.js:3-15 | Install writes exactly those two defaults, touches no other key, and keeps the invariant. |
| `Background.InstallIdempotent` | background.js:7-13 | Installing twice writes nothing more than installing once, and an existing log is never reset. |
| `Background.FirstInstall` | background.js:3-15 | A first install leaves the name `krit`, an empty log and no timer record. |
| `Background.BadgeCount` | background.js:33 | The badge count is the number of log entries that are focus sessions dated today. It is the day's focus count and never exceeds the log's length. |
| `Background.UpdateBadge` | background.js:29-42 | The text is empty exactly when the count is zero. A colour is set exactly when the count is positive, and it is `#dc2626`. A non-empty text is the count's digits with no leading zero. |
| `Background.OnStorageChanged` | background.js:23-27 | The badge is recomputed exactly when the `sessions` key changed. |
| `Background.BadgeMatchesPopup` | background.js:33 | The badge count equals the popup's "today" count. |
| `Background.ClearedLogBadge` | background.js:29-42 | With an empty log the badge text is empty and no colour is set. |

The following functions carry no contract of their own. The lemma named
with each one states its meaning:

- the transitions `Timer.SwitchedTo`, `Timer.Started`, `Timer.Paused` and
  `Timer.Reset`: `Timer.SwitchPhaseOutcome`, `Timer.StartOutcome`,
  `Timer.PauseOutcome` and `Timer.ResetOutcome`, with
  `Timer.CommandsKeepInvariants`;
- `Timer.Elapsed`: `Timer.ElapsedIsZero`;
- `SessionLog.CountOn`: `SessionLog.CountOnEntries` and
  `SessionLog.FocusDateIffCounted`;
- `Popup.SessionsLabel` and `Popup.LogEntry.Details`:
  `Popup.SessionsLabelCount`;
- `Popup.LogEntry.Time`: `Popup.EntryTime`;
- `Popup.DateKey`: `Popup.DateKeyDay`;
- `Popup.DayCell`: `Popup.DayCellFlags`;
- `Popup.HeaderRow`, the seven weekday headers `S M T W T F S`: its
  comprehension is the definition, and `Popup.RenderHeaders` proves the
  header loop against it.

The readers `Popup.ParseClock` and `Popup.ParseDuration` are not part of the
source. They are the reference inverses that the round-trip lemmas use. They
accept only fields as `String(n)` writes them: no leading zero, except the
`padStart(2, '0')` padding of the clock. So a round trip together with the
matching `Exact` lemma fixes the text uniquely.

## Left out

- Day keys are assumed to be `YYYY-MM-DD` strings. The source groups and counts in plain objects (`{}`, popup.js:268, 324). A key naming an `Object.prototype` member (`constructor`, `toString`, `__proto__`) would look present on its first visit: `loadLogs` would throw on `.push` and `renderCalendar` would store `NaN`. The model's maps have no inherited keys, and that behaviour is not modelled.

- `result.sessions || []` (popup.js:234, 259, 323) is applied before the popup's functions are called: `Popup.LoadStats`, `Popup.LoadLogs` and `Popup.RenderCalendar` take the log as read, with a missing log passed as `[]`. `Background.UpdateBadge` takes the stored value and applies the default itself.

- `Popup.PauseTimer`: with no stored record, the source spreads `undefined` and stores a partial record `{isRunning: false, endTime: null}`. The model leaves the key absent, because its timer record always has all four fields.
- `Popup.UpdateDisplay`: takes the seconds as a natural number. Negative or fractional `remainingSeconds` cannot arise from the popup's own writes, and they are not modelled.
- `Popup.RenderCurrentDays`: computes the per-day counts itself, after the header and leading-day cells. The source counts first. The counting is pure, so the cells are the same.
- `Popup.RenderCalendar`: requires `month < 12`, which `getMonth()` always satisfies. The month facts (`firstDay`, `daysInMonth`, `daysInPrevMonth`) and today's key are parameters. The `Date` arithmetic that produces them is not modelled, and neither is any relation between them.
- Phases: the source compares `currentPhase` with `'focus'` and treats every other value as the break. The model has exactly the two phases.
- Sessions: only `date` and `phase` are modelled. The popup and the badge read no other field.
- Key order: JavaScript compares strings by UTF-16 code units, and the model compares characters. The two differ only for characters outside the Basic Multilingual Plane, which day keys do not contain.
- Output: the calendar and the log are modelled as cell and line values, not as HTML strings. `formatDate`, which labels a log line as today, yesterday or a locale date, is not modelled.
- Time: `Date.now()` and today's `YYYY-MM-DD` key are parameters. The ISO conversion in UTC is not modelled.
- Browser APIs: alarm creation and clearing, notifications, `action.openPopup`, the badge calls themselves, `console.log`, the 1-second polling in `loadTimerState`, `setProgress` (floating point), `switchMode`, `changeMonth` and `init` are I/O or DOM work, and are not modelled.
- Concurrency: each popup command is modelled as one atomic read followed by one write. Interleavings of the asynchronous storage callbacks between the popup and the worker are not modelled.
- offscreen.js is not part of this model.
