/** popup.js: the timer commands, the time and duration texts, the
    statistics, the log grouped by day and the month calendar. The store
    is a `Storage.Store`; the clock (`Date.now()`), today's date key, the
    confirmation dialog and the calendar's month facts are parameters. */
module Popup {
  import opened Wrappers
  import opened Text
  import opened Timer
  import opened SessionLog
  import opened DateOrder
  import opened Storage

  // ---------------------------------------------------------------------
  // Timer commands: read the stored record, write a new one.

  /** switchPhase(phase). */
  method SwitchPhase(store: Store, phase: Phase)
    modifies store`timerState
    ensures store.timerState == SwitchedTo(old(store.timerState), phase)
    ensures old(store.Valid()) ==> store.Valid()
  {
    var state := store.timerState;
    if state.Some? && state.value.isRunning {
      return;
    }
    var newDuration := if phase == Focus then FOCUS_DURATION else BREAK_DURATION;
    store.timerState := Some(TimerState(false, newDuration, phase, None));
  }

  /** startTimer() at time `now`. Without a stored record the callback
      fails on `state.remainingSeconds` before writing anything; `ok`
      reports whether the write happened. */
  method StartTimer(store: Store, now: int) returns (ok: bool)
    modifies store`timerState
    ensures ok <==> old(store.timerState).Some?
    ensures ok ==> store.timerState == Some(Started(old(store.timerState).value, now))
    ensures !ok ==> store.timerState == old(store.timerState)
    ensures old(store.Valid()) ==> store.Valid()
  {
    var state := store.timerState;
    if state.None? {
      return false;
    }
    var endTime := now + state.value.remainingSeconds * 1000;
    store.timerState := Some(state.value.(isRunning := true, endTime := Some(endTime)));
    ok := true;
  }

  /** pauseTimer(). */
  method PauseTimer(store: Store)
    modifies store`timerState
    ensures old(store.timerState).Some? ==>
      store.timerState == Some(Paused(old(store.timerState).value))
    ensures old(store.timerState).None? ==> store.timerState.None?
    ensures old(store.Valid()) ==> store.Valid()
  {
    var state := store.timerState;
    if state.Some? {
      store.timerState := Some(state.value.(isRunning := false, endTime := None));
    }
  }

  /** resetTimer(). Without a stored record the callback fails on
      `state.currentPhase` before writing anything. */
  method ResetTimer(store: Store) returns (ok: bool)
    modifies store`timerState
    ensures ok <==> old(store.timerState).Some?
    ensures ok ==> store.timerState == Some(Reset(old(store.timerState).value))
    ensures !ok ==> store.timerState == old(store.timerState)
    ensures store.Valid()
  {
    var state := store.timerState;
    if state.None? {
      return false;
    }
    var newDuration := if state.value.currentPhase == Focus then FOCUS_DURATION else BREAK_DURATION;
    store.timerState := Some(TimerState(false, newDuration, state.value.currentPhase, None));
    ok := true;
  }

  // ---------------------------------------------------------------------
  // Texts.

  /** updateDisplay(seconds): `MM:SS`, both fields zero-padded to at least
      two digits. */
  function UpdateDisplay(seconds: nat): (text: string)
    ensures |text| >= 5 && text[|text| - 3] == ':'
    ensures seconds < 6000 ==> |text| == 5
  {
    var minutes := seconds / 60;
    var secs := seconds % 60;
    PadTwo(Decimal(minutes)) + (":" + PadTwo(Decimal(secs)))
  }

  /** Reads an `MM:SS` text back: a minutes field of at least two digits
      (more only without a leading zero), a colon, and a two-digit seconds
      field below 60. */
  function ParseClock(text: string): Option<nat> {
    var m, rest := SplitDigits(text).0, SplitDigits(text).1;
    if !PaddedField(m) then None else ParseSeconds(m, rest)
  }

  /** A field as `padStart(2, '0')` leaves `String(n)`: two digits, or more
      without a leading zero. */
  predicate PaddedField(m: string) {
    |m| >= 2 && (|m| > 2 ==> m[0] != '0')
  }

  /** The `:SS` part after a minute count `m`. */
  function ParseSeconds(m: string, rest: string): Option<nat>
    requires AllDigits(m)
  {
    if rest == [] || rest[0] != ':' then None
    else
      var s, tail := SplitDigits(rest[1..]).0, SplitDigits(rest[1..]).1;
      if |s| != 2 || tail != [] || Value(s) >= 60 then None
      else Some(Value(m) * 60 + Value(s))
  }

  lemma ParseClockPrefix(mm: string, rest: string)
    requires PaddedField(mm) && AllDigits(mm)
    requires rest != [] && !IsDigit(rest[0])
    ensures ParseClock(mm + rest) == ParseSeconds(mm, rest)
  {
    SplitDigitsAt(mm, rest);
  }

  lemma ParseSecondsField(mm: string, ss: string)
    requires AllDigits(mm)
    requires |ss| == 2 && AllDigits(ss) && Value(ss) < 60
    ensures ParseSeconds(mm, ":" + ss) == Some(Value(mm) * 60 + Value(ss))
  {
    assert (":" + ss)[1..] == ss;
    SplitDigitsAll(ss);
  }

  /** Two digit fields around a colon read back as minutes and seconds. */
  lemma ParseClockFields(mm: string, ss: string)
    requires PaddedField(mm) && |ss| == 2 && AllDigits(mm) && AllDigits(ss) && Value(ss) < 60
    ensures ParseClock(mm + (":" + ss)) == Some(Value(mm) * 60 + Value(ss))
  {
    ParseClockPrefix(mm, ":" + ss);
    ParseSecondsField(mm, ss);
  }

  /** The display text denotes `minutes * 60 + secs == seconds` with
      `secs < 60`. */
  lemma UpdateDisplayRoundTrip(seconds: nat)
    ensures ParseClock(UpdateDisplay(seconds)) == Some(seconds)
  {
    var minutes, secs := seconds / 60, seconds % 60;
    DecimalValue(minutes);
    DecimalValue(secs);
    PadTwoValue(Decimal(minutes));
    PadTwoValue(Decimal(secs));
    assert minutes * 60 + secs == seconds;
    ParseClockFields(PadTwo(Decimal(minutes)), PadTwo(Decimal(secs)));
  }

  /** A padded field is exactly what `padStart(2, '0')` makes of
      `String(n)` for the number `n` it denotes. */
  lemma PaddedFieldIsPadTwo(m: string)
    requires AllDigits(m) && PaddedField(m)
    ensures m == PadTwo(Decimal(Value(m)))
  {
    if m[0] == '0' {
      var t := m[1..];
      assert m == "0" + t;
      LeadingZeroValue(t);
      NoLeadingZeroIsDecimal(t);
    } else {
      NoLeadingZeroIsDecimal(m);
    }
  }

  /** The clock reader accepts no other text: whatever it reads as
      `seconds` is the display text of `seconds`. */
  lemma ParseClockExact(text: string, seconds: nat)
    requires ParseClock(text) == Some(seconds)
    ensures text == UpdateDisplay(seconds)
  {
    var m, rest := SplitDigits(text).0, SplitDigits(text).1;
    assert text == m + rest;
    var ss, tail := SplitDigits(rest[1..]).0, SplitDigits(rest[1..]).1;
    assert rest == [':'] + rest[1..];
    assert rest[1..] == ss + tail && tail == [];
    assert text == m + (":" + ss);
    PaddedFieldIsPadTwo(m);
    PaddedFieldIsPadTwo(ss);
    ClockFieldsOf(Value(m), Value(ss), seconds);
  }

  lemma ClockFieldsOf(minutes: nat, secs: nat, seconds: nat)
    requires secs < 60 && seconds == minutes * 60 + secs
    ensures seconds / 60 == minutes && seconds % 60 == secs
  {
  }

  /** formatMinutes(minutes): `Xm` under an hour, `Hh Mm` from an hour on. */
  function FormatMinutes(minutes: nat): (text: string)
    ensures |text| >= 2 && text[|text| - 1] == 'm'
    ensures minutes < 60 <==> 'h' !in text
  {
    var hours := minutes / 60;
    var mins := minutes % 60;
    if hours == 0 then Decimal(mins) + "m"
    else
      var t := Decimal(hours) + ("h " + (Decimal(mins) + "m"));
      assert t[|Decimal(hours)|] == 'h';
      t
  }

  /** Reads a duration text back: `Mm`, or `Hh Mm` with `H > 0`, and in
      both cases `M < 60`; every field as `String(n)` writes it. */
  function ParseDuration(text: string): Option<nat> {
    var h, rest := SplitDigits(text).0, SplitDigits(text).1;
    if !NoLeadingZero(h) then None
    else if rest == "m" then
      if Value(h) < 60 then Some(Value(h)) else None
    else ParseAfterHours(h, rest)
  }

  /** The `h Mm` part after an hour count `h`. */
  function ParseAfterHours(h: string, rest: string): Option<nat>
    requires AllDigits(h)
  {
    if |rest| >= 2 && rest[0] == 'h' && rest[1] == ' ' then
      var m, tail := SplitDigits(rest[2..]).0, SplitDigits(rest[2..]).1;
      if !NoLeadingZero(m) || tail != "m" || Value(m) >= 60 || Value(h) == 0 then None
      else Some(Value(h) * 60 + Value(m))
    else None
  }

  /** `Xm` with `X < 60` reads back as `X`. */
  lemma ParseMinutesOnly(mins: string)
    requires NoLeadingZero(mins) && AllDigits(mins) && Value(mins) < 60
    ensures ParseDuration(mins + "m") == Some(Value(mins))
  {
    SplitDigitsAt(mins, "m");
  }

  lemma ParseAfterHoursFields(h: string, mins: string)
    requires AllDigits(h) && Value(h) > 0
    requires NoLeadingZero(mins) && AllDigits(mins) && Value(mins) < 60
    ensures ParseAfterHours(h, "h " + (mins + "m")) == Some(Value(h) * 60 + Value(mins))
  {
    var rest := "h " + (mins + "m");
    assert rest[2..] == mins + "m";
    SplitDigitsAt(mins, "m");
  }

  /** A non-empty run of digits followed by anything but a lone `m` hands
      the rest to the hours reader. */
  lemma ParseHoursPrefix(hours: string, rest: string)
    requires NoLeadingZero(hours) && AllDigits(hours)
    requires rest != [] && !IsDigit(rest[0]) && rest != "m"
    ensures ParseDuration(hours + rest) == ParseAfterHours(hours, rest)
  {
    SplitDigitsAt(hours, rest);
  }

  /** `Hh Mm` with `H > 0` and `M < 60` reads back as `H * 60 + M`. */
  lemma ParseHoursAndMinutes(hours: string, mins: string)
    requires NoLeadingZero(hours) && AllDigits(hours) && Value(hours) > 0
    requires NoLeadingZero(mins) && AllDigits(mins) && Value(mins) < 60
    ensures ParseDuration(hours + ("h " + (mins + "m"))) == Some(Value(hours) * 60 + Value(mins))
  {
    var rest := "h " + (mins + "m");
    assert rest != "m" by { assert |rest| > 1; }
    ParseHoursPrefix(hours, rest);
    ParseAfterHoursFields(hours, mins);
  }

  /** The duration text denotes exactly `minutes`: hours times 60 plus a
      minute field below 60. */
  lemma FormatMinutesRoundTrip(minutes: nat)
    ensures ParseDuration(FormatMinutes(minutes)) == Some(minutes)
  {
    var hours, mins := minutes / 60, minutes % 60;
    assert minutes == hours * 60 + mins;
    if hours == 0 {
      assert FormatMinutes(minutes) == Decimal(mins) + "m";
      MinutesTextRoundTrip(mins);
    } else {
      assert FormatMinutes(minutes) == Decimal(hours) + ("h " + (Decimal(mins) + "m"));
      HoursTextRoundTrip(hours, mins);
    }
  }

  lemma MinutesTextRoundTrip(mins: nat)
    requires mins < 60
    ensures ParseDuration(Decimal(mins) + "m") == Some(mins)
  {
    DecimalValue(mins);
    ParseMinutesOnly(Decimal(mins));
  }

  lemma HoursTextRoundTrip(hours: nat, mins: nat)
    requires hours > 0 && mins < 60
    ensures ParseDuration(Decimal(hours) + ("h " + (Decimal(mins) + "m"))) == Some(hours * 60 + mins)
  {
    DecimalValue(hours);
    DecimalValue(mins);
    ParseHoursAndMinutes(Decimal(hours), Decimal(mins));
  }

  /** The duration reader accepts no other text: whatever it reads as
      `minutes` is `formatMinutes(minutes)`. */
  lemma ParseDurationExact(text: string, minutes: nat)
    requires ParseDuration(text) == Some(minutes)
    ensures text == FormatMinutes(minutes)
  {
    var h, rest := SplitDigits(text).0, SplitDigits(text).1;
    assert text == h + rest;
    NoLeadingZeroIsDecimal(h);
    if rest == "m" {
      ClockFieldsOf(0, minutes, minutes);
    } else {
      var mm, tail := SplitDigits(rest[2..]).0, SplitDigits(rest[2..]).1;
      assert rest == "h " + rest[2..];
      assert rest[2..] == mm + tail && tail == "m";
      NoLeadingZeroIsDecimal(mm);
      ClockFieldsOf(Value(h), Value(mm), minutes);
      assert text == Decimal(Value(h)) + ("h " + (Decimal(Value(mm)) + "m"));
    }
  }

  /** The texts of one session (50 minutes) and of four (200 minutes). */
  lemma FormatMinutesExample()
    ensures FormatMinutes(50) == "50m"
    ensures FormatMinutes(200) == "3h 20m"
  {
    assert Decimal(50) == Decimal(5) + "0";
    assert Decimal(3) == "3";
    assert Decimal(20) == Decimal(2) + "0";
  }

  // ---------------------------------------------------------------------
  // Statistics (loadStats).

  datatype StatsView = StatsView(
    todaySessions: nat,
    todayTime: string,
    totalSessions: nat,
    totalTime: string)

  /** loadStats over the stored log and today's date key: today's and the
      all-time focus counts and 50 minutes per session. */
  function LoadStats(sessions: seq<Session>, today: string): (v: StatsView)
    ensures v.todaySessions == CountOn(sessions, today)
    ensures v.todaySessions == multiset(sessions)[Session(today, Focus)]
    ensures v.todaySessions <= v.totalSessions
    ensures v.totalSessions == |FocusSessions(sessions)|
    ensures v.todayTime == FormatMinutes(v.todaySessions * 50)
    ensures v.totalTime == FormatMinutes(v.totalSessions * 50)
  {
    var todaysSessions := TodaysSessions(sessions, today);
    var allFocusSessions := FocusSessions(sessions);
    TodaysSessionsByDate(sessions, today);
    TodayAtMostTotal(sessions, today);
    CountOnEntries(sessions, today);
    StatsView(
      |todaysSessions|, FormatMinutes(|todaysSessions| * 50),
      |allFocusSessions|, FormatMinutes(|allFocusSessions| * 50))
  }

  /** Both time fields read back as 50 minutes per focus session counted. */
  lemma LoadStatsTimes(sessions: seq<Session>, today: string)
    ensures ParseDuration(LoadStats(sessions, today).todayTime) == Some(CountOn(sessions, today) * 50)
    ensures ParseDuration(LoadStats(sessions, today).totalTime) == Some(|FocusSessions(sessions)| * 50)
  {
    var v := LoadStats(sessions, today);
    FormatMinutesRoundTrip(v.todaySessions * 50);
    FormatMinutesRoundTrip(v.totalSessions * 50);
  }

  /** Three focus sessions on one day and one on another, today: one
      session today, four in all, 3h 20m in all. */
  lemma LoadStatsExample(day1: string, day2: string)
    requires day1 != day2
    ensures
      var log := [Session(day1, Focus), Session(day1, Focus), Session(day1, Focus), Session(day2, Focus)];
      LoadStats(log, day2) == StatsView(1, "50m", 4, "3h 20m")
  {
    ExampleFilters(Session(day1, Focus), Session(day2, Focus));
    FormatMinutesExample();
  }

  lemma ExampleFilters(a: Session, b: Session)
    requires a.phase == Focus && b.phase == Focus && a.date != b.date
    ensures TodaysSessions([a, a, a, b], b.date) == [b]
    ensures FocusSessions([a, a, a, b]) == [a, a, a, b]
  {
    NothingOnDay([a, a, a], b.date);
    assert Init([a, a, a, b]) == [a, a, a];
    AllFocusKept([a, a, a, b]);
  }

  // ---------------------------------------------------------------------
  // Clearing the log (clearAllLogs).

  /** clearAllLogs: on confirmation the log becomes `[]`. */
  method ClearAllLogs(store: Store, confirmed: bool)
    modifies store`sessions
    ensures store.sessions == if confirmed then Some([]) else old(store.sessions)
  {
    if confirmed {
      store.sessions := Some([]);
    }
  }

  /** After clearing, every statistic is zero. */
  lemma ClearedLogStats(today: string)
    ensures LoadStats([], today) == StatsView(0, "0m", 0, "0m")
  {
    assert Decimal(0) == "0";
  }

  // ---------------------------------------------------------------------
  // The log grouped by day (loadLogs).

  /** One line of the log: a day and its focus-session count, shown as
      the count's label and the time it stands for. */
  datatype LogEntry = LogEntry(date: string, count: nat) {
    /** The `log-details` text. */
    function Details(): string {
      SessionsLabel(count)
    }

    /** The `log-time` text: `formatMinutes(sessions.length * 50)`. */
    function Time(): string {
      FormatMinutes(count * 50)
    }
  }

  datatype LogsView = NoSessions | Entries(entries: seq<LogEntry>)

  /** `${n} session${n !== 1 ? 's' : ''} completed`. */
  function SessionsLabel(n: nat): string {
    Decimal(n) + ((if n != 1 then " sessions" else " session") + " completed")
  }

  /** The label starts with the count, and the noun after it is plural
      exactly when the count is not one. */
  lemma SessionsLabelCount(n: nat)
    ensures var digits, rest := SplitDigits(SessionsLabel(n)).0, SplitDigits(SessionsLabel(n)).1;
      && NoLeadingZero(digits) && Value(digits) == n
      && |rest| > 8 && rest[..8] == " session"
      && (rest[8] == 's' <==> n != 1)
  {
    var noun := if n != 1 then " sessions" else " session";
    var rest := noun + " completed";
    SplitDigitsAt(Decimal(n), rest);
    DecimalValue(n);
    assert rest[..8] == noun[..8];
  }

  /** The sum of the counts shown. */
  function TotalCount(es: seq<LogEntry>): nat {
    if es == [] then 0 else TotalCount(es[..|es| - 1]) + es[|es| - 1].count
  }

  lemma {:induction false} OnDateOutside(s: seq<Session>, d: string)
    requires d !in DatesIn(s)
    ensures OnDate(s, d) == []
  {
    DatesInMembership(s, d);
    if OnDate(s, d) != [] {
      assert OnDate(s, d)[0] in OnDate(s, d);
    }
  }

  /** The `forEach` that builds `sessionsByDate`: each day's sessions in
      log order, and the days in the order they were first seen
      (`Object.keys`). */
  method GroupByDate(focusSessions: seq<Session>) returns (groups: map<string, seq<Session>>, keys: seq<string>)
    ensures Distinct(keys)
    ensures forall d :: d in groups <==> d in keys
    ensures forall d :: d in keys <==> d in DatesIn(focusSessions)
    ensures forall d :: d in groups ==> groups[d] == OnDate(focusSessions, d)
  {
    groups, keys := map[], [];
    for i := 0 to |focusSessions|
      invariant Distinct(keys)
      invariant forall d :: d in groups <==> d in keys
      invariant forall d :: d in keys <==> d in DatesIn(focusSessions[..i])
      invariant forall d :: d in groups ==> groups[d] == OnDate(focusSessions[..i], d)
    {
      var session := focusSessions[i];
      assert Init(focusSessions[..i + 1]) == focusSessions[..i];
      if session.date !in groups {
        OnDateOutside(focusSessions[..i], session.date);
        groups := groups[session.date := []];
        keys := keys + [session.date];
      }
      groups := groups[session.date := groups[session.date] + [session]];
    }
    assert focusSessions[..|focusSessions|] == focusSessions;
  }

  /** The days of a list of lines, in display order. */
  function DatesOf(es: seq<LogEntry>): (ds: seq<string>)
    ensures |ds| == |es|
    ensures forall i :: 0 <= i < |es| ==> ds[i] == es[i].date
  {
    seq(|es|, i requires 0 <= i < |es| => es[i].date)
  }

  /** One line per day of `dates`, in that order, counting that day's
      entries of `s`. */
  function LogLines(s: seq<Session>, dates: seq<string>): (r: seq<LogEntry>)
    ensures |r| == |dates|
  {
    if dates == [] then []
    else
      var last := dates[|dates| - 1];
      LogLines(s, dates[..|dates| - 1]) + [LogEntry(last, |OnDate(s, last)|)]
  }

  /** The line at position `i` is the line of the `i`-th day. */
  lemma {:induction false} LogLinesAt(s: seq<Session>, dates: seq<string>, i: nat)
    requires i < |dates|
    ensures LogLines(s, dates)[i] == LogEntry(dates[i], |OnDate(s, dates[i])|)
  {
    var init := dates[..|dates| - 1];
    if i < |init| {
      LogLinesAt(s, init, i);
      assert init[i] == dates[i];
    }
  }

  /** The counts shown add up to the per-day sum. */
  lemma {:induction false} LogLinesTotal(s: seq<Session>, dates: seq<string>)
    ensures TotalCount(LogLines(s, dates)) == SumOn(s, dates)
  {
    if dates != [] {
      var lines := LogLines(s, dates);
      LogLinesTotal(s, dates[..|dates| - 1]);
      assert lines[..|lines| - 1] == LogLines(s, dates[..|dates| - 1]);
    }
  }

  /** The `sortedDates.forEach` that renders one line per day, from that
      day's group. */
  method RenderEntries(focusSessions: seq<Session>, groups: map<string, seq<Session>>, dates: seq<string>)
    returns (entries: seq<LogEntry>)
    requires forall d :: d in dates ==> d in groups && groups[d] == OnDate(focusSessions, d)
    ensures entries == LogLines(focusSessions, dates)
  {
    entries := [];
    for k := 0 to |dates|
      invariant entries == LogLines(focusSessions, dates[..k])
    {
      var date := dates[k];
      var daySessions := groups[date];
      assert dates[..k + 1][..k] == dates[..k];
      entries := entries + [LogEntry(date, |daySessions|)];
    }
    assert dates[..|dates|] == dates;
  }

  /** loadLogs: nothing when there is no focus session; otherwise one
      line per day that has focus sessions, newest first, whose counts
      are that day's focus count and add up to the focus total. */
  method LoadLogs(sessions: seq<Session>) returns (view: LogsView)
    ensures view.NoSessions? <==> FocusSessions(sessions) == []
    ensures view.Entries? ==> Descending(DatesOf(view.entries))
    ensures view.Entries? ==> forall d :: d in FocusDates(sessions) <==> d in DatesOf(view.entries)
    ensures view.Entries? ==>
      forall i :: 0 <= i < |view.entries| ==>
        view.entries[i].count == CountOn(sessions, view.entries[i].date) > 0
    ensures view.Entries? ==> TotalCount(view.entries) == |FocusSessions(sessions)|
  {
    var focusSessions := FocusSessions(sessions);
    if |focusSessions| == 0 {
      return NoSessions;
    }
    var sessionsByDate, keys := GroupByDate(focusSessions);
    var sortedDates := NewestFirst(keys);
    DescendingIsDistinct(sortedDates);
    var entries := RenderEntries(focusSessions, sessionsByDate, sortedDates);
    forall i | 0 <= i < |entries|
      ensures entries[i].date == sortedDates[i]
      ensures entries[i].count > 0
      ensures entries[i].count == CountOn(sessions, entries[i].date)
    {
      LogLinesAt(focusSessions, sortedDates, i);
      FocusDateIffCounted(sessions, sortedDates[i]);
    }
    assert DatesOf(entries) == sortedDates;
    LogLinesTotal(focusSessions, sortedDates);
    GroupSizesSum(focusSessions, sortedDates);
    view := Entries(entries);
  }

  /** A line's time reads back as 50 minutes per session counted. */
  lemma EntryTime(e: LogEntry)
    ensures ParseDuration(e.Time()) == Some(e.count * 50)
  {
    FormatMinutesRoundTrip(e.count * 50);
  }

  // ---------------------------------------------------------------------
  // The month calendar (renderCalendar).

  const MONTH_NAMES: seq<string> := ["January", "February", "March", "April", "May", "June",
    "July", "August", "September", "October", "November", "December"]

  const DAY_HEADERS: seq<string> := ["S", "M", "T", "W", "T", "F", "S"]

  datatype Cell =
    | Header(name: string)
    | OtherMonth(day: int)
    | MonthDay(day: int, isToday: bool, hasSessions: bool)

  /** `${year}-${MM}-${DD}` for month index `month` (0 = January). */
  function DateKey(year: int, month: nat, day: nat): string {
    IntToString(year) + "-" + PadTwo(Decimal(month + 1)) + "-" + PadTwo(Decimal(day))
  }

  /** The last field of a day's key reads back as that day, so different
      days of one month never share a key. */
  lemma DateKeyDay(year: int, month: nat, day: nat)
    requires day < 100
    ensures var key := DateKey(year, month, day);
      |key| >= 3 && key[|key| - 3] == '-' && AllDigits(key[|key| - 2..])
      && Value(key[|key| - 2..]) == day
  {
    var dd := PadTwo(Decimal(day));
    var prefix := IntToString(year) + "-" + PadTwo(Decimal(month + 1)) + "-";
    assert DateKey(year, month, day) == prefix + dd;
    assert |dd| == 2;
    assert (prefix + dd)[|prefix + dd| - 2..] == dd;
    assert (prefix + dd)[|prefix + dd| - 3] == '-';
    DecimalValue(day);
    PadTwoValue(Decimal(day));
  }

  /** `Math.ceil(n / 7) * 7`: the smallest multiple of seven that is at
      least `n`, written as `n` rounded up past its remainder. */
  function WeekCeil(n: nat): (r: nat)
    ensures r % 7 == 0 && n <= r < n + 7
  {
    (n + 6) - (n + 6) % 7
  }

  /** The rounding agrees with the source's `Math.ceil(n / 7) * 7`. */
  lemma WeekCeilFormula(n: nat)
    ensures WeekCeil(n) == ((n + 6) / 7) * 7
  {
    assert (n + 6) == ((n + 6) / 7) * 7 + (n + 6) % 7;
  }

  /** The focus-session count per day key (`sessionDates`). */
  method CountByDate(sessions: seq<Session>) returns (sessionDates: map<string, nat>)
    ensures forall d :: d in sessionDates <==> d in FocusDates(sessions)
    ensures forall d :: d in sessionDates ==> sessionDates[d] == CountOn(sessions, d)
  {
    var focusSessions := FocusSessions(sessions);
    sessionDates := map[];
    for i := 0 to |focusSessions|
      invariant forall d :: d in sessionDates <==> d in DatesIn(focusSessions[..i])
      invariant forall d :: d in sessionDates ==> sessionDates[d] == |OnDate(focusSessions[..i], d)|
    {
      var date := focusSessions[i].date;
      PrefixStep(focusSessions, i);
      if date !in sessionDates {
        OnDateOutside(focusSessions[..i], date);
        sessionDates := sessionDates[date := 0];
      }
      sessionDates := sessionDates[date := sessionDates[date] + 1];
    }
    assert focusSessions[..|focusSessions|] == focusSessions;
  }

  /** The cell of day `day` of the month: flagged when its key is today's
      and when a focus session is logged on it. */
  function DayCell(year: int, month: nat, day: nat, today: string, sessions: seq<Session>): Cell {
    var key := DateKey(year, month, day);
    MonthDay(day, key == today, CountOn(sessions, key) > 0)
  }

  /** The seven weekday headers. */
  function HeaderRow(): seq<Cell> {
    seq(7, k requires 0 <= k < 7 => Header(DAY_HEADERS[k]))
  }

  /** The previous month's last `firstDay` days, oldest first. */
  function LeadingDays(firstDay: nat, daysInPrevMonth: int): (r: seq<Cell>)
    ensures |r| == firstDay
    ensures forall j :: 0 <= j < |r| ==> r[j].OtherMonth?
    ensures firstDay > 0 ==> r[firstDay - 1] == OtherMonth(daysInPrevMonth)
    ensures forall j :: 0 < j < |r| ==> r[j].day == r[j - 1].day + 1
  {
    seq(firstDay, j => OtherMonth(daysInPrevMonth - firstDay + 1 + j))
  }

  /** Days `1..daysInMonth` of the month shown. */
  function CurrentDays(year: int, month: nat, daysInMonth: nat, today: string, sessions: seq<Session>): (r: seq<Cell>)
    ensures |r| == daysInMonth
  {
    if daysInMonth == 0 then []
    else CurrentDays(year, month, daysInMonth - 1, today, sessions) + [DayCell(year, month, daysInMonth, today, sessions)]
  }

  /** The `i`-th cell of the month (0-based) is the cell of day `i + 1`. */
  lemma {:induction false} CurrentDaysAt(
    year: int, month: nat, daysInMonth: nat, today: string, sessions: seq<Session>, i: nat)
    requires i < daysInMonth
    ensures CurrentDays(year, month, daysInMonth, today, sessions)[i] == DayCell(year, month, i + 1, today, sessions)
  {
    var init := CurrentDays(year, month, daysInMonth - 1, today, sessions);
    var last := DayCell(year, month, daysInMonth, today, sessions);
    assert CurrentDays(year, month, daysInMonth, today, sessions) == init + [last];
    if i < daysInMonth - 1 {
      CurrentDaysAt(year, month, daysInMonth - 1, today, sessions, i);
      assert (init + [last])[i] == init[i];
    }
  }

  /** A day's cell shows its day number, is marked as today exactly when
      its key is today's, and as a session day exactly when a focus
      session is logged under its key. */
  lemma DayCellFlags(year: int, month: nat, day: nat, today: string, sessions: seq<Session>)
    ensures var cell := DayCell(year, month, day, today, sessions);
      && cell.MonthDay?
      && cell.day == day
      && (cell.isToday <==> DateKey(year, month, day) == today)
      && (cell.hasSessions <==> DateKey(year, month, day) in FocusDates(sessions))
  {
    FocusDateIffCounted(sessions, DateKey(year, month, day));
  }

  /** The next month's first `n` days. */
  function TrailingDays(n: nat): (r: seq<Cell>)
    ensures |r| == n
    ensures forall j :: 0 <= j < |r| ==> r[j].OtherMonth?
    ensures n > 0 ==> r[0] == OtherMonth(1)
    ensures forall j :: 0 < j < |r| ==> r[j].day == r[j - 1].day + 1
  {
    seq(n, j => OtherMonth(j + 1))
  }

  method RenderHeaders() returns (cells: seq<Cell>)
    ensures cells == HeaderRow()
  {
    cells := [];
    for h := 0 to 7
      invariant |cells| == h
      invariant forall k :: 0 <= k < h ==> cells[k] == Header(DAY_HEADERS[k])
    {
      cells := cells + [Header(DAY_HEADERS[h])];
    }
  }

  /** The loop `for (i = firstDay - 1; i >= 0; i--)`. */
  method RenderLeadingDays(firstDay: nat, daysInPrevMonth: int) returns (cells: seq<Cell>)
    ensures cells == LeadingDays(firstDay, daysInPrevMonth)
  {
    cells := [];
    var i: int := firstDay - 1;
    while i >= 0
      invariant -1 <= i <= firstDay - 1
      invariant |cells| == firstDay - 1 - i
      invariant forall k :: 0 <= k < |cells| ==> cells[k] == OtherMonth(daysInPrevMonth - firstDay + 1 + k)
    {
      cells := cells + [OtherMonth(daysInPrevMonth - i)];
      i := i - 1;
    }
  }

  /** `sessionDates[key] > 0` on the per-day counts: the day has a focus
      session, whether or not the key was ever counted. */
  lemma CountedFlag(sessions: seq<Session>, sessionDates: map<string, nat>, key: string)
    requires forall d :: d in sessionDates <==> d in FocusDates(sessions)
    requires forall d :: d in sessionDates ==> sessionDates[d] == CountOn(sessions, d)
    ensures (key in sessionDates && sessionDates[key] > 0) <==> CountOn(sessions, key) > 0
  {
    FocusDateIffCounted(sessions, key);
  }

  /** The per-day counts `sessionDates`, then the loop over the month's
      days that flags each day from them. */
  method RenderCurrentDays(year: int, month: nat, daysInMonth: nat, today: string, sessions: seq<Session>)
    returns (cells: seq<Cell>)
    ensures cells == CurrentDays(year, month, daysInMonth, today, sessions)
  {
    var sessionDates := CountByDate(sessions);
    cells := [];
    for day := 1 to daysInMonth + 1
      invariant cells == CurrentDays(year, month, day - 1, today, sessions)
    {
      var dateStr := DateKey(year, month, day);
      var isToday := dateStr == today;
      var hasSessions := dateStr in sessionDates && sessionDates[dateStr] > 0;
      CountedFlag(sessions, sessionDates, dateStr);
      assert MonthDay(day, isToday, hasSessions) == DayCell(year, month, day, today, sessions);
      cells := cells + [MonthDay(day, isToday, hasSessions)];
    }
  }

  /** The loop that fills the last week with the next month's days. */
  method RenderTrailingDays(n: nat) returns (cells: seq<Cell>)
    ensures cells == TrailingDays(n)
  {
    cells := [];
    for day := 1 to n + 1
      invariant |cells| == day - 1
      invariant forall k :: 0 <= k < |cells| ==> cells[k] == OtherMonth(k + 1)
    {
      cells := cells + [OtherMonth(day)];
    }
  }

  /** The grid after the headers: the previous month's last days, the
      month's days flagged for today and for focus sessions, and fewer
      than seven days of the next month, filling whole weeks. */
  method RenderGrid(
    year: int, month: nat, firstDay: nat, daysInMonth: nat, daysInPrevMonth: int,
    today: string, sessions: seq<Session>)
    returns (cells: seq<Cell>)
    ensures 0 <= |cells| - (firstDay + daysInMonth) < 7
    ensures |cells| % 7 == 0
    ensures cells == LeadingDays(firstDay, daysInPrevMonth) + CurrentDays(year, month, daysInMonth, today, sessions)
      + TrailingDays(|cells| - (firstDay + daysInMonth))
  {
    var prev := RenderLeadingDays(firstDay, daysInPrevMonth);
    var days := RenderCurrentDays(year, month, daysInMonth, today, sessions);
    var totalCells := WeekCeil(firstDay + daysInMonth);
    var remainingCells := totalCells - (firstDay + daysInMonth);
    var next := RenderTrailingDays(remainingCells);
    assert |prev| == firstDay && |days| == daysInMonth && |next| == remainingCells;
    cells := prev + days + next;
    assert |cells| == totalCells;
  }

  /** renderCalendar for the month `month` of `year`, whose first day
      falls on weekday `firstDay` (0 = Sunday), with `daysInMonth` days,
      after a month of `daysInPrevMonth` days: the month label, then the
      seven headers and the grid of whole weeks. */
  method RenderCalendar(
    year: int, month: nat, firstDay: nat, daysInMonth: nat, daysInPrevMonth: int,
    today: string, sessions: seq<Session>)
    returns (monthLabel: string, cells: seq<Cell>)
    requires month < 12
    ensures monthLabel == MONTH_NAMES[month] + " " + IntToString(year)
    ensures 0 <= |cells| - (7 + firstDay + daysInMonth) < 7
    ensures cells[..7] == HeaderRow()
    ensures (|cells| - 7) % 7 == 0
    ensures cells[7..] == LeadingDays(firstDay, daysInPrevMonth) + CurrentDays(year, month, daysInMonth, today, sessions)
      + TrailingDays(|cells| - (7 + firstDay + daysInMonth))
  {
    monthLabel := MONTH_NAMES[month] + " " + IntToString(year);
    var headers := RenderHeaders();
    var grid := RenderGrid(year, month, firstDay, daysInMonth, daysInPrevMonth, today, sessions);
    cells := headers + grid;
    assert cells[..7] == headers && cells[7..] == grid;
  }
}
