/** The stored `sessions` log and the filters and counts that popup.js and
    background.js compute from it. Every filter keeps the log's order, and
    is defined by peeling off the last entry, the way the source's
    `forEach` loops see the log grow. */
module SessionLog {
  import opened Timer
  import opened DateOrder

  /** One log entry as the popup reads it: the `YYYY-MM-DD` day and the
      phase. */
  datatype Session = Session(date: string, phase: Phase)

  function Last(s: seq<Session>): Session
    requires s != []
  {
    s[|s| - 1]
  }

  function Init(s: seq<Session>): seq<Session>
    requires s != []
  {
    s[..|s| - 1]
  }

  /** `sessions.filter(s => s.phase === 'focus')`. */
  function FocusSessions(s: seq<Session>): (r: seq<Session>)
    ensures |r| <= |s|
    ensures forall x :: x in r <==> x in s && x.phase == Focus
  {
    if s == [] then []
    else FocusSessions(Init(s)) + (if Last(s).phase == Focus then [Last(s)] else [])
  }

  /** The entries of `s` logged on day `d`, in log order. */
  function OnDate(s: seq<Session>, d: string): (r: seq<Session>)
    ensures |r| <= |s|
    ensures forall x :: x in r <==> x in s && x.date == d
  {
    if s == [] then []
    else OnDate(Init(s), d) + (if Last(s).date == d then [Last(s)] else [])
  }

  /** `sessions.filter(s => s.date === today && s.phase === 'focus')`,
      written identically in popup.js and background.js. */
  function TodaysSessions(s: seq<Session>, today: string): (r: seq<Session>)
    ensures |r| <= |s|
    ensures forall x :: x in r <==> x in s && x.date == today && x.phase == Focus
  {
    if s == [] then []
    else
      TodaysSessions(Init(s), today)
        + (if Last(s).date == today && Last(s).phase == Focus then [Last(s)] else [])
  }

  /** The number of focus sessions logged on day `d`. */
  function CountOn(s: seq<Session>, d: string): nat {
    |OnDate(FocusSessions(s), d)|
  }

  /** The focus filter keeps every focus entry as many times as the log
      holds it, and no other entry. */
  lemma {:induction false} FocusSessionsEntries(s: seq<Session>)
    ensures forall x :: multiset(FocusSessions(s))[x] == if x.phase == Focus then multiset(s)[x] else 0
  {
    if s != [] {
      assert s == Init(s) + [Last(s)];
      FocusSessionsEntries(Init(s));
    }
  }

  /** A day's group holds every entry of that day as many times as the log
      holds it, and no other entry. */
  lemma {:induction false} OnDateEntries(s: seq<Session>, d: string)
    ensures forall x :: multiset(OnDate(s, d))[x] == if x.date == d then multiset(s)[x] else 0
  {
    if s != [] {
      assert s == Init(s) + [Last(s)];
      OnDateEntries(Init(s), d);
    }
  }

  /** Today's filter keeps every focus entry dated today as many times as
      the log holds it, and no other entry. */
  lemma {:induction false} TodaysSessionsEntries(s: seq<Session>, today: string)
    ensures forall x ::
      multiset(TodaysSessions(s, today))[x] == if x.date == today && x.phase == Focus then multiset(s)[x] else 0
  {
    if s != [] {
      assert s == Init(s) + [Last(s)];
      TodaysSessionsEntries(Init(s), today);
    }
  }

  /** The days that appear in `s`. */
  function DatesIn(s: seq<Session>): set<string> {
    if s == [] then {} else DatesIn(Init(s)) + {Last(s).date}
  }

  /** The days on which at least one focus session is logged. */
  function FocusDates(s: seq<Session>): set<string> {
    DatesIn(FocusSessions(s))
  }

  lemma {:induction false} DatesInMembership(s: seq<Session>, d: string)
    ensures d in DatesIn(s) <==> exists x :: x in s && x.date == d
  {
    if s != [] {
      DatesInMembership(Init(s), d);
      assert s == Init(s) + [Last(s)];
      if d in DatesIn(Init(s)) {
        var x :| x in Init(s) && x.date == d;
        assert x in s;
      }
    }
  }

  /** A day is a focus day exactly when its focus count is positive. */
  lemma FocusDateIffCounted(s: seq<Session>, d: string)
    ensures d in FocusDates(s) <==> CountOn(s, d) > 0
  {
    DatesInMembership(FocusSessions(s), d);
    if d in FocusDates(s) {
      var x :| x in FocusSessions(s) && x.date == d;
      assert x in OnDate(FocusSessions(s), d);
    } else if CountOn(s, d) > 0 {
      var x := OnDate(FocusSessions(s), d)[0];
      assert x in OnDate(FocusSessions(s), d);
    }
  }

  /** Filtering on the day and on the phase in one pass selects the same
      entries, in the same order, as first keeping focus sessions and then
      grouping them by day. So the popup's and the badge's "today" count is
      the calendar's count for today's key. */
  lemma {:induction false} TodaysSessionsByDate(s: seq<Session>, today: string)
    ensures TodaysSessions(s, today) == OnDate(FocusSessions(s), today)
    ensures |TodaysSessions(s, today)| == CountOn(s, today)
  {
    if s != [] {
      TodaysSessionsByDate(Init(s), today);
      var f := FocusSessions(Init(s));
      if Last(s).phase == Focus {
        var g := f + [Last(s)];
        assert Init(g) == f;
      } else {
        assert FocusSessions(s) == f;
      }
    }
  }

  /** One more entry of the log seen: it joins its own day's group and
      leaves every other group as it was. */
  lemma PrefixStep(s: seq<Session>, i: nat)
    requires i < |s|
    ensures DatesIn(s[..i + 1]) == DatesIn(s[..i]) + {s[i].date}
    ensures forall d :: OnDate(s[..i + 1], d) == OnDate(s[..i], d) + (if s[i].date == d then [s[i]] else [])
  {
    assert Init(s[..i + 1]) == s[..i] && Last(s[..i + 1]) == s[i];
  }

  /** A log of focus sessions only is kept whole by the focus filter. */
  lemma {:induction false} AllFocusKept(s: seq<Session>)
    requires forall i :: 0 <= i < |s| ==> s[i].phase == Focus
    ensures FocusSessions(s) == s
  {
    if s != [] {
      var init, e := Init(s), Last(s);
      assert s == init + [e];
      AllFocusKept(init);
    }
  }

  /** A log with no entry on day `d` has no session today when `d` is
      today. */
  lemma {:induction false} NothingOnDay(s: seq<Session>, d: string)
    requires forall i :: 0 <= i < |s| ==> s[i].date != d
    ensures TodaysSessions(s, d) == []
  {
    if s != [] {
      var init := Init(s);
      assert forall i :: 0 <= i < |init| ==> init[i] == s[i];
      NothingOnDay(init, d);
    }
  }

  /** The count of day `d` is the number of log entries that are focus
      sessions dated `d`. */
  lemma CountOnEntries(s: seq<Session>, d: string)
    ensures CountOn(s, d) == multiset(s)[Session(d, Focus)]
  {
    var v := Session(d, Focus);
    var r := OnDate(FocusSessions(s), d);
    assert forall x :: x in r ==> x == v;
    AllEqualCount(r, v);
    FocusSessionsEntries(s);
    OnDateEntries(FocusSessions(s), d);
  }

  /** A sequence all of whose entries are `v` holds `v` once per entry. */
  lemma {:induction false} AllEqualCount(r: seq<Session>, v: Session)
    requires forall x :: x in r ==> x == v
    ensures |r| == multiset(r)[v]
  {
    if r != [] {
      var init := Init(r);
      assert r == init + [Last(r)];
      assert Last(r) in r && forall x :: x in init ==> x in r;
      AllEqualCount(init, v);
      assert multiset(r) == multiset(init) + multiset{v};
    }
  }

  /** Today's focus count never exceeds the all-time focus count. */
  lemma TodayAtMostTotal(s: seq<Session>, today: string)
    ensures |TodaysSessions(s, today)| <= |FocusSessions(s)|
  {
    TodaysSessionsByDate(s, today);
  }

  // Sums of per-day counts over a list of days.

  /** The sum, over the days `ds`, of the number of entries of `s` on each. */
  function SumOn(s: seq<Session>, ds: seq<string>): nat {
    if ds == [] then 0 else SumOn(s, ds[..|ds| - 1]) + |OnDate(s, ds[|ds| - 1])|
  }

  /** How many times `d` occurs in `ds`. */
  function Occurrences(d: string, ds: seq<string>): nat {
    if ds == [] then 0
    else Occurrences(d, ds[..|ds| - 1]) + (if ds[|ds| - 1] == d then 1 else 0)
  }

  lemma {:induction false} OccursOnce(d: string, ds: seq<string>)
    requires Distinct(ds) && d in ds
    ensures Occurrences(d, ds) == 1
  {
    var init := ds[..|ds| - 1];
    if ds[|ds| - 1] == d {
      OccursNot(d, init);
    } else {
      assert d in init;
      OccursOnce(d, init);
    }
  }

  lemma {:induction false} OccursNot(d: string, ds: seq<string>)
    requires d !in ds
    ensures Occurrences(d, ds) == 0
  {
    if ds != [] {
      OccursNot(d, ds[..|ds| - 1]);
    }
  }

  /** Appending one entry to the log adds one to the sum for each time its
      day is listed. */
  lemma {:induction false} SumOnSnoc(s: seq<Session>, e: Session, ds: seq<string>)
    ensures SumOn(s + [e], ds) == SumOn(s, ds) + Occurrences(e.date, ds)
  {
    if ds != [] {
      SumOnSnoc(s, e, ds[..|ds| - 1]);
      assert Init(s + [e]) == s;
    }
  }

  /** Grouping by day loses and duplicates nothing: over distinct days that
      cover every day of the log, the group sizes add up to the log's
      length. */
  lemma {:induction false} GroupSizesSum(s: seq<Session>, ds: seq<string>)
    requires Distinct(ds)
    requires forall d :: d in DatesIn(s) ==> d in ds
    ensures SumOn(s, ds) == |s|
  {
    if s != [] {
      var init, e := Init(s), Last(s);
      assert s == init + [e];
      GroupSizesSum(init, ds);
      SumOnSnoc(init, e, ds);
      OccursOnce(e.date, ds);
    } else {
      SumOnEmpty(ds);
    }
  }

  lemma {:induction false} SumOnEmpty(ds: seq<string>)
    ensures SumOn([], ds) == 0
  {
    if ds != [] {
      SumOnEmpty(ds[..|ds| - 1]);
    }
  }
}
