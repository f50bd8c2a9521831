/** The study-day streak of static/js/script.js: `updateStreak` over the
    sessions kept in local storage, and `saveSession`, which records a
    finished Pomodoro session and refreshes the streak.

    A session's timestamp enters the computation only as its local day, so
    days are integers (consecutive days differ by one) and "today" is a
    parameter. */
module ScriptStreak {
  import opened Wrappers
  import opened Strings

  /** A stored session as the server returns it from `/api/save-session`. */
  datatype Session = Session(day: int, duration: int, subject: string)

  function Days(sessions: seq<Session>): (r: seq<int>)
    ensures |r| == |sessions| && forall i :: 0 <= i < |r| ==> r[i] == sessions[i].day
  {
    seq(|sessions|, i requires 0 <= i < |sessions| => sessions[i].day)
  }

  // ----- `[...new Set(dates)].sort((a, b) => b - a)` -----

  predicate Decreasing(u: seq<int>) {
    forall i, j :: 0 <= i < j < |u| ==> u[i] > u[j]
  }

  /** Puts `x` into a strictly decreasing list unless it is there already. */
  function InsertDescending(x: int, u: seq<int>): (r: seq<int>)
    requires Decreasing(u)
    ensures Decreasing(r)
    ensures |r| > 0 && r[0] == if |u| == 0 || x > u[0] then x else u[0]
    ensures forall y :: y in r <==> y == x || y in u
  {
    if |u| == 0 then [x]
    else if x > u[0] then [x] + u
    else if x == u[0] then u
    else [u[0]] + InsertDescending(x, u[1..])
  }

  /** The distinct days, latest first. */
  function UniqueDescending(days: seq<int>): (r: seq<int>)
    ensures Decreasing(r)
    ensures forall y :: y in r <==> y in days
  {
    if |days| == 0 then []
    else InsertDescending(days[|days| - 1], UniqueDescending(days[..|days| - 1]))
  }

  /** The days as a set. */
  function DaySet(days: seq<int>): (r: set<int>)
    ensures forall y :: y in r <==> y in days
  {
    if |days| == 0 then {} else DaySet(days[..|days| - 1]) + {days[|days| - 1]}
  }

  // ----- what the streak means -----

  /** The number of consecutive days `d`, `d - 1`, ... that are all in `s`. */
  function RunBack(s: set<int>, d: int): (n: nat)
    ensures n <= |s|
    decreases |s|
  {
    if d in s then 1 + RunBack(s - {d}, d - 1) else 0
  }

  /** The run from `d` covers exactly the days `d - n + 1 .. d` and stops at
      the first day missing from `s`. */
  lemma {:induction false} RunBackMeaning(s: set<int>, d: int)
    ensures forall x :: d - RunBack(s, d) < x <= d ==> x in s
    ensures d - RunBack(s, d) !in s
    decreases |s|
  {
    if d in s {
      var n := RunBack(s - {d}, d - 1);
      assert RunBack(s, d) == 1 + n;
      RunBackMeaning(s - {d}, d - 1);
      forall x | d - (1 + n) < x <= d ensures x in s {
        if x < d {
          assert x in s - {d};
        }
      }
    }
  }

  /** A session with a day after today. */
  predicate HasFutureDay(days: seq<int>, today: int) {
    exists i :: 0 <= i < |days| && days[i] > today
  }

  /** The streak `updateStreak` shows: no sessions or a session dated after
      today give 0; otherwise it is the run of study days ending today. */
  function StreakOf(days: seq<int>, today: int): nat {
    if HasFutureDay(days, today) then 0 else RunBack(DaySet(days), today)
  }

  /** The loop's count: how many leading entries are today, today - 1, ... */
  function MatchingPrefix(u: seq<int>, d: int): (n: nat)
    ensures n <= |u|
    ensures forall j :: 0 <= j < n ==> u[j] == d - j
  {
    if |u| > 0 && u[0] == d then 1 + MatchingPrefix(u[1..], d - 1) else 0
  }

  /** On the distinct days latest first, none after `d`, the loop's count is
      the run of days back from `d`. */
  lemma {:induction false} MatchingPrefixIsRun(u: seq<int>, d: int)
    requires Decreasing(u)
    requires |u| > 0 ==> u[0] <= d
    ensures MatchingPrefix(u, d) == RunBack(DaySet(u), d)
  {
    if |u| == 0 {
      assert DaySet(u) == {};
    } else {
      var t := u[1..];
      var st := DaySet(t);
      DaySetCons(u);
      HeadIsLatest(u);
      assert d !in st;
      if u[0] == d {
        RunBackAdd(st, d);
        assert MatchingPrefix(u, d) == 1 + MatchingPrefix(t, d - 1);
        DecreasingTail(u);
        assert |t| > 0 ==> t[0] < d by {
          if |t| > 0 {
            assert t[0] in t;
          }
        }
        MatchingPrefixIsRun(t, d - 1);
        assert DaySet(u) == st + {d};
      } else {
        assert MatchingPrefix(u, d) == 0;
        assert d !in DaySet(u);
        assert RunBack(DaySet(u), d) == 0;
      }
    }
  }

  /** Adding a day not yet present lengthens the run from it by one. */
  lemma RunBackAdd(st: set<int>, d: int)
    requires d !in st
    ensures RunBack(st + {d}, d) == 1 + RunBack(st, d - 1)
  {
    assert (st + {d}) - {d} == st;
  }

  /** The set of days is the first day and the set of the rest. */
  lemma DaySetCons(u: seq<int>)
    requires |u| > 0
    ensures DaySet(u) == DaySet(u[1..]) + {u[0]}
  {
    assert u == [u[0]] + u[1..];
    assert forall y :: y in u <==> y == u[0] || y in u[1..];
  }

  lemma DecreasingTail(u: seq<int>)
    requires Decreasing(u) && |u| > 0
    ensures Decreasing(u[1..])
  {
  }

  /** The first of strictly decreasing days is later than all the rest. */
  lemma HeadIsLatest(u: seq<int>)
    requires Decreasing(u) && |u| > 0
    ensures forall y :: y in u[1..] ==> y < u[0]
  {
    forall y | y in u[1..] ensures y < u[0] {
      var i :| 0 <= i < |u[1..]| && u[1..][i] == y;
      assert u[i + 1] == y;
    }
  }

  /** `updateStreak`'s computation, with `sessionDates` as the day of each
      stored session. */
  method UpdateStreak(days: seq<int>, today: int) returns (streak: nat)
    ensures streak == StreakOf(days, today)
  {
    if |days| == 0 {
      return 0;
    }
    var unique := UniqueDescending(days);
    streak := 0;
    var i := 0;
    while i < |unique|
      invariant 0 <= i <= |unique| && streak == i
      invariant i + MatchingPrefix(unique[i..], today - i) == MatchingPrefix(unique, today)
    {
      var dayDiff := today - unique[i];
      if dayDiff == streak {
        assert unique[i..][1..] == unique[i + 1..];
        streak := streak + 1;
        i := i + 1;
      } else {
        break;
      }
    }
    assert unique[0..] == unique;
    StreakOfUnique(days, today);
  }

  /** The count over the distinct days latest first is the streak. */
  lemma StreakOfUnique(days: seq<int>, today: int)
    ensures MatchingPrefix(UniqueDescending(days), today) == StreakOf(days, today)
  {
    var u := UniqueDescending(days);
    assert DaySet(u) == DaySet(days);
    if HasFutureDay(days, today) {
      var k :| 0 <= k < |days| && days[k] > today;
      assert days[k] in u;
      assert u[0] > today by {
        var i :| 0 <= i < |u| && u[i] == days[k];
        assert u[0] >= u[i];
      }
    } else {
      if |u| > 0 {
        assert u[0] in days;
      }
      MatchingPrefixIsRun(u, today);
    }
  }

  // ----- properties of the streak -----

  /** No sessions give 0. */
  lemma StreakEmpty(today: int)
    ensures StreakOf([], today) == 0
  {
  }

  /** With no session today the streak is 0. */
  lemma StreakNeedsToday(days: seq<int>, today: int)
    requires forall i :: 0 <= i < |days| ==> days[i] != today
    ensures StreakOf(days, today) == 0
  {
  }

  /** The streak is a run of consecutive study days ending today: each of
      today, today - 1, ..., today - (streak - 1) has a session, and the day
      before the run has none. */
  lemma StreakCountsBack(days: seq<int>, today: int)
    requires !HasFutureDay(days, today)
    ensures forall x :: today - StreakOf(days, today) < x <= today ==> x in days
    ensures today - StreakOf(days, today) !in days
  {
    RunBackMeaning(DaySet(days), today);
  }

  /** The streak is at most the number of distinct session days: several
      sessions on one day count once. */
  lemma StreakAtMostDistinctDays(days: seq<int>, today: int)
    ensures StreakOf(days, today) <= |DaySet(days)|
  {
  }

  /** Sessions on a day already present leave the streak as it was. */
  lemma {:induction false} StreakIgnoresRepeats(days: seq<int>, k: nat, today: int)
    requires k < |days|
    ensures StreakOf(days + [days[k]], today) == StreakOf(days, today)
  {
    var e := days + [days[k]];
    assert DaySet(e) == DaySet(days);
    assert HasFutureDay(e, today) <==> HasFutureDay(days, today) by {
      if HasFutureDay(e, today) {
        var i :| 0 <= i < |e| && e[i] > today;
        if i == |days| {
          assert days[k] > today;
        } else {
          assert days[i] > today;
        }
      }
      if HasFutureDay(days, today) {
        var i :| 0 <= i < |days| && days[i] > today;
        assert e[i] > today;
      }
    }
  }

  /** The text of `#streak-count`: "1 day", otherwise "n days". */
  function StreakText(n: nat): string {
    Decimal(n) + " day" + (if n == 1 then "" else "s")
  }

  // ----- saving a session -----

  /** The stored sessions and the streak shown on the page. */
  class SessionLog {
    var sessions: seq<Session>
    var streakShown: nat
    /** The text of `#streak-count`. */
    var streakText: string

    /** Page load: the streak of the sessions already stored. */
    constructor (stored: seq<Session>, today: int)
      ensures sessions == stored && streakShown == StreakOf(Days(stored), today)
      ensures streakText == StreakText(streakShown)
    {
      sessions := stored;
      var s := UpdateStreak(Days(stored), today);
      streakShown := s;
      streakText := StreakText(s);
    }

    /** `saveSession` as written, with `reply` the session the server
      echoes back (None when the call fails, which the method catches and
      leaves everything as it was). The streak is refreshed before the new
      session is appended to the stored list, so it is computed without the
      session just finished. */
    method SaveSessionAsWritten(reply: Option<Session>, today: int)
      modifies this
      ensures reply.None? ==> sessions == old(sessions) && streakShown == old(streakShown) && streakText == old(streakText)
      ensures reply.Some? ==>
                sessions == old(sessions) + [reply.value]
                && streakShown == StreakOf(Days(old(sessions)), today)
                && streakText == StreakText(streakShown)
    {
      if reply.None? {
        return;
      }
      var s := UpdateStreak(Days(sessions), today);
      streakShown := s;
      streakText := StreakText(s);
      sessions := sessions + [reply.value];
    }

    /** `saveSession` with the new session stored before the streak is
      refreshed. */
    method SaveSession(reply: Option<Session>, today: int)
      modifies this
      ensures reply.None? ==> sessions == old(sessions) && streakShown == old(streakShown) && streakText == old(streakText)
      ensures reply.Some? ==>
                sessions == old(sessions) + [reply.value]
                && streakShown == StreakOf(Days(sessions), today)
                && streakText == StreakText(streakShown)
    {
      if reply.None? {
        return;
      }
      sessions := sessions + [reply.value];
      var s := UpdateStreak(Days(sessions), today);
      streakShown := s;
      streakText := StreakText(s);
    }
  }

  /** Concretely: a session yesterday, then one finished today. Refreshing
      before storing shows a streak of 0; refreshing after shows 2. */
  lemma SaveOrderMissesNewSession(today: int)
    ensures StreakOf([today - 1], today) == 0
    ensures StreakOf([today - 1, today], today) == 2
  {
    StreakNeedsToday([today - 1], today);
    var e := [today - 1, today];
    assert DaySet(e) == {today - 1, today};
    assert {today - 1, today} - {today} == {today - 1};
    assert {today - 1} - {today - 1} == {};
    assert RunBack({}, today - 2) == 0;
    assert RunBack({today - 1}, today - 1) == 1;
    assert RunBack({today - 1, today}, today) == 2;
    assert !HasFutureDay(e, today);
  }

  /** With the corrected order a session finished today always counts. */
  lemma SavedTodayCounts(days: seq<int>, today: int)
    requires !HasFutureDay(days, today)
    ensures StreakOf(days + [today], today) >= 1
  {
    var e := days + [today];
    forall i | 0 <= i < |e| ensures e[i] <= today {
      if i < |days| {
        assert e[i] == days[i];
      }
    }
    assert today in DaySet(e);
  }
}
