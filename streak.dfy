/**
 * The consecutive-day streak of `getUserStats` (src/services/translationHistory.ts).
 *
 * Timestamps are milliseconds of local time and a day key is the day number
 * `t / MsPerDay`, so "yesterday" is the day before today and the difference
 * of two day keys counts days. The source builds its keys with
 * `toLocaleDateString()` and sorts them as strings; here the days are sorted
 * chronologically, the order the streak needs. Module `LocaleStreak` models
 * the string order and shows where the two differ.
 */
module Streak {

  /** Milliseconds in a day: `1000 * 3600 * 24`, and the 86400000 of "yesterday". */
  const MsPerDay: int := 86400000

  /** The calendar day of a local-time timestamp. */
  function DayOf(t: int): int {
    t / MsPerDay
  }

  /** The timestamp one day before `now` lies on the previous calendar day. */
  lemma YesterdayIsPreviousDay(now: int)
    ensures DayOf(now - MsPerDay) == DayOf(now) - 1
  {
    var q := now / MsPerDay;
    assert now == q * MsPerDay + now % MsPerDay;
    assert now - MsPerDay == (q - 1) * MsPerDay + now % MsPerDay;
  }

  /*** Orders on sequences of day keys ***/

  predicate Ascending(s: seq<int>) {
    forall i, j :: 0 <= i < j < |s| ==> s[i] <= s[j]
  }

  predicate NonIncreasing(s: seq<int>) {
    forall i, j :: 0 <= i < j < |s| ==> s[i] >= s[j]
  }

  predicate StrictlyDecreasing(s: seq<int>) {
    forall i, j :: 0 <= i < j < |s| ==> s[i] > s[j]
  }

  /** The set of values a sequence holds. */
  function Elements(s: seq<int>): set<int> {
    set x | x in s
  }

  /*** The pipeline map, `sort()`, `reverse()`, `[...new Set(...)]` ***/

  /** A value no larger than every element of an ascending sequence can go in front of it. */
  lemma AscendingCons(h: int, t: seq<int>)
    requires Ascending(t)
    requires forall k :: 0 <= k < |t| ==> h <= t[k]
    ensures Ascending([h] + t)
  {
    var r := [h] + t;
    forall i, j | 0 <= i < j < |r| ensures r[i] <= r[j] {
      assert r[j] == t[j - 1];
      if i > 0 {
        assert r[i] == t[i - 1];
      }
    }
  }

  /** `x` placed into the ascending sequence `s`. */
  function Insert(x: int, s: seq<int>): (r: seq<int>)
    requires Ascending(s)
    ensures Ascending(r)
    ensures multiset(r) == multiset(s) + multiset{x}
  {
    if s == [] then [x]
    else if x <= s[0] then
      AscendingCons(x, s);
      [x] + s
    else
      assert s == [s[0]] + s[1..];
      var rest := Insert(x, s[1..]);
      assert forall k :: 0 <= k < |rest| ==> s[0] <= rest[k] by {
        forall k | 0 <= k < |rest| ensures s[0] <= rest[k] {
          assert rest[k] in multiset(rest);
          if rest[k] != x {
            assert rest[k] in s[1..];
          }
        }
      }
      AscendingCons(s[0], rest);
      [s[0]] + rest
  }

  /** `sort()`: the same values in ascending order. */
  function Sort(s: seq<int>): (r: seq<int>)
    ensures Ascending(r)
    ensures multiset(r) == multiset(s)
  {
    if s == [] then []
    else
      assert s == [s[0]] + s[1..];
      Insert(s[0], Sort(s[1..]))
  }

  /** `reverse()`: the same values, last first. */
  function Reverse(s: seq<int>): (r: seq<int>)
    ensures |r| == |s|
    ensures forall i :: 0 <= i < |s| ==> r[i] == s[|s| - 1 - i]
  {
    if s == [] then [] else Reverse(s[1..]) + [s[0]]
  }

  /** `x` occurs in `s` at a position before every occurrence of `y`. */
  predicate OccursBefore(s: seq<int>, x: int, y: int) {
    exists a :: 0 <= a < |s| && s[a] == x && y !in s[..a + 1]
  }

  /** The values of `r` come in the order of their first occurrences in `s`. */
  predicate FirstOccurrenceOrder(r: seq<int>, s: seq<int>) {
    forall i, j :: 0 <= i < j < |r| ==> OccursBefore(s, r[i], r[j])
  }

  /** What occurs early in `init` still does after a value is appended. */
  lemma OccursBeforeAppend(init: seq<int>, last: int, x: int, y: int)
    requires OccursBefore(init, x, y)
    ensures OccursBefore(init + [last], x, y)
  {
    var a :| 0 <= a < |init| && init[a] == x && y !in init[..a + 1];
    assert (init + [last])[a] == x && (init + [last])[..a + 1] == init[..a + 1];
  }

  /** Appending a value to `s` keeps the first occurrences, and puts a new value last. */
  lemma FirstOccurrenceAppend(r: seq<int>, init: seq<int>, last: int)
    requires Elements(r) == Elements(init)
    requires FirstOccurrenceOrder(r, init)
    ensures FirstOccurrenceOrder(r, init + [last])
    ensures last !in init ==> FirstOccurrenceOrder(r + [last], init + [last])
  {
    var s := init + [last];
    forall i, j | 0 <= i < j < |r| ensures OccursBefore(s, r[i], r[j]) {
      OccursBeforeAppend(init, last, r[i], r[j]);
    }
    if last !in init {
      var r' := r + [last];
      forall i, j | 0 <= i < j < |r'| ensures OccursBefore(s, r'[i], r'[j]) {
        if j < |r| {
          OccursBeforeAppend(init, last, r[i], r[j]);
        } else {
          assert r[i] in Elements(init);
          var a :| 0 <= a < |init| && init[a] == r[i];
          assert s[a] == r'[i] && s[..a + 1] == init[..a + 1];
        }
      }
    }
  }

  /** A reordering holds the same values, and as many. */
  lemma SameValuesSameElements(a: seq<int>, b: seq<int>)
    requires multiset(a) == multiset(b)
    ensures Elements(a) == Elements(b) && |a| == |b|
  {
    forall x ensures x in a <==> x in b {
      assert x in a <==> x in multiset(a);
      assert x in b <==> x in multiset(b);
    }
    assert |multiset(a)| == |multiset(b)|;
  }

  /** Reversing keeps the values. */
  lemma ReverseKeepsElements(s: seq<int>)
    ensures Elements(Reverse(s)) == Elements(s)
  {
    var r := Reverse(s);
    forall x | x in s ensures x in r {
      var i :| 0 <= i < |s| && s[i] == x;
      assert r[|s| - 1 - i] == x;
    }
  }

  /** `[...new Set(s)]`: the first occurrence of every value, in the order of `s`. */
  function Dedup(s: seq<int>): (r: seq<int>)
    ensures Elements(r) == Elements(s)
    ensures |r| <= |s|
    ensures forall i, j :: 0 <= i < j < |r| ==> r[i] != r[j]
    ensures FirstOccurrenceOrder(r, s)
  {
    if s == [] then []
    else
      var init := s[..|s| - 1];
      var last := s[|s| - 1];
      assert s == init + [last];
      var r := Dedup(init);
      assert Elements(s) == Elements(init) + {last};
      FirstOccurrenceAppend(r, init, last);
      if last in r then r else r + [last]
  }

  /** The distinct day keys, most recent first: `uniqueDates` of the source. */
  function UniqueDaysDescending(days: seq<int>): (r: seq<int>)
    ensures StrictlyDecreasing(r)
    ensures Elements(r) == Elements(days)
    ensures |r| <= |days|
  {
    var sorted := Sort(days);
    SameValuesSameElements(sorted, days);
    var reversed := Reverse(sorted);
    assert NonIncreasing(reversed);
    ReverseKeepsElements(sorted);
    DedupOfNonIncreasing(reversed);
    Dedup(reversed)
  }

  /** Removing repeats from a non-increasing sequence leaves a strictly decreasing one. */
  lemma {:induction false} DedupOfNonIncreasing(s: seq<int>)
    requires NonIncreasing(s)
    ensures StrictlyDecreasing(Dedup(s))
  {
    if s != [] {
      var init := s[..|s| - 1];
      var last := s[|s| - 1];
      DedupOfNonIncreasing(init);
      var r := Dedup(init);
      if last !in r {
        forall x | x in r ensures x > last {
          assert x in Elements(init);
          var i :| 0 <= i < |init| && init[i] == x;
          assert s[i] >= s[|s| - 1];
        }
        assert forall i :: 0 <= i < |r| ==> r[i] in r;
      }
    }
  }

  /*** The streak ***/

  /** The step from `u[j]` to the key after it is exactly one day. */
  predicate OneDayStep(u: seq<int>, j: int)
    requires 0 <= j && j + 1 < |u|
  {
    u[j] - u[j + 1] == 1
  }

  /**
   * The number of exact one-day steps at the head of `u`: every step before
   * index `r` is one day, and the step from `u[r]`, if there is one, is not.
   */
  function LeadingRun(u: seq<int>): (r: nat)
    ensures |u| == 0 ==> r == 0
    ensures |u| > 0 ==> r < |u|
    ensures forall j :: 0 <= j < r ==> OneDayStep(u, j)
    ensures r + 1 < |u| ==> !OneDayStep(u, r)
  {
    if |u| >= 2 && u[0] - u[1] == 1 then
      var t := LeadingRun(u[1..]);
      assert forall j :: 1 <= j < 1 + t ==> OneDayStep(u, j) == OneDayStep(u[1..], j - 1);
      1 + t
    else 0
  }

  /**
   * The streak the source computes from `uniqueDates` and today's key: zero
   * unless the first key is today or yesterday, and otherwise one plus the
   * steps of exactly one day that follow it.
   */
  function StreakOf(u: seq<int>, today: int): (r: nat)
    ensures r <= |u|
    ensures r >= 1 <==> |u| > 0 && (u[0] == today || u[0] == today - 1)
  {
    if |u| > 0 && (u[0] == today || u[0] == today - 1) then 1 + LeadingRun(u) else 0
  }

  /**
   * The streak loop: start at 1 on recent activity, then walk the keys until
   * the first gap. `yesterday` is the key of the timestamp a day before now.
   */
  method CountStreak(uniqueDates: seq<int>, today: int, yesterday: int) returns (streak: nat)
    requires yesterday == today - 1
    ensures streak == StreakOf(uniqueDates, today)
  {
    streak := 0;
    var hasRecentActivity := |uniqueDates| > 0 && (uniqueDates[0] == today || uniqueDates[0] == yesterday);
    if hasRecentActivity {
      streak := 1;
      var checkDate := uniqueDates[0];
      var i := 1;
      while i < |uniqueDates|
        invariant 1 <= i <= |uniqueDates|
        invariant streak == i && checkDate == uniqueDates[i - 1]
        invariant LeadingRun(uniqueDates) == (i - 1) + LeadingRun(uniqueDates[i - 1..])
      {
        var currentDate := uniqueDates[i];
        var dayDifference := checkDate - currentDate;
        assert uniqueDates[i - 1..][1..] == uniqueDates[i..];
        if dayDifference == 1 {
          streak := streak + 1;
          checkDate := currentDate;
        } else {
          break;
        }
        i := i + 1;
      }
    }
  }

  /**
   * The first gap ends the walk: if the steps before index `i` are all one day
   * and the step from `u[i]` to `u[i + 1]` is not, the streak is `i + 1`, and
   * the keys after the gap are never looked at.
   */
  lemma {:induction false} StreakStopsAtFirstGap(u: seq<int>, today: int, i: nat)
    requires i + 1 < |u|
    requires u[0] == today || u[0] == today - 1
    requires forall j :: 0 <= j < i ==> u[j] - u[j + 1] == 1
    requires u[i] - u[i + 1] != 1
    ensures StreakOf(u, today) == i + 1
  {
    LeadingRunUpToGap(u, i);
  }

  lemma {:induction false} LeadingRunUpToGap(u: seq<int>, i: nat)
    requires i + 1 < |u|
    requires forall j :: 0 <= j < i ==> u[j] - u[j + 1] == 1
    requires u[i] - u[i + 1] != 1
    ensures LeadingRun(u) == i
  {
    if i > 0 {
      assert u[0] - u[1] == 1;
      forall j | 0 <= j < i - 1 ensures u[1..][j] - u[1..][j + 1] == 1 {
        assert u[j + 1] - u[j + 2] == 1;
      }
      LeadingRunUpToGap(u[1..], i - 1);
    }
  }

  /** Without a gap the streak counts every distinct day. */
  lemma {:induction false} StreakWithoutGap(u: seq<int>, today: int)
    requires |u| > 0 && (u[0] == today || u[0] == today - 1)
    requires forall j :: 0 <= j < |u| - 1 ==> u[j] - u[j + 1] == 1
    ensures StreakOf(u, today) == |u|
  {
    LeadingRunWithoutGap(u);
  }

  lemma {:induction false} LeadingRunWithoutGap(u: seq<int>)
    requires |u| > 0
    requires forall j :: 0 <= j < |u| - 1 ==> u[j] - u[j + 1] == 1
    ensures LeadingRun(u) == |u| - 1
  {
    if |u| >= 2 {
      assert u[0] - u[1] == 1;
      forall j | 0 <= j < |u| - 2 ensures u[1..][j] - u[1..][j + 1] == 1 {
        assert u[j + 1] - u[j + 2] == 1;
      }
      LeadingRunWithoutGap(u[1..]);
    }
  }

  /*** The streak as a property of the set of days ***/

  /** The number of consecutive days in `days` that end at day `d`: `d`, `d - 1`, ... */
  function RunEndingAt(days: set<int>, d: int): nat
    decreases |days|
  {
    if d in days then 1 + RunEndingAt(days - {d}, d - 1) else 0
  }

  /** Two strictly decreasing sequences with the same values are the same sequence. */
  lemma {:induction false} StrictlyDecreasingUnique(u: seq<int>, v: seq<int>)
    requires StrictlyDecreasing(u) && StrictlyDecreasing(v)
    requires Elements(u) == Elements(v)
    ensures u == v
  {
    assert u != [] ==> u[0] in Elements(u);
    assert v != [] ==> v[0] in Elements(v);
    if u != [] && v != [] {
      assert u[0] in Elements(v) && v[0] in Elements(u);
      assert u[0] == v[0] by {
        var i :| 0 <= i < |v| && v[i] == u[0];
        var j :| 0 <= j < |u| && u[j] == v[0];
        assert u[0] <= v[0] && v[0] <= u[0];
      }
      assert Elements(u[1..]) == Elements(u) - {u[0]} by {
        assert u == [u[0]] + u[1..];
      }
      assert Elements(v[1..]) == Elements(v) - {v[0]} by {
        assert v == [v[0]] + v[1..];
      }
      StrictlyDecreasingUnique(u[1..], v[1..]);
      assert u == [u[0]] + u[1..] && v == [v[0]] + v[1..];
    }
  }

  /** Which days occur, and not how often or in which order, decides the distinct days. */
  lemma SameDaysSameUniqueDays(days1: seq<int>, days2: seq<int>)
    requires Elements(days1) == Elements(days2)
    ensures UniqueDaysDescending(days1) == UniqueDaysDescending(days2)
  {
    StrictlyDecreasingUnique(UniqueDaysDescending(days1), UniqueDaysDescending(days2));
  }

  /** The distinct days are the one strictly decreasing sequence of the days that occur. */
  lemma UniqueDaysAre(days: seq<int>, expected: seq<int>)
    requires StrictlyDecreasing(expected) && Elements(expected) == Elements(days)
    ensures UniqueDaysDescending(days) == expected
  {
    StrictlyDecreasingUnique(UniqueDaysDescending(days), expected);
  }

  /** The head run of a strictly decreasing sequence is the run of its days ending at its first one. */
  lemma {:induction false} LeadingRunIsRunEndingAt(u: seq<int>)
    requires |u| > 0 && StrictlyDecreasing(u)
    ensures 1 + LeadingRun(u) == RunEndingAt(Elements(u), u[0])
  {
    var rest := Elements(u) - {u[0]};
    assert u == [u[0]] + u[1..];
    assert Elements(u[1..]) == rest;
    assert u[0] in Elements(u);
    if |u| >= 2 && u[0] - u[1] == 1 {
      LeadingRunIsRunEndingAt(u[1..]);
    } else {
      assert u[0] - 1 !in rest;
    }
  }

  /** The first of the strictly decreasing distinct days is the latest day. */
  lemma HeadIsLatest(u: seq<int>, x: int)
    requires StrictlyDecreasing(u) && x in u
    ensures |u| > 0 && x <= u[0]
  {
    var i :| 0 <= i < |u| && u[i] == x;
  }

  /** The streak of strictly decreasing days, none after today, counted on their set. */
  lemma StreakOfDecreasing(u: seq<int>, today: int)
    requires StrictlyDecreasing(u)
    requires |u| > 0 ==> u[0] <= today
    ensures StreakOf(u, today)
         == if today in u then RunEndingAt(Elements(u), today)
            else RunEndingAt(Elements(u), today - 1)
  {
    var all := Elements(u);
    if |u| == 0 {
      assert all == {};
    } else {
      LeadingRunIsRunEndingAt(u);
      if today in u {
        HeadIsLatest(u, today);
      } else if u[0] != today - 1 {
        if today - 1 in u {
          HeadIsLatest(u, today - 1);
        }
        assert today - 1 !in all;
      }
    }
  }

  /**
   * The streak of a set of active days, none of them after today, is the
   * number of consecutive active days ending today, or ending yesterday when
   * today has no activity.
   */
  lemma StreakIsRunEndingTodayOrYesterday(days: seq<int>, today: int)
    requires forall d :: d in days ==> d <= today
    ensures StreakOf(UniqueDaysDescending(days), today)
         == if today in days then RunEndingAt(Elements(days), today)
            else RunEndingAt(Elements(days), today - 1)
  {
    var u := UniqueDaysDescending(days);
    if |u| > 0 {
      assert u[0] in Elements(days);
    }
    StreakOfDecreasing(u, today);
    assert today in u <==> today in days by {
      assert today in u <==> today in Elements(u);
      assert today in days <==> today in Elements(days);
    }
  }

  /** A latest day after today (a clock ahead of the browser's) leaves no streak at all. */
  lemma StreakZeroAfterToday(days: seq<int>, today: int, d: int)
    requires d in days && d > today
    ensures StreakOf(UniqueDaysDescending(days), today) == 0
  {
    var u := UniqueDaysDescending(days);
    assert d in Elements(u);
    HeadIsLatest(u, d);
  }
}
