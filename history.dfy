/**
 * The history service of src/services/translationHistory.ts: saving a
 * translation, listing a user's translations, and the usage statistics of
 * `getUserStats`. Every call to the remote store or to the identity provider
 * is a parameter holding its outcome; every failure ends in a default value.
 */
module TranslationHistory {
  import opened Common
  import opened Streak

  /** A row of the `translations` table. */
  datatype Translation = Translation(
    id: string, userId: string, inputText: string, outputText: string, persona: string, createdAt: int)

  /** The two columns `getUserStats` selects: the persona and the creation time (local milliseconds). */
  datatype StatRow = StatRow(persona: string, createdAt: int)

  /** What `supabase.auth.getSession()` reported: an error, no session, or a session. */
  datatype SessionCheck = SessionError | NoSession | ActiveSession

  /** The `{ data, error }` of a query: an error with its code, or data that may be `null`. */
  datatype QueryResult<T> = QueryError(code: string) | QueryData(data: Option<T>)

  /** The four numbers `getUserStats` returns. */
  datatype UsageStats = UsageStats(
    totalTranslations: nat, translationsThisWeek: nat, uniquePersonas: nat, streak: nat)

  /** The statistics every failure falls back to. */
  const ZeroStats: UsageStats := UsageStats(0, 0, 0, 0)

  /** The code PostgreSQL reports for a table that does not exist. */
  const UndefinedTable: string := "42P01"

  /*** Saving and listing ***/

  /** What the insert returned: the stored row, or an error with its code. */
  datatype InsertResult = InsertError(code: string) | Inserted(row: Translation)

  /** `saveTranslation`: the stored row, or `null` when there is no session or the insert failed for any reason. */
  function SaveTranslation(session: SessionCheck, insert: InsertResult): (r: Option<Translation>)
    ensures r.Some? <==> session.ActiveSession? && insert.Inserted?
    ensures r.Some? ==> r.value == insert.row
    ensures insert.InsertError? && insert.code == UndefinedTable ==> r.None?
  {
    if !session.ActiveSession? then None
    else match insert
      case InsertError(_) => None
      case Inserted(row) => Some(row)
  }

  /** `getUserTranslations`: the rows the query returned, and no rows on any failure or on `null` data. */
  function GetUserTranslations(session: SessionCheck, query: QueryResult<seq<Translation>>): (r: seq<Translation>)
    ensures session.ActiveSession? && query.QueryData? && query.data.Some? ==> r == query.data.value
    ensures !session.ActiveSession? || query.QueryError? || query.data.None? ==> r == []
  {
    if !session.ActiveSession? then []
    else match query
      case QueryError(_) => []
      case QueryData(data) => match data case Some(rows) => rows case None => []
  }

  /*** Statistics ***/

  /** `oneWeekAgo`: seven days before `now`, on the calendar day a week before today. */
  function WeekAgo(now: int): (r: int)
    ensures r < now
    ensures DayOf(r) == DayOf(now) - 7
    ensures r % MsPerDay == now % MsPerDay
  {
    DaysBefore(now, 7);
    now - 7 * MsPerDay
  }

  /** The number of rows created strictly after `cutoff`. */
  function CountAfter(rows: seq<StatRow>, cutoff: int): (n: nat)
    ensures n <= |rows|
    ensures n == |rows| <==> forall i :: 0 <= i < |rows| ==> rows[i].createdAt > cutoff
    ensures n == 0 <==> forall i :: 0 <= i < |rows| ==> rows[i].createdAt <= cutoff
  {
    if rows == [] then 0
    else
      var rest := CountAfter(rows[1..], cutoff);
      assert forall i :: 1 <= i < |rows| ==> rows[i] == rows[1..][i - 1];
      (if rows[0].createdAt > cutoff then 1 else 0) + rest
  }

  /** The distinct personas of `rows`: `new Set(translations.map(t => t.persona))`. */
  function Personas(rows: seq<StatRow>): (r: set<string>)
    ensures forall i :: 0 <= i < |rows| ==> rows[i].persona in r
    ensures forall p :: p in r ==> exists i :: 0 <= i < |rows| && rows[i].persona == p
  {
    set i | 0 <= i < |rows| :: rows[i].persona
  }

  /** The day keys of `rows`, in the order of `rows`. */
  function DayKeys(rows: seq<StatRow>): (days: seq<int>)
    ensures |days| == |rows|
    ensures forall i :: 0 <= i < |rows| ==> days[i] == DayOf(rows[i].createdAt)
  {
    seq(|rows|, i requires 0 <= i < |rows| => DayOf(rows[i].createdAt))
  }

  /** The statistics of `rows` at instant `now`, as `getUserStats` computes them. */
  function StatsOf(rows: seq<StatRow>, now: int): (r: UsageStats)
    ensures r.totalTranslations == |rows|
    ensures r.translationsThisWeek <= r.totalTranslations
    ensures r.uniquePersonas <= r.totalTranslations
    ensures r.uniquePersonas == 0 <==> rows == []
    ensures r.streak <= r.totalTranslations
    ensures rows == [] ==> r == ZeroStats
  {
    PersonasBound(rows);
    UsageStats(
      |rows|,
      CountAfter(rows, WeekAgo(now)),
      |Personas(rows)|,
      StreakOf(UniqueDaysDescending(DayKeys(rows)), DayOf(now)))
  }

  /** The computation of `getUserStats` once the rows are fetched, running the streak loop. */
  method CalculateStats(rows: seq<StatRow>, now: int) returns (stats: UsageStats)
    ensures stats == StatsOf(rows, now)
  {
    var totalTranslations := |rows|;
    var translationsThisWeek := CountAfter(rows, WeekAgo(now));
    var uniquePersonas := |Personas(rows)|;
    var uniqueDates := UniqueDaysDescending(DayKeys(rows));
    var today := DayOf(now);
    var yesterday := DayOf(now - MsPerDay);
    YesterdayIsPreviousDay(now);
    var streak := CountStreak(uniqueDates, today, yesterday);
    stats := UsageStats(totalTranslations, translationsThisWeek, uniquePersonas, streak);
  }

  /**
   * `getUserStats`: the statistics of the fetched rows, or all zeros when
   * there is no session, when the query fails, or when it returns `null`.
   */
  method GetUserStats(session: SessionCheck, query: QueryResult<seq<StatRow>>, now: int) returns (stats: UsageStats)
    ensures session.ActiveSession? && query.QueryData? && query.data.Some? ==> stats == StatsOf(query.data.value, now)
    ensures !session.ActiveSession? || query.QueryError? || query.data.None? ==> stats == ZeroStats
  {
    if !session.ActiveSession? {
      return ZeroStats;
    }
    match query
    case QueryError(_) =>
      stats := ZeroStats;
    case QueryData(None) =>
      stats := ZeroStats;
    case QueryData(Some(rows)) =>
      stats := CalculateStats(rows, now);
  }

  /*** Properties of the statistics ***/

  /** Adding a row adds one to the weekly count exactly when the row is strictly after the cutoff. */
  lemma {:induction false} CountAfterAppend(rows: seq<StatRow>, row: StatRow, cutoff: int)
    ensures CountAfter(rows + [row], cutoff) == CountAfter(rows, cutoff) + (if row.createdAt > cutoff then 1 else 0)
  {
    if rows != [] {
      assert (rows + [row])[1..] == rows[1..] + [row];
      CountAfterAppend(rows[1..], row, cutoff);
    } else {
      assert (rows + [row])[1..] == [];
    }
  }

  /** A translation made exactly seven days before `now` does not count for the week. */
  lemma AtCutoffNotThisWeek(rows: seq<StatRow>, persona: string, now: int)
    ensures StatsOf(rows + [StatRow(persona, WeekAgo(now))], now).translationsThisWeek
         == StatsOf(rows, now).translationsThisWeek
  {
    CountAfterAppend(rows, StatRow(persona, WeekAgo(now)), WeekAgo(now));
  }

  /** The distinct personas of a longer list are those of the shorter one plus the new row's. */
  lemma PersonasAppend(rows: seq<StatRow>, row: StatRow)
    ensures Personas(rows + [row]) == Personas(rows) + {row.persona}
  {
    var all := rows + [row];
    forall p | p in Personas(rows) ensures p in Personas(all) {
      var i :| 0 <= i < |rows| && rows[i].persona == p;
      assert all[i].persona == p;
    }
    assert all[|rows|].persona == row.persona;
  }

  /** There are never more distinct personas than rows, and some exactly when there are rows. */
  lemma {:induction false} PersonasBound(rows: seq<StatRow>)
    ensures |Personas(rows)| <= |rows|
    ensures |Personas(rows)| == 0 <==> rows == []
  {
    if rows != [] {
      var init := rows[..|rows| - 1];
      assert rows == init + [rows[|rows| - 1]];
      PersonasBound(init);
      PersonasAppend(init, rows[|rows| - 1]);
    }
  }

  /** A translation on a day that already has one leaves the streak as it was. */
  lemma SameDayKeepsStreak(rows: seq<StatRow>, row: StatRow, now: int, i: nat)
    requires i < |rows| && DayOf(rows[i].createdAt) == DayOf(row.createdAt)
    ensures StatsOf(rows + [row], now).streak == StatsOf(rows, now).streak
  {
    var days := DayKeys(rows);
    var more := DayKeys(rows + [row]);
    assert more == days + [DayOf(row.createdAt)];
    assert Elements(more) == Elements(days) by {
      assert Elements(more) == Elements(days) + {DayOf(row.createdAt)};
      assert days[i] in Elements(days);
    }
    SameDaysSameUniqueDays(more, days);
  }

  /** The order in which the rows arrive does not matter to the streak: only which days have rows. */
  lemma StreakIgnoresOrder(rows1: seq<StatRow>, rows2: seq<StatRow>, now: int)
    requires multiset(rows1) == multiset(rows2)
    ensures StatsOf(rows1, now).streak == StatsOf(rows2, now).streak
  {
    var d1 := DayKeys(rows1);
    var d2 := DayKeys(rows2);
    forall x | x in Elements(d1) ensures x in Elements(d2) {
      var i :| 0 <= i < |d1| && d1[i] == x;
      assert rows1[i] in multiset(rows2);
      var j :| 0 <= j < |rows2| && rows2[j] == rows1[i];
      assert d2[j] == x;
    }
    forall x | x in Elements(d2) ensures x in Elements(d1) {
      var j :| 0 <= j < |d2| && d2[j] == x;
      assert rows2[j] in multiset(rows1);
      var i :| 0 <= i < |rows1| && rows1[i] == rows2[j];
      assert d1[i] == x;
    }
    SameDaysSameUniqueDays(d1, d2);
  }

  /** A timestamp `k` whole days before `now` falls `k` calendar days earlier. */
  lemma DaysBefore(now: int, k: int)
    ensures DayOf(now - k * MsPerDay) == DayOf(now) - k
  {
    var q := now / MsPerDay;
    var m := now % MsPerDay;
    assert now == q * MsPerDay + m;
    assert now - k * MsPerDay == (q - k) * MsPerDay + m;
  }

  /** Activity on today, yesterday and three days ago, in any number and order: a streak of two. */
  lemma GapScenarioDays(days: seq<int>, today: int)
    requires Elements(days) == {today, today - 1, today - 3}
    ensures StreakOf(UniqueDaysDescending(days), today) == 2
  {
    var expected := [today, today - 1, today - 3];
    assert Elements(expected) == {today, today - 1, today - 3};
    UniqueDaysAre(days, expected);
    GapStreak(expected, today);
  }

  lemma GapStreak(u: seq<int>, today: int)
    requires u == [today, today - 1, today - 3]
    ensures StreakOf(u, today) == 2
  {
    assert u[1..] == [today - 1, today - 3];
    assert LeadingRun(u[1..]) == 0;
  }

  /**
   * Rows today, today, yesterday and three days ago: the gap before the last
   * one ends the streak at two.
   */
  lemma ScenarioGapEndsStreak(now: int, p1: string, p2: string, p3: string, p4: string)
    ensures var rows := [StatRow(p1, now), StatRow(p2, now), StatRow(p3, now - MsPerDay), StatRow(p4, now - 3 * MsPerDay)];
            StatsOf(rows, now).streak == 2 && StatsOf(rows, now).totalTranslations == 4
  {
    var rows := [StatRow(p1, now), StatRow(p2, now), StatRow(p3, now - MsPerDay), StatRow(p4, now - 3 * MsPerDay)];
    var today := DayOf(now);
    DaysBefore(now, 1);
    DaysBefore(now, 3);
    var days := DayKeys(rows);
    assert Elements(days) == {today, today - 1, today - 3} by {
      assert days == [today, today, today - 1, today - 3];
    }
    GapScenarioDays(days, today);
  }

  /** A single row three days old leaves no streak. */
  lemma ScenarioStaleActivity(now: int, p: string)
    ensures StatsOf([StatRow(p, now - 3 * MsPerDay)], now).streak == 0
  {
    DaysBefore(now, 3);
    var days := DayKeys([StatRow(p, now - 3 * MsPerDay)]);
    assert Elements(days) == Elements([DayOf(now) - 3]) by {
      assert days == [DayOf(now) - 3];
    }
    UniqueDaysAre(days, [DayOf(now) - 3]);
  }
}
