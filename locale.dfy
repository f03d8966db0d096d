/**
 * The day keys of `getUserStats` as the source writes them: each record's
 * date is turned into its `toLocaleDateString()` label (the en-US form
 * `month/day/year`, without leading zeros) and the labels are sorted as
 * strings, which is not the order of the days. The streak of the rest of the
 * model orders the days chronologically instead.
 */
module LocaleStreak {
  import opened Streak

  /** A calendar date in local time. */
  datatype LocalDate = LocalDate(year: nat, month: nat, day: nat)

  /** The decimal digit of `n`. */
  function Digit(n: int): (c: char)
    requires 0 <= n < 10
    ensures '0' <= c <= '9' && c as int - '0' as int == n
  {
    (n + '0' as int) as char
  }

  /** The number a string of decimal digits stands for. */
  function NumeralValue(s: string): int {
    if s == [] then 0 else 10 * NumeralValue(s[..|s| - 1]) + (s[|s| - 1] as int - '0' as int)
  }

  /** The decimal numeral of `n`, without leading zeros. */
  function Decimal(n: nat): (r: string)
    ensures r != []
    ensures forall k | 0 <= k < |r| :: '0' <= r[k] <= '9'
    ensures NumeralValue(r) == n
    ensures n > 0 ==> r[0] != '0'
  {
    if n < 10 then [Digit(n)]
    else
      var r := Decimal(n / 10) + [Digit(n % 10)];
      assert r[..|r| - 1] == Decimal(n / 10);
      r
  }

  /** `toLocaleDateString()` in the en-US locale: the month's numeral first, then digits and slashes only. */
  function Label(d: LocalDate): (r: string)
    ensures Decimal(d.month) + "/" <= r
    ensures forall k | 0 <= k < |r| :: r[k] == '/' || '0' <= r[k] <= '9'
  {
    Decimal(d.month) + "/" + Decimal(d.day) + "/" + Decimal(d.year)
  }

  /** The order `Array.prototype.sort` uses by default: strings compared character by character. */
  predicate LabelLess(a: string, b: string) {
    if a == [] then b != []
    else if b == [] then false
    else a[0] < b[0] || (a[0] == b[0] && LabelLess(a[1..], b[1..]))
  }

  /**
   * `LabelLess` is the lexicographic order: `a` is a proper prefix of `b`, or
   * the first character where they differ is smaller in `a`.
   */
  lemma {:induction false} LabelLessIsLexicographic(a: string, b: string)
    ensures LabelLess(a, b) <==>
      a < b || exists k :: 0 <= k < |a| && k < |b| && a[..k] == b[..k] && a[k] < b[k]
  {
    if a != [] && b != [] {
      forall k | 0 < k <= |a| && k <= |b| && a[..k] == b[..k] ensures a[0] == b[0] {
        assert a[..k][0] == b[..k][0];
      }
      if a[0] < b[0] {
        assert a[..0] == b[..0];
      } else if a[0] == b[0] {
        LabelLessIsLexicographic(a[1..], b[1..]);
        assert a == [a[0]] + a[1..] && b == [b[0]] + b[1..];
        if k :| 0 <= k < |a[1..]| && k < |b[1..]| && a[1..][..k] == b[1..][..k] && a[1..][k] < b[1..][k] {
          assert a[..k + 1] == [a[0]] + a[1..][..k] && b[..k + 1] == [b[0]] + b[1..][..k];
        }
        if k :| 0 <= k < |a| && k < |b| && a[..k] == b[..k] && a[k] < b[k] {
          assert k > 0;
          assert a[1..][..k - 1] == a[..k][1..] && b[1..][..k - 1] == b[..k][1..];
        }
      }
    }
  }

  /** No label sorts below another that sorts below it. */
  lemma {:induction false} LabelLessAsymmetric(a: string, b: string)
    ensures LabelLess(a, b) ==> !LabelLess(b, a)
  {
    if a != [] && b != [] && a[0] == b[0] {
      LabelLessAsymmetric(a[1..], b[1..]);
    }
  }

  /** If `c` sorts below `a`, then `c` sorts below `b` or `b` below `a`. */
  lemma {:induction false} LabelLessSplits(a: string, b: string, c: string)
    requires LabelLess(c, a)
    ensures LabelLess(c, b) || LabelLess(b, a)
  {
    if c != [] && b != [] && c[0] == b[0] && b[0] == a[0] {
      LabelLessSplits(a[1..], b[1..], c[1..]);
    }
  }

  /** The day number of a proleptic Gregorian date, counted from 1 January 1970. */
  function SerialDay(d: LocalDate): int {
    var y := if d.month <= 2 then d.year - 1 else d.year;
    var era := y / 400;
    var yoe := y - era * 400;
    var mp := (d.month + 9) % 12;
    var doy := (153 * mp + 2) / 5 + d.day - 1;
    var doe := yoe * 365 + yoe / 4 - yoe / 100 + doy;
    era * 146097 + doe - 719468
  }

  /** Within a month, the next date is the next day. */
  lemma NextDayInMonth(y: nat, m: nat, d: nat)
    ensures SerialDay(LocalDate(y, m, d + 1)) == SerialDay(LocalDate(y, m, d)) + 1
  {
  }

  /** No label in `s` sorts below an earlier one. */
  predicate SortedByLabel(s: seq<LocalDate>) {
    forall i, j :: 0 <= i < j < |s| ==> !LabelLess(Label(s[j]), Label(s[i]))
  }

  /** A date whose label sorts below none of a sorted sequence can go in front of it. */
  lemma SortedByLabelCons(h: LocalDate, t: seq<LocalDate>)
    requires SortedByLabel(t)
    requires forall k :: 0 <= k < |t| ==> !LabelLess(Label(t[k]), Label(h))
    ensures SortedByLabel([h] + t)
  {
    var r := [h] + t;
    forall i, j | 0 <= i < j < |r| ensures !LabelLess(Label(r[j]), Label(r[i])) {
      assert r[j] == t[j - 1];
      if i > 0 {
        assert r[i] == t[i - 1];
      }
    }
  }

  /** A date whose label sorts above the first one goes after it, ahead of the sorted rest. */
  lemma InsertAfterHead(x: LocalDate, s: seq<LocalDate>, rest: seq<LocalDate>)
    requires s != [] && LabelLess(Label(s[0]), Label(x))
    requires multiset(rest) == multiset(s[1..]) + multiset{x}
    requires SortedByLabel(s[1..]) ==> SortedByLabel(rest)
    ensures SortedByLabel(s) ==> SortedByLabel([s[0]] + rest)
  {
    if SortedByLabel(s) {
      assert SortedByLabel(s[1..]) by {
        forall i, j | 0 <= i < j < |s[1..]| ensures !LabelLess(Label(s[1..][j]), Label(s[1..][i])) {
          assert s[1..][j] == s[j + 1] && s[1..][i] == s[i + 1];
        }
      }
      forall k | 0 <= k < |rest| ensures !LabelLess(Label(rest[k]), Label(s[0])) {
        assert rest[k] in multiset(rest);
        if rest[k] == x {
          LabelLessAsymmetric(Label(s[0]), Label(x));
        } else {
          assert rest[k] in s[1..];
          var m :| 0 <= m < |s[1..]| && s[1..][m] == rest[k];
          assert s[m + 1] == rest[k];
        }
      }
      SortedByLabelCons(s[0], rest);
    }
  }

  /** A date whose label the first one does not sort below goes in front. */
  lemma InsertAtHead(x: LocalDate, s: seq<LocalDate>)
    requires s != [] && !LabelLess(Label(s[0]), Label(x))
    ensures SortedByLabel(s) ==> SortedByLabel([x] + s)
  {
    if SortedByLabel(s) {
      forall k | 0 <= k < |s| ensures !LabelLess(Label(s[k]), Label(x)) {
        if LabelLess(Label(s[k]), Label(x)) {
          LabelLessSplits(Label(x), Label(s[0]), Label(s[k]));
        }
      }
      SortedByLabelCons(x, s);
    }
  }

  /** Puts `x` before the first date whose label does not sort below its own. */
  function InsertByLabel(x: LocalDate, s: seq<LocalDate>): (r: seq<LocalDate>)
    ensures multiset(r) == multiset(s) + multiset{x}
    ensures SortedByLabel(s) ==> SortedByLabel(r)
  {
    if s == [] then [x]
    else if LabelLess(Label(s[0]), Label(x)) then
      assert s == [s[0]] + s[1..];
      var rest := InsertByLabel(x, s[1..]);
      InsertAfterHead(x, s, rest);
      [s[0]] + rest
    else
      InsertAtHead(x, s);
      [x] + s
  }

  /** `dates.sort()` on the labels: the same dates, no label sorting below an earlier one. */
  function SortByLabel(s: seq<LocalDate>): (r: seq<LocalDate>)
    ensures multiset(r) == multiset(s)
    ensures SortedByLabel(r)
  {
    if s == [] then []
    else
      assert s == [s[0]] + s[1..];
      InsertByLabel(s[0], SortByLabel(s[1..]))
  }

  /** The day numbers of `dates`, in their order. */
  function Serials(dates: seq<LocalDate>): (r: seq<int>)
    ensures |r| == |dates|
    ensures forall i | 0 <= i < |dates| :: r[i] == SerialDay(dates[i])
  {
    seq(|dates|, i requires 0 <= i < |dates| => SerialDay(dates[i]))
  }

  /** Dates with the same multiset of values have the same day numbers. */
  lemma SameDatesSameDays(a: seq<LocalDate>, b: seq<LocalDate>)
    requires multiset(a) == multiset(b)
    ensures Elements(Serials(a)) == Elements(Serials(b)) && |a| == |b|
  {
    assert |multiset(a)| == |multiset(b)|;
    forall x | x in Elements(Serials(a)) ensures x in Elements(Serials(b)) {
      var i :| 0 <= i < |a| && Serials(a)[i] == x;
      assert a[i] in multiset(b);
      var j :| 0 <= j < |b| && b[j] == a[i];
      assert Serials(b)[j] == x;
    }
    forall x | x in Elements(Serials(b)) ensures x in Elements(Serials(a)) {
      var j :| 0 <= j < |b| && Serials(b)[j] == x;
      assert b[j] in multiset(a);
      var i :| 0 <= i < |a| && a[i] == b[j];
      assert Serials(a)[i] == x;
    }
  }

  /**
   * `uniqueDates` as the source builds it: labels sorted as strings,
   * reversed, repeats removed. It holds each day of `dates` exactly once.
   */
  function DaysAsWritten(dates: seq<LocalDate>): (r: seq<int>)
    ensures |r| <= |dates|
    ensures forall i, j :: 0 <= i < j < |r| ==> r[i] != r[j]
    ensures Elements(r) == Elements(Serials(dates))
  {
    var sorted := SortByLabel(dates);
    SameDatesSameDays(sorted, dates);
    ReverseKeepsElements(Serials(sorted));
    var rev := Reverse(Serials(sorted));
    Dedup(rev)
  }

  /** The streak the source computes on the dates of its records: at most one per date. */
  function StreakAsWritten(dates: seq<LocalDate>, today: LocalDate): (r: nat)
    ensures r <= |dates|
  {
    StreakOf(DaysAsWritten(dates), SerialDay(today))
  }

  /** The streak of the same records with the days in chronological order. */
  function StreakIntended(dates: seq<LocalDate>, today: LocalDate): nat {
    StreakOf(UniqueDaysDescending(Serials(dates)), SerialDay(today))
  }

  lemma DecimalOfYear()
    ensures Decimal(2026) == "2026"
  {
    assert Decimal(202) == "202" by {
      assert Decimal(20) == "20" by {
        assert Decimal(2) == "2";
      }
    }
  }

  lemma DecimalOfDays()
    ensures Decimal(10) == "10" && Decimal(9) == "9"
  {
    assert Decimal(1) == "1";
  }

  lemma LabelsOfOctober(y9: LocalDate, y10: LocalDate)
    requires y9 == LocalDate(2026, 10, 9) && y10 == LocalDate(2026, 10, 10)
    ensures Label(y9) == "10/9/2026" && Label(y10) == "10/10/2026"
  {
    DecimalOfYear();
    DecimalOfDays();
  }

  /** The labels of 9 and 10 October sort the later day first. */
  lemma OctoberLabelOrder(oct9: LocalDate, oct10: LocalDate)
    requires oct9 == LocalDate(2026, 10, 9) && oct10 == LocalDate(2026, 10, 10)
    ensures SortByLabel([oct9, oct10]) == [oct10, oct9]
  {
    LabelsOfOctober(oct9, oct10);
    assert LabelLess(Label(oct10), Label(oct9)) by {
      assert "10/10/2026"[1..] == "0/10/2026" && "10/9/2026"[1..] == "0/9/2026";
      assert "0/10/2026"[1..] == "/10/2026" && "0/9/2026"[1..] == "/9/2026";
      assert "/10/2026"[1..] == "10/2026" && "/9/2026"[1..] == "9/2026";
    }
    assert [oct9, oct10][1..] == [oct10];
    assert SortByLabel([oct10]) == [oct10];
  }

  /** The days the source derives from the 9th and the 10th: the sort puts the 10th first, the reversal last. */
  lemma OctoberDaysAsWritten(oct9: LocalDate, oct10: LocalDate)
    requires oct9 == LocalDate(2026, 10, 9) && oct10 == LocalDate(2026, 10, 10)
    ensures DaysAsWritten([oct9, oct10]) == [SerialDay(oct9), SerialDay(oct10)]
  {
    var d9, d10 := SerialDay(oct9), SerialDay(oct10);
    OctoberLabelOrder(oct9, oct10);
    assert Serials([oct10, oct9]) == [d10, d9];
    DistinctPair(d9, d10);
  }

  /** Two distinct days, reversed and then deduplicated, come out in the other order. */
  lemma DistinctPair(a: int, b: int)
    requires a != b
    ensures Dedup(Reverse([b, a])) == [a, b]
  {
    var rev := Reverse([b, a]);
    assert rev == [a, b];
    assert Dedup([a]) == [a] by { assert [a][..0] == []; }
    assert rev[..1] == [a];
  }

  /** Yesterday listed before today: the streak stops after yesterday. */
  lemma ReversedPairStreak(d9: int, d10: int)
    requires d10 == d9 + 1
    ensures StreakOf([d9, d10], d10) == 1
  {
    assert [d9, d10][1..] == [d10];
    assert LeadingRun([d9, d10]) == 0;
  }

  /** Today and yesterday in chronological order make a streak of 2. */
  lemma ChronologicalPairStreak(d9: int, d10: int)
    requires d10 == d9 + 1
    ensures StreakOf(UniqueDaysDescending([d9, d10]), d10) == 2
  {
    var chrono := [d10, d9];
    assert Elements([d9, d10]) == Elements(chrono);
    UniqueDaysAre([d9, d10], chrono);
    assert chrono[1..] == [d9];
    assert LeadingRun(chrono[1..]) == 0;
  }

  /**
   * On 10 October, after activity on the 9th and the 10th, the source finds
   * a streak of 1: "10/10/2026" sorts below "10/9/2026", so the reversed list
   * starts with yesterday and the step to today counts as a gap. Taken in
   * chronological order the two days make a streak of 2.
   */
  lemma LabelOrderBreaksStreak(oct9: LocalDate, oct10: LocalDate)
    requires oct9 == LocalDate(2026, 10, 9) && oct10 == LocalDate(2026, 10, 10)
    ensures StreakAsWritten([oct9, oct10], oct10) == 1
    ensures StreakIntended([oct9, oct10], oct10) == 2
  {
    NextDayInMonth(2026, 10, 9);
    var d9, d10 := SerialDay(oct9), SerialDay(oct10);
    OctoberDaysAsWritten(oct9, oct10);
    ReversedPairStreak(d9, d10);
    assert Serials([oct9, oct10]) == [d9, d10];
    ChronologicalPairStreak(d9, d10);
  }
}
