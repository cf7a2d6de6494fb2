/**
 * Proleptic Gregorian dates as Python's datetime module counts them: day
 * ordinals (1 January of year 1 is day 1), the ISO 8601 week number that
 * date.isocalendar() reports, and the Russian month captions of the report.
 */
module Calendar {
  import opened Numbers

  datatype Date = Date(year: int, month: int, day: int)

  predicate IsLeap(y: int) { y % 4 == 0 && (y % 100 != 0 || y % 400 == 0) }

  function DaysInMonth(y: int, m: int): (n: int)
    requires 1 <= m <= 12
    ensures 28 <= n <= 31
    ensures m == 2 ==> (n == 29 <==> IsLeap(y))
  {
    if m == 2 then (if IsLeap(y) then 29 else 28)
    else if m == 4 || m == 6 || m == 9 || m == 11 then 30
    else 31
  }

  /** What datetime.date accepts: years 1 to 9999 and a day that exists in its month. */
  predicate IsValid(d: Date)
  {
    1 <= d.year <= 9999 && 1 <= d.month <= 12 && 1 <= d.day <= DaysInMonth(d.year, d.month)
  }

  /** A date that datetime.date can hold. */
  type CivilDate = d: Date | IsValid(d) witness Date(1, 1, 1)

  function YearLength(y: int): int { if IsLeap(y) then 366 else 365 }

  /** Days in the years before year y (floor division, as Python's // does for any y). */
  function DaysBeforeYear(y: int): int
  {
    var p := y - 1;
    p * 365 + p / 4 - p / 100 + p / 400
  }

  /** Days in the months before month m of year y. */
  function DaysBeforeMonth(y: int, m: int): (n: int)
    requires 1 <= m <= 12
    ensures 0 <= n && n + DaysInMonth(y, m) <= YearLength(y)
  {
    [0, 31, 59, 90, 120, 151, 181, 212, 243, 273, 304, 334][m - 1]
      + (if m > 2 && IsLeap(y) then 1 else 0)
  }

  /** Day number of a date; 1 January of year 1 is day 1. */
  function Ordinal(d: CivilDate): (n: int)
    ensures DaysBeforeYear(d.year) < n <= DaysBeforeYear(d.year) + YearLength(d.year)
  {
    DaysBeforeYear(d.year) + DaysBeforeMonth(d.year, d.month) + d.day
  }

  /** One more day crosses a multiple of k exactly when p + 1 is one (k = 4, 100 or 400). */
  lemma DivStep(p: int, k: int)
    requires k == 4 || k == 100 || k == 400
    ensures (p + 1) / k == p / k + (if (p + 1) % k == 0 then 1 else 0)
  {
    if k == 4 {
      assert p == 4 * (p / 4) + p % 4;
    } else if k == 100 {
      assert p == 100 * (p / 100) + p % 100;
    } else {
      assert p == 400 * (p / 400) + p % 400;
    }
  }

  /** Consecutive years start YearLength apart. */
  lemma NextYearStart(y: int)
    ensures DaysBeforeYear(y + 1) == DaysBeforeYear(y) + YearLength(y)
  {
    var p := y - 1;
    DivStep(p, 4);
    DivStep(p, 100);
    DivStep(p, 400);
    assert (p + 1) * 365 == p * 365 + 365;
    assert (p + 1) / 4 == p / 4 + (if y % 4 == 0 then 1 else 0);
    assert (p + 1) / 100 == p / 100 + (if y % 100 == 0 then 1 else 0);
    assert (p + 1) / 400 == p / 400 + (if y % 400 == 0 then 1 else 0);
  }

  /** Day of the week of a day number: 0 is Monday, 6 is Sunday. */
  function Weekday(n: int): int { (n + 6) % 7 }

  /** Day number of the Monday that starts ISO week 1 of year y. */
  function IsoWeek1Monday(y: int): (n: int)
    ensures Weekday(n) == 0
    ensures DaysBeforeYear(y) - 2 <= n <= DaysBeforeYear(y) + 4
  {
    var first := DaysBeforeYear(y) + 1;
    var weekday := Weekday(first);
    var monday := first - weekday;
    MondayOnOrBefore(first);
    if weekday > 3 then monday + 7 else monday
  }

  /** The Monday on or before day x, and the Monday after it, are Mondays. */
  lemma MondayOnOrBefore(x: int)
    ensures Weekday(x - Weekday(x)) == 0 && Weekday(x - Weekday(x) + 7) == 0
  {
    var q, r := (x + 6) / 7, (x + 6) % 7;
    assert x - r + 6 == 7 * q;
    assert x - r + 7 + 6 == 7 * (q + 1);
  }

  /** Two Mondays are a whole number of weeks apart. */
  lemma MondaysWeeksApart(a: int, b: int)
    requires Weekday(a) == 0 && Weekday(b) == 0 && a <= b
    ensures (b - a) % 7 == 0
  {
    var qa, qb := (a + 6) / 7, (b + 6) / 7;
    assert a + 6 == 7 * qa;
    assert b + 6 == 7 * qb;
    assert b - a == 7 * (qb - qa);
  }

  /**
   * The week number of date.isocalendar(): weeks start on Monday and week 1
   * is the week that holds the year's first Thursday.  Days before that
   * Monday belong to the last week of the previous year; days on or after
   * the next year's week-1 Monday are in week 1.
   */
  function IsoWeek(d: CivilDate): (w: int)
    ensures 1 <= w <= 53
  {
    var today := Ordinal(d);
    var start := IsoWeek1Monday(d.year);
    if today - start < 0 then
      IsoWeekBound(d);
      (today - IsoWeek1Monday(d.year - 1)) / 7 + 1
    else if (today - start) / 7 >= 52 && today >= IsoWeek1Monday(d.year + 1) then 1
    else
      NextYearStart(d.year);
      (today - start) / 7 + 1
  }

  /** A day before its year's week 1 lies in week 1 to 53 of the previous year. */
  lemma IsoWeekBound(d: CivilDate)
    requires Ordinal(d) < IsoWeek1Monday(d.year)
    ensures 0 <= Ordinal(d) - IsoWeek1Monday(d.year - 1) < 53 * 7
  {
    var prev, cur := IsoWeek1Monday(d.year - 1), IsoWeek1Monday(d.year);
    NextYearStart(d.year - 1);
    WeekSpan(Ordinal(d), prev, cur, DaysBeforeYear(d.year - 1), YearLength(d.year - 1));
  }

  /**
   * The arithmetic of IsoWeekBound: week-1 Mondays of consecutive years,
   * each within a few days of its year's start, are at most 53 weeks apart.
   */
  lemma WeekSpan(today: int, prev: int, cur: int, start: int, len: int)
    requires Weekday(prev) == 0 && Weekday(cur) == 0
    requires start - 2 <= prev <= start + 4 && start + len - 2 <= cur <= start + len + 4
    requires len == 365 || len == 366
    requires start + len < today < cur
    ensures 0 <= today - prev < 53 * 7
  {
    MondaysWeeksApart(prev, cur);
    var k := cur - prev;
    assert k % 7 == 0 && k <= 372;
  }


  /** 1 January 2021 was a Friday, so it belongs to week 53 of 2020. */
  lemma EarlyJanuaryWeek53()
    ensures IsoWeek(Date(2021, 1, 1)) == 53
    ensures IsoWeek(Date(2021, 1, 4)) == 1
  {
    assert DaysBeforeYear(2020) == 737424;
    assert DaysBeforeYear(2021) == 737790;
    assert DaysBeforeYear(2022) == 738155;
    assert IsoWeek1Monday(2020) == 737423;
    assert IsoWeek1Monday(2021) == 737794;
  }

  // ---------------------------------------------------------------------
  // The ISO 8601 week rule, stated independently of isocalendar's branches

  /** The Thursday of the Monday-to-Sunday week that holds day n. */
  function ThursdayOf(n: int): int { n - Weekday(n) + 3 }

  /** Day n falls in year y. */
  predicate InYear(n: int, y: int)
  {
    DaysBeforeYear(y) < n <= DaysBeforeYear(y) + YearLength(y)
  }

  /** Later years start after earlier ones end. */
  lemma {:induction false} YearsAscend(a: int, b: int)
    requires a < b
    ensures DaysBeforeYear(a) + YearLength(a) <= DaysBeforeYear(b)
    decreases b - a
  {
    NextYearStart(a);
    if a + 1 < b {
      YearsAscend(a + 1, b);
    }
  }

  /** A day lies in one year only. */
  lemma SameYear(n: int, a: int, b: int)
    requires InYear(n, a) && InYear(n, b)
    ensures a == b
  {
    if a < b {
      YearsAscend(a, b);
    } else if b < a {
      YearsAscend(b, a);
    }
  }

  /**
   * Counting whole weeks from a week-1 Monday `start` of year y gives the
   * same number as counting from the start of y to the Thursday of the week.
   */
  lemma WeeksFromMonday(today: int, start: int, y: int)
    requires Weekday(start) == 0 && start <= today
    requires DaysBeforeYear(y) - 2 <= start <= DaysBeforeYear(y) + 4
    ensures start <= today - Weekday(today)
    ensures (today - start) / 7 == (ThursdayOf(today) - DaysBeforeYear(y) - 1) / 7
  {
    var m := today - Weekday(today);
    MondayOnOrBefore(today);
    if m < start {
      MondaysWeeksApart(m, start);
      assert false;
    }
    MondaysWeeksApart(start, m);
    var k := (m - start) / 7;
    assert m - start == 7 * k;
    assert today - start == 7 * k + Weekday(today);
    assert ThursdayOf(today) - DaysBeforeYear(y) - 1 == 7 * k + (start + 2 - DaysBeforeYear(y));
    WeekQuotient(k, Weekday(today));
    WeekQuotient(k, start + 2 - DaysBeforeYear(y));
  }

  /** k whole weeks and a few days more are k weeks. */
  lemma WeekQuotient(k: int, r: int)
    requires 0 <= r < 7
    ensures (7 * k + r) / 7 == k
  {
  }

  /** A Monday before another Monday is at least a week before it. */
  lemma MondayWeekBefore(m: int, later: int)
    requires Weekday(m) == 0 && Weekday(later) == 0 && m < later
    ensures m <= later - 7
  {
    MondaysWeeksApart(m, later);
    assert later - m == 7 * ((later - m) / 7);
  }

  /** Week-1 Mondays of consecutive years are at least 52 weeks apart. */
  lemma Week1MondaysApart(y: int)
    ensures IsoWeek1Monday(y) + 52 * 7 <= IsoWeek1Monday(y + 1)
  {
    var s, s1 := IsoWeek1Monday(y), IsoWeek1Monday(y + 1);
    NextYearStart(y);
    MondaysWeeksApart(s, s1);
    assert s1 - s == 7 * ((s1 - s) / 7);
  }

  /** A day before its year's week 1: the Thursday rule in the previous year. */
  lemma BeforeWeekOne(today: int, y: int)
    requires InYear(today, y) && today < IsoWeek1Monday(y) && IsoWeek1Monday(y - 1) <= today
    ensures InYear(ThursdayOf(today), y - 1)
    ensures (today - IsoWeek1Monday(y - 1)) / 7 == (ThursdayOf(today) - DaysBeforeYear(y - 1) - 1) / 7
  {
    MondayOnOrBefore(today);
    NextYearStart(y - 1);
    WeeksFromMonday(today, IsoWeek1Monday(y - 1), y - 1);
    MondayWeekBefore(today - Weekday(today), IsoWeek1Monday(y));
  }

  /** A day on or after the next year's week-1 Monday: week 1 of the next year. */
  lemma AfterLastWeek(today: int, y: int)
    requires InYear(today, y) && IsoWeek1Monday(y + 1) <= today
    ensures InYear(ThursdayOf(today), y + 1)
    ensures (ThursdayOf(today) - DaysBeforeYear(y + 1) - 1) / 7 == 0
  {
    NextYearStart(y);
    NextYearStart(y + 1);
    WeeksFromMonday(today, IsoWeek1Monday(y + 1), y + 1);
  }

  /** A day from week 1 up to the next year's week 1: the Thursday rule in its own year. */
  lemma WithinYear(today: int, y: int)
    requires InYear(today, y) && IsoWeek1Monday(y) <= today
    requires (today - IsoWeek1Monday(y)) / 7 < 52 || today < IsoWeek1Monday(y + 1)
    ensures InYear(ThursdayOf(today), y)
    ensures (today - IsoWeek1Monday(y)) / 7 == (ThursdayOf(today) - DaysBeforeYear(y) - 1) / 7
  {
    var start, s1 := IsoWeek1Monday(y), IsoWeek1Monday(y + 1);
    MondayOnOrBefore(today);
    NextYearStart(y);
    WeeksFromMonday(today, start, y);
    Week1MondaysApart(y);
    MondayWeekBefore(today - Weekday(today), s1);
  }

  /** A date before its year's week 1 follows the Thursday rule in the previous year. */
  lemma EarlyDateWeek(d: CivilDate)
    requires Ordinal(d) < IsoWeek1Monday(d.year)
    ensures InYear(ThursdayOf(Ordinal(d)), d.year - 1)
    ensures IsoWeek(d) == (ThursdayOf(Ordinal(d)) - DaysBeforeYear(d.year - 1) - 1) / 7 + 1
  {
    IsoWeekBound(d);
    BeforeWeekOne(Ordinal(d), d.year);
  }

  /** A date in the next year's week 1 follows the Thursday rule in the next year. */
  lemma LateDateWeek(d: CivilDate)
    requires IsoWeek1Monday(d.year) <= Ordinal(d)
    requires (Ordinal(d) - IsoWeek1Monday(d.year)) / 7 >= 52 && Ordinal(d) >= IsoWeek1Monday(d.year + 1)
    ensures InYear(ThursdayOf(Ordinal(d)), d.year + 1)
    ensures IsoWeek(d) == (ThursdayOf(Ordinal(d)) - DaysBeforeYear(d.year + 1) - 1) / 7 + 1
  {
    AfterLastWeek(Ordinal(d), d.year);
  }

  /** Any other date follows the Thursday rule in its own year. */
  lemma MidDateWeek(d: CivilDate)
    requires IsoWeek1Monday(d.year) <= Ordinal(d)
    requires (Ordinal(d) - IsoWeek1Monday(d.year)) / 7 < 52 || Ordinal(d) < IsoWeek1Monday(d.year + 1)
    ensures InYear(ThursdayOf(Ordinal(d)), d.year)
    ensures IsoWeek(d) == (ThursdayOf(Ordinal(d)) - DaysBeforeYear(d.year) - 1) / 7 + 1
  {
    WithinYear(Ordinal(d), d.year);
  }

  /** isocalendar's week, found in one of three years, follows the Thursday rule there. */
  lemma IsoWeekYear(d: CivilDate) returns (y: int)
    ensures d.year - 1 <= y <= d.year + 1 && InYear(ThursdayOf(Ordinal(d)), y)
    ensures IsoWeek(d) == (ThursdayOf(Ordinal(d)) - DaysBeforeYear(y) - 1) / 7 + 1
  {
    var today, start := Ordinal(d), IsoWeek1Monday(d.year);
    if today < start {
      y := d.year - 1;
      EarlyDateWeek(d);
    } else if (today - start) / 7 >= 52 && today >= IsoWeek1Monday(d.year + 1) {
      y := d.year + 1;
      LateDateWeek(d);
    } else {
      y := d.year;
      MidDateWeek(d);
    }
  }

  /**
   * ISO 8601: a date is in week n of the year y that holds the Thursday of
   * its Monday-to-Sunday week, where n counts the weeks from 1 January of y
   * to that Thursday.
   */
  lemma IsoWeekThursdayRule(d: CivilDate, y: int)
    requires InYear(ThursdayOf(Ordinal(d)), y)
    ensures IsoWeek(d) == (ThursdayOf(Ordinal(d)) - DaysBeforeYear(y) - 1) / 7 + 1
  {
    var y0 := IsoWeekYear(d);
    SameYear(ThursdayOf(Ordinal(d)), y, y0);
  }

  /** The Thursday of a date's week is in the previous, the same or the next year. */
  lemma ThursdayNearby(d: CivilDate)
    ensures var t := ThursdayOf(Ordinal(d));
      InYear(t, d.year - 1) || InYear(t, d.year) || InYear(t, d.year + 1)
  {
    var y := IsoWeekYear(d);
  }

  /** 4 January is always in week 1. */
  lemma FourthOfJanuary(y: int)
    requires 1 <= y <= 9999
    ensures IsoWeek(Date(y, 1, 4)) == 1
  {
    var d: CivilDate := Date(y, 1, 4);
    assert Ordinal(d) == DaysBeforeYear(y) + 4;
    IsoWeekThursdayRule(d, y);
  }

  /** Dates of one Monday-to-Sunday week share their week number. */
  lemma SameWeekSameNumber(d1: CivilDate, d2: CivilDate)
    requires ThursdayOf(Ordinal(d1)) == ThursdayOf(Ordinal(d2))
    ensures IsoWeek(d1) == IsoWeek(d2)
  {
    var y := IsoWeekYear(d1);
    IsoWeekThursdayRule(d2, y);
  }

  /** The week number changes only from a Sunday to the following Monday. */
  lemma WeekTurnsOnMonday(d1: CivilDate, d2: CivilDate)
    requires Ordinal(d2) == Ordinal(d1) + 1 && Weekday(Ordinal(d2)) != 0
    ensures IsoWeek(d1) == IsoWeek(d2)
  {
    NextDayThursday(Ordinal(d1));
    SameWeekSameNumber(d1, d2);
  }

  /** Unless day n + 1 is a Monday, it is in the week of day n. */
  lemma NextDayThursday(n: int)
    requires Weekday(n + 1) != 0
    ensures ThursdayOf(n + 1) == ThursdayOf(n)
  {
    var q, r := (n + 6) / 7, (n + 6) % 7;
    assert n + 6 == 7 * q + r;
    if r == 6 {
      assert n + 1 + 6 == 7 * (q + 1);
    } else {
      assert n + 1 + 6 == 7 * q + (r + 1);
    }
  }

  // ---------------------------------------------------------------------
  // Month captions

  const MonthNames: seq<string> := ["Январь", "Февраль", "Март", "Апрель", "Май", "Июнь",
                                     "Июль", "Август", "Сентябрь", "Октябрь", "Ноябрь", "Декабрь"]

  /** The caption of a month: its Russian name, a space, and the year. */
  function MonthName(year: int, month: int): string
    requires 1 <= month <= 12
  {
    Nth(MonthNames, month - 1) + " " + ShowInt(year)
  }

  /** names[k], looked up one entry at a time. */
  function Nth(names: seq<string>, k: nat): string
    requires k < |names|
    decreases k
  {
    if k == 0 then names[0] else Nth(names[1..], k - 1)
  }

  lemma {:induction false} NthIndex(names: seq<string>, k: nat)
    requires k < |names|
    ensures Nth(names, k) == names[k]
    decreases k
  {
    if k > 0 {
      NthIndex(names[1..], k - 1);
    }
  }

  /** Length and first three letters tell the twelve month names apart. */
  function NameKey(name: string): (int, char, char, char)
    requires |name| >= 3
  {
    (|name|, name[0], name[1], name[2])
  }

  lemma MonthNamesDistinct(m1: int, m2: int)
    requires 1 <= m1 <= 12 && 1 <= m2 <= 12 && m1 != m2
    ensures MonthNames[m1 - 1] != MonthNames[m2 - 1]
  {
    assert |MonthNames[m1 - 1]| >= 3 && |MonthNames[m2 - 1]| >= 3;
    assert NameKey(MonthNames[m1 - 1]) != NameKey(MonthNames[m2 - 1]);
  }

  lemma MonthNameHasNoSpace(m: int)
    requires 1 <= m <= 12
    ensures IndexOf(MonthNames[m - 1], ' ') == |MonthNames[m - 1]|
  {
    var name := MonthNames[m - 1];
    assert forall i :: 0 <= i < |name| ==> name[i] != ' ';
  }

  /** Two months with the same name are the same month. */
  lemma SameWordSameMonth(m1: int, m2: int)
    requires 1 <= m1 <= 12 && 1 <= m2 <= 12 && Nth(MonthNames, m1 - 1) == Nth(MonthNames, m2 - 1)
    ensures m1 == m2
  {
    NthIndex(MonthNames, m1 - 1);
    NthIndex(MonthNames, m2 - 1);
    if m1 != m2 {
      MonthNamesDistinct(m1, m2);
    }
  }

  /** A caption splits at its first space into the month name and the year. */
  lemma MonthNameParts(y: int, m: int)
    requires 1 <= m <= 12
    ensures var s, a := MonthName(y, m), Nth(MonthNames, m - 1);
      IndexOf(s, ' ') == |a| && s[..|a|] == a && s[|a| + 1..] == ShowInt(y)
  {
    var a := Nth(MonthNames, m - 1);
    NthIndex(MonthNames, m - 1);
    MonthNameHasNoSpace(m);
    IndexOfJoin(a, ' ', ShowInt(y));
    assert MonthName(y, m) == a + [' '] + ShowInt(y);
  }

  /**
   * Two months get the same caption only when they are the same month of
   * the same year, so comparing captions (as the report does) is comparing
   * (year, month).
   */
  lemma MonthNameInjective(y1: int, m1: int, y2: int, m2: int)
    requires 1 <= m1 <= 12 && 1 <= m2 <= 12
    ensures MonthName(y1, m1) == MonthName(y2, m2) <==> y1 == y2 && m1 == m2
  {
    if MonthName(y1, m1) == MonthName(y2, m2) {
      var a1, a2 := Nth(MonthNames, m1 - 1), Nth(MonthNames, m2 - 1);
      MonthNameParts(y1, m1);
      MonthNameParts(y2, m2);
      assert |a1| == |a2|;
      assert a1 == a2;
      ShowIntInjective(y1, y2);
      SameWordSameMonth(m1, m2);
    }
  }
}
