/** The proleptic Gregorian calendar behind Python's `datetime`: a day is its ordinal
    (1 January of year 1 is day 1, a Monday), and a date is what that day is called. */
module Calendar {

  datatype Date = Date(year: nat, month: nat, day: nat)

  predicate IsLeap(year: nat) {
    year % 4 == 0 && (year % 100 != 0 || year % 400 == 0)
  }

  function DaysInMonth(year: nat, month: nat): (n: nat)
    requires 1 <= month <= 12
    ensures 28 <= n <= 31
  {
    if month == 2 then if IsLeap(year) then 29 else 28
    else if month in {4, 6, 9, 11} then 30
    else 31
  }

  /** The length of the month in a common year: the days it has every year. */
  function SureDays(month: nat): nat
    requires 1 <= month <= 12
  {
    DaysInMonth(1, month)
  }

  predicate Valid(d: Date) {
    1 <= d.year && 1 <= d.month <= 12 && 1 <= d.day <= DaysInMonth(d.year, d.month)
  }

  function NextDay(d: Date): (r: Date)
    requires Valid(d)
    ensures Valid(r)
  {
    if d.day < DaysInMonth(d.year, d.month) then Date(d.year, d.month, d.day + 1)
    else if d.month < 12 then Date(d.year, d.month + 1, 1)
    else Date(d.year + 1, 1, 1)
  }

  /** The date of a day, counted one day at a time. */
  function DateOf(n: nat): (d: Date)
    requires n >= 1
    ensures Valid(d)
  {
    if n == 1 then Date(1, 1, 1) else NextDay(DateOf(n - 1))
  }

  // ----- The closed form: `date.toordinal` -----

  function DaysBeforeYear(year: nat): int
    requires 1 <= year
  {
    var p := year - 1;
    365 * p + p / 4 - p / 100 + p / 400
  }

  function DaysBeforeMonth(year: nat, month: nat): nat
    requires 1 <= month <= 12
  {
    if month == 1 then 0 else DaysBeforeMonth(year, month - 1) + DaysInMonth(year, month - 1)
  }

  function Ordinal(d: Date): int
    requires Valid(d)
  {
    DaysBeforeYear(d.year) + DaysBeforeMonth(d.year, d.month) + d.day
  }

  function YearLength(year: nat): nat {
    if IsLeap(year) then 366 else 365
  }

  lemma YearStep(year: nat)
    requires 1 <= year
    ensures DaysBeforeYear(year + 1) == DaysBeforeYear(year) + YearLength(year)
  {
    Multiples(year - 1, 4);
    Multiples(year - 1, 100);
    Multiples(year - 1, 400);
    MultipleOfFactor(year, 4, 25);
    MultipleOfFactor(year, 100, 4);
  }

  lemma MultipleOfFactor(a: nat, k: nat, m: nat)
    requires k > 0 && m > 0 && k * m > 0
    ensures a % (k * m) == 0 ==> a % k == 0
  {
    if a % (k * m) == 0 {
      var q := a / (k * m);
      assert a == k * m * q == k * (m * q);
      Division(a, k, m * q, 0);
    }
  }

  /** One more multiple, when the next number is one. */
  lemma Multiples(p: nat, k: nat)
    requires k > 1
    ensures (p + 1) / k == p / k + if (p + 1) % k == 0 then 1 else 0
  {
    var q, r := p / k, p % k;
    assert p == k * q + r;
    if r + 1 == k {
      assert p + 1 == k * (q + 1);
      Division(p + 1, k, q + 1, 0);
    } else {
      Division(p + 1, k, q, r + 1);
    }
  }

  lemma Division(a: nat, k: nat, q: nat, r: nat)
    requires r < k && a == k * q + r
    ensures a / k == q && a % k == r
  {
    var t := a / k;
    TimesGrows(k, t + 1, q);
    TimesGrows(k, q + 1, t);
  }

  lemma TimesGrows(k: nat, x: int, y: int)
    ensures x <= y ==> k * x <= k * y
  {
  }

  lemma MonthsFillTheYear(year: nat)
    ensures DaysBeforeMonth(year, 12) + 31 == YearLength(year)
    ensures DaysBeforeMonth(year, 2) == 31
    ensures DaysBeforeMonth(year, 3) == YearLength(year) - 306
  {
    assert DaysBeforeMonth(year, 2) == 31;
    assert DaysBeforeMonth(year, 4) == DaysBeforeMonth(year, 3) + 31;
    assert DaysBeforeMonth(year, 6) == DaysBeforeMonth(year, 4) + 61;
    assert DaysBeforeMonth(year, 8) == DaysBeforeMonth(year, 6) + 61;
    assert DaysBeforeMonth(year, 10) == DaysBeforeMonth(year, 8) + 61;
    assert DaysBeforeMonth(year, 12) == DaysBeforeMonth(year, 10) + 61;
  }

  lemma OrdinalOfNextDay(d: Date)
    requires Valid(d)
    ensures Ordinal(NextDay(d)) == Ordinal(d) + 1
  {
    if d.day == DaysInMonth(d.year, d.month) {
      if d.month < 12 {
        assert DaysBeforeMonth(d.year, d.month + 1) == DaysBeforeMonth(d.year, d.month) + d.day;
      } else {
        YearStep(d.year);
        MonthsFillTheYear(d.year);
        assert DaysBeforeMonth(d.year + 1, 1) == 0;
      }
    }
  }

  /** Counting days agrees with the closed form. */
  lemma {:induction false} OrdinalOfDateOf(n: nat)
    requires n >= 1
    ensures Ordinal(DateOf(n)) == n
  {
    if n == 1 {
      assert DaysBeforeYear(1) == 0;
    } else {
      OrdinalOfDateOf(n - 1);
      OrdinalOfNextDay(DateOf(n - 1));
    }
  }

  lemma {:induction false} MonthsGrow(year: nat, m: nat, m': nat)
    requires 1 <= m < m' <= 12
    ensures DaysBeforeMonth(year, m) + DaysInMonth(year, m) <= DaysBeforeMonth(year, m')
    decreases m' - m
  {
    if m + 1 < m' { MonthsGrow(year, m, m' - 1); }
  }

  lemma {:induction false} YearsGrow(y: nat, y': nat)
    requires 1 <= y < y'
    ensures DaysBeforeYear(y) + YearLength(y) <= DaysBeforeYear(y')
    decreases y' - y
  {
    YearStep(y);
    if y + 1 < y' { YearsGrow(y + 1, y'); }
  }

  lemma OrdinalWithinYear(d: Date)
    requires Valid(d)
    ensures DaysBeforeYear(d.year) < Ordinal(d) <= DaysBeforeYear(d.year) + YearLength(d.year)
  {
    MonthsFillTheYear(d.year);
    if d.month < 12 { MonthsGrow(d.year, d.month, 12); }
  }

  ghost predicate Earlier(a: Date, b: Date) {
    a.year < b.year || (a.year == b.year && (a.month < b.month || (a.month == b.month && a.day < b.day)))
  }

  lemma OrdinalGrows(a: Date, b: Date)
    requires Valid(a) && Valid(b) && Earlier(a, b)
    ensures Ordinal(a) < Ordinal(b)
  {
    OrdinalWithinYear(a);
    OrdinalWithinYear(b);
    if a.year < b.year {
      YearsGrow(a.year, b.year);
    } else if a.month < b.month {
      MonthsGrow(a.year, a.month, b.month);
    }
  }

  /** A date is the name of exactly one day. */
  lemma DateOfOrdinal(d: Date)
    requires Valid(d)
    ensures Ordinal(d) >= 1 && DateOf(Ordinal(d)) == d
  {
    OrdinalWithinYear(d);
    YearStartsAfterZero(d.year);
    var e := DateOf(Ordinal(d));
    OrdinalOfDateOf(Ordinal(d));
    if Earlier(d, e) { OrdinalGrows(d, e); }
    if Earlier(e, d) { OrdinalGrows(e, d); }
  }

  lemma EpochOrdinal(d: Date)
    requires Valid(d) && d.year == 1970 && d.month == 1 && d.day == 1
    ensures Ordinal(d) % 7 == 4
  {
    assert DaysBeforeYear(d.year) == 719162;
  }

  /** The weekdays are those of the calendar, Sunday being 0: 1 January 1970 was a Thursday. */
  lemma EpochWasThursday(n: nat)
    requires n >= 1 && DateOf(n).year == 1970 && DateOf(n).month == 1 && DateOf(n).day == 1
    ensures n % 7 == 4
  {
    OrdinalOfDateOf(n);
    EpochOrdinal(DateOf(n));
  }

  lemma YearStartsAfterZero(year: nat)
    requires 1 <= year
    ensures DaysBeforeYear(year) >= 0
  {
    if year > 1 { YearsGrow(1, year); }
  }

  // ----- How long the calendar can keep one waiting -----

  lemma {:induction false} SameMonth(n: nat, i: nat)
    requires n >= 1 && DateOf(n).day + i <= DaysInMonth(DateOf(n).year, DateOf(n).month)
    ensures DateOf(n + i) == DateOf(n).(day := DateOf(n).day + i)
  {
    if i > 0 { SameMonth(n, i - 1); }
  }

  function MonthAfter(month: nat): nat {
    if month == 12 then 1 else month + 1
  }

  /** How many months from this one to the next time it is `month`. */
  function MonthsUntil(m: nat, month: nat): int {
    if m <= month then month - m else month + 12 - m
  }

  lemma NextMonthStart(n: nat) returns (r: nat)
    requires n >= 1
    ensures var d := DateOf(n);
            && r == n + DaysInMonth(d.year, d.month) - d.day + 1
            && DateOf(r).day == 1 && DateOf(r).month == MonthAfter(d.month)
  {
    var d := DateOf(n);
    var left := DaysInMonth(d.year, d.month) - d.day;
    SameMonth(n, left);
    r := n + left + 1;
    assert DateOf(r) == NextDay(DateOf(n + left));
  }

  lemma {:induction false} MonthStartAhead(n: nat, month: nat) returns (r: nat)
    requires n >= 1 && DateOf(n).day == 1 && 1 <= month <= 12
    ensures n <= r <= n + 31 * MonthsUntil(DateOf(n).month, month) && DateOf(r).day == 1 && DateOf(r).month == month
    decreases MonthsUntil(DateOf(n).month, month)
  {
    if DateOf(n).month == month {
      r := n;
    } else {
      var s := NextMonthStart(n);
      assert MonthsUntil(DateOf(s).month, month) == MonthsUntil(DateOf(n).month, month) - 1;
      r := MonthStartAhead(s, month);
    }
  }

  /** Seven consecutive days of any month lie within the next 365 days. */
  lemma WeekOfMonthAhead(n: nat, month: nat) returns (first: nat)
    requires n >= 1 && 1 <= month <= 12
    ensures n <= first <= n + 358
    ensures DateOf(first).month == month
    ensures DateOf(first).day + 6 <= DaysInMonth(DateOf(first).year, month)
  {
    var d := DateOf(n);
    if d.month == month && d.day + 6 <= DaysInMonth(d.year, month) {
      first := n;
    } else {
      var s := NextMonthStart(n);
      first := MonthStartAhead(s, month);
      assert d.month != month ==> MonthsUntil(DateOf(s).month, month) <= 10;
    }
  }

  lemma WeekdayWithin(first: nat, weekday: nat) returns (i: nat)
    requires weekday < 7
    ensures i < 7 && (first + i) % 7 == weekday
  {
    i := if weekday >= first % 7 then weekday - first % 7 else weekday + 7 - first % 7;
  }

  /** Any 365 consecutive days hold every weekday of every month. */
  lemma EveryWeekdayOfEveryMonth(n: nat, month: nat, weekday: nat) returns (r: nat)
    requires n >= 1 && 1 <= month <= 12 && weekday < 7
    ensures n <= r < n + 365 && DateOf(r).month == month && r % 7 == weekday
  {
    var first := WeekOfMonthAhead(n, month);
    var i := WeekdayWithin(first, weekday);
    SameMonth(first, i);
    r := first + i;
  }

  /** The same date one year on is at most 366 days away. */
  lemma OneYearOn(y: nat, month: nat, day: nat)
    requires 1 <= y && 1 <= month <= 12 && 1 <= day <= SureDays(month)
    ensures Valid(Date(y, month, day)) && Valid(Date(y + 1, month, day))
    ensures Ordinal(Date(y + 1, month, day)) <= Ordinal(Date(y, month, day)) + 366
  {
    YearStep(y);
    MonthShift(y, month);
  }

  lemma NextSameDate(d: Date, month: nat, day: nat) returns (e: Date)
    requires Valid(d) && 1 <= month <= 12 && 1 <= day <= SureDays(month)
    ensures Valid(e) && e.month == month && e.day == day
    ensures Ordinal(d) < Ordinal(e) <= Ordinal(d) + 366
    ensures Ordinal(e) == Ordinal(d) + 366 ==> d.month == month && d.day == day
  {
    var a := Date(d.year, month, day);
    OneYearOn(d.year, month, day);
    if Earlier(d, a) {
      e := a;
      OrdinalGrows(d, a);
      OrdinalWithinYear(d);
      OrdinalWithinYear(a);
    } else {
      e := Date(d.year + 1, month, day);
      OrdinalGrows(d, e);
      if a != d { OrdinalGrows(a, d); }
    }
  }

  /** A date that every year has comes round within 366 days, and only from itself as late as that. */
  lemma DateComesRound(n: nat, month: nat, day: nat) returns (r: nat)
    requires n >= 1 && 1 <= month <= 12 && 1 <= day <= SureDays(month)
    ensures n < r <= n + 366 && DateOf(r).month == month && DateOf(r).day == day
    ensures r == n + 366 ==> DateOf(n).month == month && DateOf(n).day == day
  {
    OrdinalOfDateOf(n);
    var e := NextSameDate(DateOf(n), month, day);
    DateOfOrdinal(e);
    r := Ordinal(e);
  }

  lemma {:induction false} MonthShift(y: nat, month: nat)
    requires 1 <= month <= 12
    ensures DaysBeforeMonth(y + 1, month) - DaysBeforeMonth(y, month)
         == if month <= 2 then 0 else YearLength(y + 1) - YearLength(y)
  {
    if month > 1 { MonthShift(y, month - 1); }
  }
}
