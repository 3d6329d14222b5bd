/** The proleptic Gregorian calendar as Go's time.AddDate uses it: a date is
    counted in days, and a month step that overshoots the target month is
    normalised forward (31 January plus one month is in March). */
module Calendar {

  datatype Date = Date(year: int, month: int, day: int)

  datatype Frequency = Daily | Weekly | Monthly

  predicate Leap(y: int) {
    y % 4 == 0 && (y % 100 != 0 || y % 400 == 0)
  }

  function DaysInMonth(y: int, m: int): (n: int)
    ensures 28 <= n <= 31
  {
    if m == 2 then (if Leap(y) then 29 else 28)
    else if m == 4 || m == 6 || m == 9 || m == 11 then 30
    else 31
  }

  function DaysInYear(y: int): int {
    if Leap(y) then 366 else 365
  }

  predicate Valid(d: Date) {
    d.year >= 0 && 1 <= d.month <= 12 && 1 <= d.day <= DaysInMonth(d.year, d.month)
  }

  /** Calendar order: year, then month, then day. */
  predicate Before(a: Date, b: Date) {
    a.year < b.year || (a.year == b.year && (a.month < b.month || (a.month == b.month && a.day < b.day)))
  }

  predicate NotAfter(a: Date, b: Date) {
    a == b || Before(a, b)
  }

  function DaysBeforeYear(y: int): nat
    requires y >= 0
  {
    if y == 0 then 0 else DaysBeforeYear(y - 1) + DaysInYear(y - 1)
  }

  function DaysBeforeMonth(y: int, m: int): nat
    requires 1 <= m <= 13
  {
    if m == 1 then 0 else DaysBeforeMonth(y, m - 1) + DaysInMonth(y, m - 1)
  }

  /** Days since 1 January of year 0. */
  function DayNumber(d: Date): nat
    requires Valid(d)
  {
    DaysBeforeYear(d.year) + DaysBeforeMonth(d.year, d.month) + d.day - 1
  }

  /** The twelve month lengths add up to the year. */
  lemma MonthsFillTheYear(y: int)
    ensures DaysBeforeMonth(y, 13) == DaysInYear(y)
  {
    assert DaysBeforeMonth(y, 4) == DaysInMonth(y, 1) + DaysInMonth(y, 2) + DaysInMonth(y, 3) by {
      assert DaysBeforeMonth(y, 2) == DaysInMonth(y, 1);
      assert DaysBeforeMonth(y, 3) == DaysBeforeMonth(y, 2) + DaysInMonth(y, 2);
    }
    assert DaysBeforeMonth(y, 7) == DaysBeforeMonth(y, 4) + 91 by {
      assert DaysBeforeMonth(y, 5) == DaysBeforeMonth(y, 4) + 30;
      assert DaysBeforeMonth(y, 6) == DaysBeforeMonth(y, 5) + 31;
    }
    assert DaysBeforeMonth(y, 10) == DaysBeforeMonth(y, 7) + 92 by {
      assert DaysBeforeMonth(y, 8) == DaysBeforeMonth(y, 7) + 31;
      assert DaysBeforeMonth(y, 9) == DaysBeforeMonth(y, 8) + 31;
    }
    assert DaysBeforeMonth(y, 11) == DaysBeforeMonth(y, 10) + 31;
    assert DaysBeforeMonth(y, 12) == DaysBeforeMonth(y, 11) + 30;
  }

  lemma {:induction false} LaterMonth(y: int, a: int, b: int)
    requires 1 <= a < b <= 13
    ensures DaysBeforeMonth(y, a) + DaysInMonth(y, a) <= DaysBeforeMonth(y, b)
    decreases b
  {
    if a < b - 1 {
      LaterMonth(y, a, b - 1);
    }
  }

  lemma {:induction false} LaterYear(a: int, b: int)
    requires 0 <= a < b
    ensures DaysBeforeYear(a) + DaysInYear(a) <= DaysBeforeYear(b)
    decreases b
  {
    if a < b - 1 {
      LaterYear(a, b - 1);
    }
  }

  lemma WithinYear(d: Date)
    requires Valid(d)
    ensures DaysBeforeYear(d.year) <= DayNumber(d) < DaysBeforeYear(d.year) + DaysInYear(d.year)
  {
    LaterMonth(d.year, d.month, 13);
    MonthsFillTheYear(d.year);
    if d.month > 1 {
      LaterMonth(d.year, 1, d.month);
    }
  }

  lemma EarlierHasSmallerNumber(a: Date, b: Date)
    requires Valid(a) && Valid(b) && Before(a, b)
    ensures DayNumber(a) < DayNumber(b)
  {
    WithinYear(a);
    WithinYear(b);
    if a.year < b.year {
      LaterYear(a.year, b.year);
    } else if a.month < b.month {
      LaterMonth(a.year, a.month, b.month);
    }
  }

  /** Counting days is order preserving both ways, hence injective. */
  lemma DayNumberOrder(a: Date, b: Date)
    requires Valid(a) && Valid(b)
    ensures Before(a, b) <==> DayNumber(a) < DayNumber(b)
    ensures a == b <==> DayNumber(a) == DayNumber(b)
  {
    if Before(a, b) {
      EarlierHasSmallerNumber(a, b);
    } else if Before(b, a) {
      EarlierHasSmallerNumber(b, a);
    }
  }

  // ---- the count in closed form ----

  lemma NextMultiple(y: int, k: int)
    requires y >= 0 && k > 0
    ensures (y + k) / k == (y + k - 1) / k + (if y % k == 0 then 1 else 0)
  {
    assert y == k * (y / k) + y % k;
    if y % k == 0 {
      assert y + k - 1 == k * (y / k) + (k - 1);
      QuotientIs(y + k - 1, k, y / k, k - 1);
      QuotientIs(y + k, k, y / k + 1, 0);
    } else {
      QuotientIs(y + k - 1, k, y / k + 1, y % k - 1);
      QuotientIs(y + k, k, y / k + 1, y % k);
    }
  }

  lemma QuotientIs(n: int, k: int, q: int, r: int)
    requires k > 0 && 0 <= r < k && n == k * q + r
    ensures n / k == q
  {
    var d := q - n / k;
    assert n == k * (n / k) + n % k;
    assert k * d == k * q - k * (n / k);
    assert d >= 1 ==> k * d >= k;
    assert d <= -1 ==> k * d <= -k;
  }

  lemma LeapByDivision(y: int)
    requires y >= 0
    ensures DaysInYear(y) == 365 + (if y % 4 == 0 then 1 else 0) - (if y % 100 == 0 then 1 else 0)
                                 + (if y % 400 == 0 then 1 else 0)
  {
    if y % 400 == 0 {
      Divides(y, 100, 4 * (y / 400));
    }
    if y % 100 == 0 {
      Divides(y, 4, 25 * (y / 100));
    }
  }

  lemma Divides(n: int, k: int, q: int)
    requires k > 0 && n == k * q
    ensures n % k == 0
  {
    assert n == k * (n / k) + n % k;
    var d := q - n / k;
    assert k * d == k * q - k * (n / k);
    assert d >= 1 ==> k * d >= k;
    assert d <= -1 ==> k * d <= -k;
  }

  /** The Gregorian year count: a day more every fourth year, but not in three
      centuries of four. */
  lemma {:induction false} DaysBeforeYearIs(y: int)
    requires y >= 0
    ensures DaysBeforeYear(y) == 365 * y + (y + 3) / 4 - (y + 99) / 100 + (y + 399) / 400
    decreases y
  {
    if y > 0 {
      DaysBeforeYearIs(y - 1);
      LeapByDivision(y - 1);
      NextMultiple(y - 1, 4);
      NextMultiple(y - 1, 100);
      NextMultiple(y - 1, 400);
    }
  }

  /** From March on every month starts a fixed number of days after 1 March; only
      February's length depends on the year. */
  lemma {:induction false} DaysBeforeMonthIs(y: int, m: int)
    requires y >= 0 && 1 <= m <= 13
    ensures m == 1 ==> DaysBeforeMonth(y, m) == 0
    ensures m == 2 ==> DaysBeforeMonth(y, m) == 31
    ensures m >= 3 ==>
              DaysBeforeMonth(y, m) == 59 + DaysBeforeYear(y + 1) - DaysBeforeYear(y) - 365 + (153 * (m - 3) + 2) / 5
    decreases m
  {
    if m > 1 {
      DaysBeforeMonthIs(y, m - 1);
    }
  }

  /** The day count said without leap years or month lengths. */
  lemma DayNumberIs(d: Date)
    requires Valid(d)
    ensures var y, m := d.year, d.month;
            var before := 365 * y + (y + 3) / 4 - (y + 99) / 100 + (y + 399) / 400;
            var next := 365 * (y + 1) + (y + 4) / 4 - (y + 100) / 100 + (y + 400) / 400;
            DayNumber(d) == before + d.day - 1 + (if m == 1 then 0 else if m == 2 then 31
                                                  else 59 + next - before - 365 + (153 * (m - 3) + 2) / 5)
  {
    DaysBeforeYearIs(d.year);
    DaysBeforeYearIs(d.year + 1);
    DaysBeforeMonthIs(d.year, d.month);
  }

  /** Which dates there are: the last day of a month is the one before the next
      month's first. */
  lemma ValidIs(d: Date)
    requires d.year >= 0 && 1 <= d.month <= 12
    ensures Valid(d) <==> 1 <= d.day <= DaysBeforeMonth(d.year, d.month + 1) - DaysBeforeMonth(d.year, d.month)
  {}

  lemma NotAfterByCount(a: Date, b: Date)
    requires Valid(a) && Valid(b)
    ensures NotAfter(a, b) <==> DayNumber(a) <= DayNumber(b)
  {
    DayNumberOrder(a, b);
  }

  /** The year holding day n, searching upward from y. */
  function YearFrom(n: int, y: int): (r: int)
    requires y >= 0 && DaysBeforeYear(y) <= n
    ensures r >= y && DaysBeforeYear(r) <= n < DaysBeforeYear(r + 1)
    decreases n - DaysBeforeYear(y)
  {
    if n < DaysBeforeYear(y + 1) then y else YearFrom(n, y + 1)
  }

  /** The month holding the k-th day of year y, searching upward from m. */
  function MonthFrom(y: int, k: int, m: int): (r: int)
    requires 1 <= m <= 12 && DaysBeforeMonth(y, m) <= k < DaysBeforeMonth(y, 13)
    ensures m <= r <= 12 && DaysBeforeMonth(y, r) <= k < DaysBeforeMonth(y, r + 1)
    decreases 12 - m
  {
    if m == 12 || k < DaysBeforeMonth(y, m + 1) then m else MonthFrom(y, k, m + 1)
  }

  /** The date with a given day number. */
  function FromDay(n: int): (d: Date)
    requires n >= 0
    ensures Valid(d) && DayNumber(d) == n
  {
    var y := YearFrom(n, 0);
    var k := n - DaysBeforeYear(y);
    MonthsFillTheYear(y);
    var m := MonthFrom(y, k, 1);
    Date(y, m, k - DaysBeforeMonth(y, m) + 1)
  }

  /** The first day of the month n months after d's. */
  function MonthAfter(d: Date, n: int): (first: Date)
    requires Valid(d) && n >= 0
    ensures Valid(first) && first.day == 1
  {
    Date(d.year + (d.month - 1 + n) / 12, (d.month - 1 + n) % 12 + 1, 1)
  }

  /** Months are counted through the years. */
  lemma MonthAfterIs(d: Date, n: int)
    requires Valid(d) && n >= 0
    ensures var first := MonthAfter(d, n); 12 * first.year + first.month == 12 * d.year + d.month + n
  {}

  /** time.AddDate(0, months, 0): the month index is normalised first, then the
      day of month is carried over as an offset from the first of that month. */
  function AddMonths(d: Date, n: int): (r: Date)
    requires Valid(d) && n >= 0
    ensures Valid(r)
  {
    FromDay(DayNumber(MonthAfter(d, n)) + d.day - 1)
  }

  function AddDays(d: Date, n: int): (r: Date)
    requires Valid(d) && n >= 0
    ensures Valid(r)
  {
    FromDay(DayNumber(d) + n)
  }

  /** One scheduler step, by frequency and interval. */
  function Step(d: Date, freq: Frequency, n: int): (r: Date)
    requires Valid(d) && n >= 1
    ensures Valid(r)
  {
    match freq
    case Daily => AddDays(d, n)
    case Weekly => AddDays(d, 7 * n)
    case Monthly => AddMonths(d, n)
  }

  function NextMonthFirst(y: int, m: int): Date {
    if m == 12 then Date(y + 1, 1, 1) else Date(y, m + 1, 1)
  }

  lemma MonthLength(y: int, m: int)
    requires y >= 0 && 1 <= m <= 12
    ensures Valid(Date(y, m, 1)) && Valid(NextMonthFirst(y, m))
    ensures DayNumber(NextMonthFirst(y, m)) == DayNumber(Date(y, m, 1)) + DaysInMonth(y, m)
  {
    MonthsFillTheYear(y);
    if m == 12 {
      assert DaysBeforeMonth(y, 13) == DaysBeforeMonth(y, 12) + DaysInMonth(y, 12);
      assert DaysBeforeMonth(y + 1, 1) == 0;
      assert DaysBeforeYear(y + 1) == DaysBeforeYear(y) + DaysInYear(y);
    }
  }

  /** What day `day` of month (y, m) normalises to. */
  function Overflowed(y: int, m: int, day: int): Date {
    if day <= DaysInMonth(y, m) then Date(y, m, day)
    else NextMonthFirst(y, m).(day := day - DaysInMonth(y, m))
  }

  lemma OverflowByCounting(y: int, m: int, day: int)
    requires y >= 0 && 1 <= m <= 12 && 1 <= day <= 31
    ensures FromDay(DayNumber(Date(y, m, 1)) + day - 1) == Overflowed(y, m, day)
  {
    MonthLength(y, m);
    DayNumberOrder(FromDay(DayNumber(Date(y, m, 1)) + day - 1), Overflowed(y, m, day));
  }

  /** Month normalisation, said without day numbers: keep the day of month when
      the target month has it, otherwise overflow into the month after. */
  lemma AddMonthsOverflow(d: Date, n: int)
    requires Valid(d) && n >= 0
    ensures var first := MonthAfter(d, n); AddMonths(d, n) == Overflowed(first.year, first.month, d.day)
  {
    var first := MonthAfter(d, n);
    OverflowByCounting(first.year, first.month, d.day);
  }

  lemma LaterFirst(d: Date, n: int)
    requires Valid(d) && n >= 1
    ensures Before(Date(d.year, d.month, 1), MonthAfter(d, n))
  {
    var months := d.month - 1 + n;
    assert months == 12 * (months / 12) + months % 12;
  }

  lemma AddMonthsMovesForward(d: Date, n: int)
    requires Valid(d) && n >= 1
    ensures DayNumber(d) < DayNumber(AddMonths(d, n))
  {
    var from, to := Date(d.year, d.month, 1), MonthAfter(d, n);
    LaterFirst(d, n);
    EarlierHasSmallerNumber(from, to);
    assert DayNumber(d) == DayNumber(from) + d.day - 1;
  }

  /** A scheduler step always moves strictly forward in time. */
  lemma StepMovesForward(d: Date, freq: Frequency, n: int)
    requires Valid(d) && n >= 1
    ensures DayNumber(d) < DayNumber(Step(d, freq, n))
    ensures Before(d, Step(d, freq, n))
  {
    match freq {
      case Daily =>
      case Weekly =>
      case Monthly => AddMonthsMovesForward(d, n);
    }
    DayNumberOrder(d, Step(d, freq, n));
  }

  /** How far a step goes: daily and weekly steps by a fixed number of days, the
      latter to the same weekday; monthly ones by months, running over. */
  lemma StepLands(d: Date, freq: Frequency, n: int)
    requires Valid(d) && n >= 1
    ensures freq == Daily ==> DayNumber(Step(d, freq, n)) == DayNumber(d) + n
    ensures freq == Weekly ==> DayNumber(Step(d, freq, n)) == DayNumber(d) + 7 * n
    ensures freq == Monthly ==>
              var first := MonthAfter(d, n); Step(d, freq, n) == Overflowed(first.year, first.month, d.day)
  {
    if freq == Monthly {
      AddMonthsOverflow(d, n);
    }
  }

  /** Days up to the 28th never run over, so a monthly schedule that has come to
      one keeps it from then on. */
  lemma EarlyDaysAreKept(d: Date, n: int)
    requires Valid(d) && n >= 0 && d.day <= 28
    ensures AddMonths(d, n) == MonthAfter(d, n).(day := d.day)
  {
    AddMonthsOverflow(d, n);
  }

  /** In every year a month after 31 January skips February for the 2nd or 3rd of
      March, and a monthly schedule then stays on that day. */
  lemma MonthEndDrifts(d: Date, n: nat)
    requires Valid(d) && d.month == 1 && d.day == 31
    ensures var march := AddMonths(d, 1);
            march == Date(d.year, 3, if Leap(d.year) then 2 else 3) && AddMonths(march, n).day == march.day
  {
    MarchAfterJanuary(d);
    EarlyDaysAreKept(AddMonths(d, 1), n);
  }

  lemma MarchAfterJanuary(d: Date)
    requires Valid(d) && d.month == 1 && d.day == 31
    ensures AddMonths(d, 1) == Date(d.year, 3, if Leap(d.year) then 2 else 3)
  {
    AddMonthsOverflow(d, 1);
  }

  /** The year a step lands in, from the date and the interval alone. */
  function StepYear(d: Date, freq: Frequency, n: int): int
    requires Valid(d) && n >= 1
  {
    match freq
    case Daily => YearFrom(DayNumber(d) + n, 0)
    case Weekly => YearFrom(DayNumber(d) + 7 * n, 0)
    case Monthly => d.year + (d.month - 1 + n) / 12
  }

  /** Running over never crosses a year, since December is long enough. */
  lemma StepLandsInYear(d: Date, freq: Frequency, n: int)
    requires Valid(d) && n >= 1
    ensures Step(d, freq, n).year == StepYear(d, freq, n)
  {
    if freq == Monthly {
      AddMonthsOverflow(d, n);
    }
  }

  /** Months add up. */
  lemma MonthsAddUp(d: Date, m: nat, n: nat)
    requires Valid(d)
    ensures MonthAfter(MonthAfter(d, m), n) == MonthAfter(d, m + n)
  {
    var x := d.month - 1 + m;
    assert x == 12 * (x / 12) + x % 12;
    assert x / 12 + (x % 12 + n) / 12 == (x + n) / 12 && (x % 12 + n) % 12 == (x + n) % 12;
  }
}
