/** Gregorian dates as day numbers, counted from 1 January of the year 1. */
module Calendar {
  datatype Date = Date(year: nat, month: nat, day: nat)

  predicate IsLeap(y: nat) { y % 4 == 0 && (y % 100 != 0 || y % 400 == 0) }

  function YearDays(y: nat): nat { if IsLeap(y) then 366 else 365 }

  function MonthDays(y: nat, m: nat): nat {
    if m == 2 then (if IsLeap(y) then 29 else 28)
    else if m == 4 || m == 6 || m == 9 || m == 11 then 30
    else 31
  }

  predicate Valid(d: Date) {
    1 <= d.year && 1 <= d.month <= 12 && 1 <= d.day <= MonthDays(d.year, d.month)
  }

  function DaysBeforeYear(y: nat): nat
    requires y >= 1
  {
    if y == 1 then 0 else DaysBeforeYear(y - 1) + YearDays(y - 1)
  }

  function DaysBeforeMonth(y: nat, m: nat): nat
    requires m >= 1
  {
    if m == 1 then 0 else DaysBeforeMonth(y, m - 1) + MonthDays(y, m - 1)
  }

  function DayNumber(d: Date): nat
    requires Valid(d)
  {
    DaysBeforeYear(d.year) + DaysBeforeMonth(d.year, d.month) + d.day - 1
  }

  /** The year that holds day `r` counted from the start of year `y`. */
  function YearFrom(y: nat, r: nat): (p: (nat, nat))
    requires y >= 1
    ensures p.0 >= y && p.1 < YearDays(p.0) && DaysBeforeYear(p.0) + p.1 == DaysBeforeYear(y) + r
    decreases r
  {
    if r < YearDays(y) then (y, r) else YearFrom(y + 1, r - YearDays(y))
  }

  function MonthFrom(y: nat, m: nat, r: nat): (p: (nat, nat))
    requires 1 <= m <= 12 && DaysBeforeMonth(y, m) + r < DaysBeforeMonth(y, 13)
    ensures m <= p.0 <= 12 && p.1 < MonthDays(y, p.0)
    ensures DaysBeforeMonth(y, p.0) + p.1 == DaysBeforeMonth(y, m) + r
    decreases 12 - m
  {
    if r < MonthDays(y, m) then (m, r) else MonthFrom(y, m + 1, r - MonthDays(y, m))
  }

  lemma MonthsFillYear(y: nat)
    ensures DaysBeforeMonth(y, 13) == YearDays(y)
  {
    assert DaysBeforeMonth(y, 3) == DaysBeforeMonth(y, 2) + MonthDays(y, 2);
    assert DaysBeforeMonth(y, 5) == DaysBeforeMonth(y, 4) + 30;
    assert DaysBeforeMonth(y, 7) == DaysBeforeMonth(y, 6) + 30;
    assert DaysBeforeMonth(y, 9) == DaysBeforeMonth(y, 8) + 31;
    assert DaysBeforeMonth(y, 11) == DaysBeforeMonth(y, 10) + 31;
    assert DaysBeforeMonth(y, 13) == DaysBeforeMonth(y, 12) + 31;
  }

  function DateOf(n: nat): (d: Date)
    ensures Valid(d) && DayNumber(d) == n
  {
    var (y, r) := YearFrom(1, n);
    MonthsFillYear(y);
    var (m, k) := MonthFrom(y, 1, r);
    Date(y, m, k + 1)
  }

  predicate Earlier(a: Date, b: Date) {
    a.year < b.year || (a.year == b.year && (a.month < b.month || (a.month == b.month && a.day < b.day)))
  }

  lemma {:induction false} YearsAscend(y: nat, z: nat)
    requires 1 <= y <= z
    ensures DaysBeforeYear(y) <= DaysBeforeYear(z)
    decreases z
  {
    if y < z {
      YearsAscend(y, z - 1);
    }
  }

  lemma {:induction false} MonthsAscend(y: nat, m: nat, k: nat)
    requires 1 <= m <= k
    ensures DaysBeforeMonth(y, m) <= DaysBeforeMonth(y, k)
    decreases k
  {
    if m < k {
      MonthsAscend(y, m, k - 1);
    }
  }

  /** Day numbers order dates as the calendar does. */
  lemma DayNumberAscends(a: Date, b: Date)
    requires Valid(a) && Valid(b)
    ensures Earlier(a, b) <==> DayNumber(a) < DayNumber(b)
    ensures DayNumber(a) == DayNumber(b) ==> a == b
  {
    Before(a, b);
    Before(b, a);
  }

  lemma Before(a: Date, b: Date)
    requires Valid(a) && Valid(b)
    ensures Earlier(a, b) ==> DayNumber(a) < DayNumber(b)
  {
    if a.year < b.year {
      MonthsFillYear(a.year);
      MonthsAscend(a.year, a.month + 1, 13);
      YearsAscend(a.year + 1, b.year);
    } else if a.year == b.year && a.month < b.month {
      MonthsAscend(a.year, a.month + 1, b.month);
    }
  }

  /** Every valid date is the date of its number. */
  lemma DateOfNumber(d: Date)
    requires Valid(d)
    ensures DateOf(DayNumber(d)) == d
  {
    DayNumberAscends(DateOf(DayNumber(d)), d);
  }

  /** The closed form of the leap-year rule. */
  lemma {:induction false} DaysBeforeYearClosed(y: nat)
    requires y >= 1
    ensures DaysBeforeYear(y) == (y - 1) * 365 + (y - 1) / 4 - (y - 1) / 100 + (y - 1) / 400
  {
    if y > 1 {
      DaysBeforeYearClosed(y - 1);
      var z := y - 1;
      LeapCount(z);
    }
  }

  lemma LeapCount(z: nat)
    requires z >= 1
    ensures z / 4 - z / 100 + z / 400 == (z - 1) / 4 - (z - 1) / 100 + (z - 1) / 400 + (if IsLeap(z) then 1 else 0)
  {
    StepDiv(z, 4);
    StepDiv(z, 100);
    StepDiv(z, 400);
    Multiple(z, 4, 25);
    Multiple(z, 100, 4);
  }

  /** What k * m divides, k divides. */
  lemma Multiple(z: nat, k: nat, m: nat)
    requires k >= 1 && m >= 1
    ensures k * m >= 1 && (z % (k * m) == 0 ==> z % k == 0)
  {
    if z % (k * m) == 0 {
      var q := z / (k * m);
      assert z == (m * q) * k;
      DivMod(z, k, m * q, 0);
    }
  }

  lemma StepDiv(z: nat, k: nat)
    requires z >= 1 && k >= 2
    ensures z / k == (z - 1) / k + (if z % k == 0 then 1 else 0)
  {
    var q, r := (z - 1) / k, (z - 1) % k;
    assert z - 1 == q * k + r;
    if r == k - 1 {
      assert z == (q + 1) * k;
      DivMod(z, k, q + 1, 0);
    } else {
      DivMod(z, k, q, r + 1);
    }
  }

  lemma DivMod(n: int, k: int, q: int, r: int)
    requires k > 0 && n == q * k + r && 0 <= r < k
    ensures n / k == q && n % k == r
  {
    var d := n / k - q;
    assert n == (n / k) * k + n % k;
    assert d * k == r - n % k;
    ScaledGap(n / k, q, k);
    ScaledGap(q, n / k, k);
  }

  /** Multiples of `k` are at least `k` apart. */
  lemma {:induction false} ScaledGap(a: int, b: int, k: int)
    requires k > 0
    ensures a < b ==> a * k + k <= b * k
    decreases b - a
  {
    if a + 1 < b {
      ScaledGap(a, b - 1, k);
    }
  }

  /** Days before the first of a month, without a table: years and months counted from March, so that the
      leap day comes last. Month 13 is the next January. */
  function DaysTo(y: nat, m: nat): int
    requires y >= 1 && m >= 1
  {
    var z := if m <= 2 then y - 1 else y;
    365 * z + z / 4 - z / 100 + z / 400 + (153 * ((m + 9) % 12) + 2) / 5 - 306
  }

  lemma FirstOfMonth(y: nat, m: nat)
    requires y >= 1 && 1 <= m <= 13
    ensures DaysBeforeYear(y) + DaysBeforeMonth(y, m) == DaysTo(y, m)
  {
    DaysBeforeYearClosed(y);
    if m <= 2 {
      assert DaysBeforeMonth(y, 1) == 0;
    } else {
      DaysBeforeYearClosed(y + 1);
      MarchFirst(y, m);
    }
  }

  lemma {:induction false} MarchFirst(y: nat, m: nat)
    requires y >= 1 && 3 <= m <= 13
    ensures DaysBeforeMonth(y, m) == YearDays(y) - 306 + (153 * ((m + 9) % 12) + 2) / 5
  {
    if m == 3 {
      assert DaysBeforeMonth(y, 2) == MonthDays(y, 1);
    } else {
      MarchFirst(y, m - 1);
      MarchNext(y, m);
    }
  }

  lemma MarchNext(y: nat, m: nat)
    requires 4 <= m <= 13
    ensures (153 * ((m + 9) % 12) + 2) / 5 == (153 * ((m + 8) % 12) + 2) / 5 + MonthDays(y, m - 1)
  {
    assert (m + 9) % 12 == m - 3 && (m + 8) % 12 == m - 4;
  }

  /** The number of a date has a closed form, and so has the length of a month. */
  lemma DayNumberClosed(d: Date)
    requires Valid(d)
    ensures DayNumber(d) == DaysTo(d.year, d.month) + d.day - 1
  {
    FirstOfMonth(d.year, d.month);
  }

  lemma MonthDaysClosed(y: nat, m: nat)
    requires y >= 1 && 1 <= m <= 12
    ensures MonthDays(y, m) == DaysTo(y, m + 1) - DaysTo(y, m)
  {
    FirstOfMonth(y, m);
    FirstOfMonth(y, m + 1);
  }

  /** Day 719162 is 1 January 1970. */
  const EPOCH := 719162

  lemma EpochIs1970()
    ensures DayNumber(Date(1970, 1, 1)) == EPOCH
  {
    DaysBeforeYearClosed(1970);
  }
}
