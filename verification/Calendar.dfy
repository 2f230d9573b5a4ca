/** The Gregorian calendar: months counted from January of year 0, days numbered in order. */
module Calendar {
  /** `month` counts months from January of year 0. */
  datatype Date = Date(month: int, day: int)

  function Year(d: Date): int {
    d.month / 12
  }

  /** 1 for January. */
  function MonthOfYear(d: Date): int {
    d.month % 12 + 1
  }

  predicate IsLeap(year: int) {
    year % 4 == 0 && (year % 100 != 0 || year % 400 == 0)
  }

  function DaysIn(month: int): int {
    var m := month % 12;
    if m == 1 then (if IsLeap(month / 12) then 29 else 28)
    else if m == 3 || m == 5 || m == 8 || m == 10 then 30
    else 31
  }

  predicate Valid(d: Date) {
    d.month >= 0 && 1 <= d.day <= DaysIn(d.month)
  }

  predicate Before(a: Date, b: Date) {
    a.month < b.month || (a.month == b.month && a.day < b.day)
  }

  // ---- day numbers ----

  /** Days before the first of the month. */
  function DaysBefore(month: nat): int {
    if month == 0 then 0 else DaysBefore(month - 1) + DaysIn(month - 1)
  }

  function DayNumber(d: Date): int
    requires d.month >= 0
  {
    DaysBefore(d.month) + d.day
  }

  lemma {:induction false} MonthsInOrder(a: nat, b: nat)
    requires a < b
    ensures DaysBefore(a) + DaysIn(a) <= DaysBefore(b)
  {
    if a < b - 1 { MonthsInOrder(a, b - 1); }
  }

  function QuarterLength(month: nat): int {
    DaysIn(month) + DaysIn(month + 1) + DaysIn(month + 2)
  }

  lemma Quarter(month: nat)
    ensures DaysBefore(month + 3) == DaysBefore(month) + QuarterLength(month)
  {
    assert DaysBefore(month + 1) == DaysBefore(month) + DaysIn(month);
    assert DaysBefore(month + 2) == DaysBefore(month + 1) + DaysIn(month + 1);
  }

  lemma MonthLength(year: nat, i: nat)
    requires i < 12
    ensures DaysIn(12 * year + i) ==
      if i == 1 then (if IsLeap(year) then 29 else 28) else if i in {3, 5, 8, 10} then 30 else 31
  {
    assert (12 * year + i) / 12 == year;
  }

  lemma QuarterIs(year: nat, i: nat)
    requires i in {0, 3, 6, 9}
    ensures QuarterLength(12 * year + i) ==
      if i == 0 then (if IsLeap(year) then 91 else 90) else if i == 3 then 91 else 92
  {
    MonthLength(year, i);
    MonthLength(year, i + 1);
    MonthLength(year, i + 2);
  }

  lemma FourQuarters(month: nat)
    ensures DaysBefore(month + 12) == DaysBefore(month)
      + QuarterLength(month) + QuarterLength(month + 3) + QuarterLength(month + 6) + QuarterLength(month + 9)
  {
    Quarter(month);
    Quarter(month + 3);
    Quarter(month + 6);
    Quarter(month + 9);
  }

  function YearLength(year: nat): int {
    if IsLeap(year) then 366 else 365
  }

  lemma LengthsAddUp(year: nat)
    ensures var m := 12 * year;
      QuarterLength(m) + QuarterLength(m + 3) + QuarterLength(m + 6) + QuarterLength(m + 9) == YearLength(year)
  {
    QuarterIs(year, 0);
    QuarterIs(year, 3);
    QuarterIs(year, 6);
    QuarterIs(year, 9);
  }

  lemma OneYear(year: nat)
    ensures DaysBefore(12 * year + 12) == DaysBefore(12 * year) + YearLength(year)
  {
    LengthsAddUp(year);
    FourQuarters(12 * year);
  }

  /** The multiples of `n` below `year`. */
  function MultiplesBelow(year: nat, n: nat): int
    requires n > 0
  {
    (year + n - 1) / n
  }

  lemma OneMoreFourth(year: nat)
    ensures MultiplesBelow(year + 1, 4) == MultiplesBelow(year, 4) + (if year % 4 == 0 then 1 else 0)
  {
  }

  lemma OneMoreCentury(year: nat)
    ensures MultiplesBelow(year + 1, 100) == MultiplesBelow(year, 100) + (if year % 100 == 0 then 1 else 0)
  {
    assert year == 100 * (year / 100) + year % 100;
  }

  lemma OneMoreCycle(year: nat)
    ensures MultiplesBelow(year + 1, 400) == MultiplesBelow(year, 400) + (if year % 400 == 0 then 1 else 0)
  {
    assert year == 400 * (year / 400) + year % 400;
  }

  /** The Gregorian rule in closed form: 365 days a year, one more for every fourth, but not the centuries, save every
      fourth of those. */
  lemma {:induction false} YearsInClosedForm(year: nat)
    ensures DaysBefore(12 * year) ==
      365 * year + MultiplesBelow(year, 4) - MultiplesBelow(year, 100) + MultiplesBelow(year, 400)
  {
    if year > 0 {
      YearsInClosedForm(year - 1);
      OneYear(year - 1);
      OneMoreFourth(year - 1);
      OneMoreCentury(year - 1);
      OneMoreCycle(year - 1);
      LeapIsCounted(year - 1);
    }
  }

  lemma LeapIsCounted(year: nat)
    ensures YearLength(year) == 365 +
      (if year % 4 == 0 then 1 else 0) - (if year % 100 == 0 then 1 else 0) + (if year % 400 == 0 then 1 else 0)
  {
    CycleIsCentury(year);
    CenturyIsFourth(year);
  }

  lemma CycleIsCentury(year: nat)
    ensures year % 400 == 0 ==> year % 100 == 0
  {
    Remainder(year, year / 400, year % 400, 400);
    if year % 400 == 0 { Multiple(year, 4 * (year / 400), 100); }
  }

  lemma CenturyIsFourth(year: nat)
    ensures year % 100 == 0 ==> year % 4 == 0
  {
    Remainder(year, year / 100, year % 100, 100);
    if year % 100 == 0 { Multiple(year, 25 * (year / 100), 4); }
  }

  lemma Remainder(x: nat, q: nat, r: nat, n: nat)
    requires n in {100, 400} && q == x / n && r == x % n
    ensures x == n * q + r
  {
  }

  lemma Multiple(x: nat, k: nat, n: nat)
    requires n in {4, 100} && x == n * k
    ensures x % n == 0
  {
    if n == 4 { assert x == 4 * k; } else { assert x == 100 * k; }
  }

  /** Dates compare like their day numbers. */
  lemma OrderIsByNumber(a: Date, b: Date)
    requires Valid(a) && Valid(b)
    ensures Before(a, b) <==> DayNumber(a) < DayNumber(b)
  {
    if a.month < b.month { MonthsInOrder(a.month, b.month); }
    if b.month < a.month { MonthsInOrder(b.month, a.month); }
  }

  /** The date `offset` days after the first of the month, in that month or a later one. */
  function Locate(month: int, offset: nat): Date
    decreases offset
  {
    if offset < DaysIn(month) then Date(month, offset + 1) else Locate(month + 1, offset - DaysIn(month))
  }

  lemma {:induction false} LocateNumbers(month: nat, offset: nat)
    ensures Valid(Locate(month, offset)) && DayNumber(Locate(month, offset)) == DaysBefore(month) + offset + 1
    decreases offset
  {
    if offset >= DaysIn(month) { LocateNumbers(month + 1, offset - DaysIn(month)); }
  }

  /** `date + timedelta(days=n)`. */
  function AddDays(d: Date, n: nat): Date
    requires d.day >= 1
  {
    Locate(d.month, d.day - 1 + n)
  }

  lemma AddDaysNumbers(d: Date, n: nat)
    requires Valid(d)
    ensures Valid(AddDays(d, n)) && DayNumber(AddDays(d, n)) == DayNumber(d) + n
  {
    LocateNumbers(d.month, d.day - 1 + n);
  }

  // ---- months ----

  function Min(a: int, b: int): int {
    if a <= b then a else b
  }

  /** `date + relativedelta(months=k)`: the same day, or the last one of a shorter month. */
  function AddMonths(d: Date, k: int): Date {
    Date(d.month + k, Min(d.day, DaysIn(d.month + k)))
  }
}
