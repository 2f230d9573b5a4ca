/** Advancing a recurring transaction's date by one period, and what repeating that step does. */
module Recurrence {
  import opened Decimal
  import opened Calendar
  import opened IsoDate

  // ---- the step as the client computes it ----

  function FullYear(year: nat): (y: nat)
    ensures y >= 100
  {
    if year <= 99 then 1900 + year else year
  }

  /** `new Date(year, month, day)`: years 0 to 99 mean 1900 to 1999, month 0 is January, and a month or day out of
      range runs over into the next or previous one. */
  function NewDate(year: nat, month: int, day: nat): (d: Date)
    requires -1 <= month
    ensures Valid(d)
    ensures DayNumber(d) == DaysBefore(12 * FullYear(year) + month) + day
  {
    var m := 12 * FullYear(year) + month;
    if day == 0 then Date(m - 1, DaysIn(m - 1)) else
      LocateNumbers(m, day - 1);
      Locate(m, day - 1)
  }

  function MonthsOf(frequency: string): nat {
    if frequency == "quarterly" then 3 else if frequency == "yearly" then 12 else 1
  }

  predicate InDays(frequency: string) {
    frequency == "weekly" || frequency == "biweekly"
  }

  function DaysOf(frequency: string): nat {
    if frequency == "weekly" then 7 else 14
  }

  lemma TwoDigitsOfMatch(iso: string)
    ensures Match(iso).Parts? ==> Match(iso).year >= 0 && Match(iso).month >= 0 && Match(iso).day >= 0
  {
    if Match(iso).Parts? {
      DigitsAreNatural(iso[..4]);
      DigitsAreNatural(iso[5..7]);
      DigitsAreNatural(iso[8..]);
    }
  }

  lemma {:induction false} DigitsAreNatural(s: string)
    requires AllDigits(s)
    ensures ValueOf(s) >= 0
  {
    if s != "" { DigitsAreNatural(s[..|s| - 1]); }
  }

  /** The date the step computes from the three numbers read; `month` is the 1-based one. */
  function Advanced(year: nat, month: nat, day: nat, frequency: string): (d: Date)
    ensures Valid(d)
  {
    var mon := month - 1;
    if InDays(frequency) then
      var d := NewDate(year, mon, day);
      AddDaysNumbers(d, DaysOf(frequency));
      AddDays(d, DaysOf(frequency))
    else
      var months := MonthsOf(frequency);
      var lastDayOfTarget := NewDate(year, mon + months + 1, 0).day;
      NewDate(year, mon + months, Min(day, lastDayOfTarget))
  }

  function AdvanceISO(iso: string, frequency: string): string {
    var p := Match(iso);
    if p.NoMatch? then iso else
      TwoDigitsOfMatch(iso);
      LocalFormat(Advanced(p.year, p.month, p.day, frequency))
  }

  // ---- the step the documentation promises ----

  /** `relativedelta`: so many days, or so many months clamped to the month's last day. */
  function Step(d: Date, frequency: string): (r: Date)
    requires Valid(d)
    ensures Valid(r)
  {
    if InDays(frequency) then
      AddDaysNumbers(d, DaysOf(frequency));
      AddDays(d, DaysOf(frequency))
    else AddMonths(d, MonthsOf(frequency))
  }

  /** Weekly is 7 days, biweekly 14; quarterly 3 months, yearly 12, anything else one, on the same day where the
      month has it and on its last day where not. */
  lemma EachFrequency(d: Date, frequency: string)
    requires Valid(d)
    ensures frequency == "weekly" ==> DayNumber(Step(d, frequency)) == DayNumber(d) + 7
    ensures frequency == "biweekly" ==> DayNumber(Step(d, frequency)) == DayNumber(d) + 14
    ensures frequency == "quarterly" ==> Step(d, frequency).month == d.month + 3
    ensures frequency == "yearly" ==> Step(d, frequency).month == d.month + 12
    ensures frequency !in {"weekly", "biweekly", "quarterly", "yearly"} ==> Step(d, frequency).month == d.month + 1
    ensures !InDays(frequency) ==> var r := Step(d, frequency);
      r.day <= d.day && (r.day == d.day || r.day == DaysIn(r.month))
  {
    if InDays(frequency) { AddDaysNumbers(d, DaysOf(frequency)); }
  }

  lemma {:induction false} LocateIsNear(month: int, offset: nat)
    ensures month <= Locate(month, offset).month <= month + offset / 28
    decreases offset
  {
    if offset >= DaysIn(month) { LocateIsNear(month + 1, offset - DaysIn(month)); }
  }

  lemma StepIsNear(d: Date, frequency: string)
    requires Valid(d)
    ensures d.month <= Step(d, frequency).month <= d.month + 12
  {
    if InDays(frequency) { LocateIsNear(d.month, d.day - 1 + DaysOf(frequency)); }
  }

  lemma NewDateIs(d: Date)
    requires Valid(d) && Year(d) >= 100
    ensures NewDate(Year(d), MonthOfYear(d) - 1, d.day) == d
  {
  }

  lemma LastDay(year: nat, month: nat)
    requires year >= 100 && 1 <= month
    ensures NewDate(year, month, 0).day == DaysIn(12 * year + month - 1)
  {
  }

  lemma InMonth(year: nat, month: nat, day: nat)
    requires year >= 100 && 1 <= day <= DaysIn(12 * year + month)
    ensures NewDate(year, month, day) == Date(12 * year + month, day)
  {
  }

  lemma AdvancedIsStep(d: Date, frequency: string)
    requires Valid(d) && Year(d) >= 100
    ensures Advanced(Year(d), MonthOfYear(d), d.day, frequency) == Step(d, frequency)
  {
    if InDays(frequency) {
      NewDateIs(d);
    } else {
      var months := MonthsOf(frequency);
      var mon := MonthOfYear(d) - 1;
      assert 12 * Year(d) + mon == d.month;
      LastDay(Year(d), mon + months + 1);
      InMonth(Year(d), mon + months, Min(d.day, DaysIn(d.month + months)));
    }
  }

  /** From year 100 on, the text step is the calendar step. */
  lemma TextStepIsStep(d: Date, frequency: string)
    requires Valid(d) && 100 <= Year(d) <= 9999
    ensures AdvanceISO(Iso(d), frequency) == LocalFormat(Step(d, frequency))
  {
    MatchReadsIso(d);
    AdvancedIsStep(d, frequency);
  }

  lemma {:induction false} DigitsLength(n: nat, width: nat)
    requires width > 0
    ensures |Digits(n)| <= width <==> n < Power(width)
  {
    if n >= 10 && width > 1 { DigitsLength(n / 10, width - 1); }
    if n >= 10 && width == 1 { DigitsSpell(n / 10); }
    if n < 10 { PowerAtLeastTen(width); }
  }

  lemma {:induction false} PowerAtLeastTen(width: nat)
    requires width > 0
    ensures Power(width) >= 10
  {
    if width > 1 { PowerAtLeastTen(width - 1); }
  }

  lemma LocalFormatLength(d: Date)
    requires Valid(d)
    ensures |LocalFormat(d)| == |Digits(Year(d))| + 6
    ensures |LocalFormat(d)| <= 9 <==> Year(d) < 1000
    ensures |LocalFormat(d)| <= 10 <==> Year(d) < 10000
  {
    assert Power(2) == 100 && Power(3) == 1000 && Power(4) == 10000;
    PaddedSpells(MonthOfYear(d), 2);
    PaddedSpells(d.day, 2);
    DigitsLength(Year(d), 3);
    DigitsLength(Year(d), 4);
  }

  /** Years 0 to 99 are read as 1900 to 1999. */
  lemma LowYearsShift(year: nat, month: nat, day: nat, frequency: string)
    requires year <= 99
    ensures Advanced(year, month, day, frequency) == Advanced(1900 + year, month, day, frequency)
  {
  }

  lemma AdvancedIsNear(year: nat, month: nat, day: nat, frequency: string)
    requires year >= 100 && 1 <= month <= 12 && day <= 31
    ensures 12 * year - 1 <= Advanced(year, month, day, frequency).month <= 12 * year + 26
  {
    var m := 12 * year + month - 1;
    if InDays(frequency) {
      var d := NewDate(year, month - 1, day);
      if day > 0 { LocateIsNear(m, day - 1); }
      LocateIsNear(d.month, d.day - 1 + DaysOf(frequency));
    } else {
      var months := MonthsOf(frequency);
      LastDay(year, month - 1 + months + 1);
      if day > 0 { LocateIsNear(m + months, Min(day, DaysIn(m + months)) - 1); }
    }
  }

  /** Below year 100 the step lands in the twentieth or twenty-first century. */
  lemma LowYearsMove(d: Date, frequency: string) returns (r: Date)
    requires Valid(d) && Year(d) <= 99
    ensures Valid(r) && 1899 <= Year(r) <= 2001 && AdvanceISO(Iso(d), frequency) == Iso(r)
  {
    MatchReadsIso(d);
    r := Advanced(Year(d), MonthOfYear(d), d.day, frequency);
    LowYearsShift(Year(d), MonthOfYear(d), d.day, frequency);
    AdvancedIsNear(1900 + Year(d), MonthOfYear(d), d.day, frequency);
    FourDigitYears(r);
  }

  /** The documented step, exactly when it lands in a year of four digits or more: below that the year is not padded,
      and below year 100 another century is meant. */
  lemma MatchesExactlyFromYear1000(d: Date, frequency: string)
    requires Valid(d) && Year(d) <= 9999 && Year(Step(d, frequency)) <= 9999
    ensures AdvanceISO(Iso(d), frequency) == Iso(Step(d, frequency)) <==> Year(Step(d, frequency)) >= 1000
  {
    var s := Step(d, frequency);
    StepIsNear(d, frequency);
    if Year(d) >= 100 {
      TextStepIsStep(d, frequency);
      if Year(s) >= 1000 {
        FourDigitYears(s);
      } else {
        LocalFormatLength(s);
        IsoSlices(s);
      }
    } else {
      var r := LowYearsMove(d, frequency);
      IsoOrder(r, s);
    }
  }

  /** June 15 of the year 50, a month on. */
  lemma YearFiftyIsMisread(d: Date)
    requires d == Date(12 * 50 + 5, 15)
    ensures AdvanceISO(Iso(d), "monthly") != Iso(Step(d, "monthly"))
  {
    MatchesExactlyFromYear1000(d, "monthly");
  }

  // ---- every step goes forward and keeps the order ----

  lemma StepMovesDays(d: Date, frequency: string)
    requires Valid(d) && InDays(frequency)
    ensures DayNumber(Step(d, frequency)) == DayNumber(d) + DaysOf(frequency)
  {
    AddDaysNumbers(d, DaysOf(frequency));
  }

  lemma StepIsForward(d: Date, frequency: string)
    requires Valid(d)
    ensures Before(d, Step(d, frequency))
  {
    if InDays(frequency) {
      StepMovesDays(d, frequency);
      OrderIsByNumber(d, Step(d, frequency));
    }
  }

  /** Two dates never change places; they meet exactly when both are clamped to the same month's last day. */
  lemma StepKeepsOrder(a: Date, b: Date, frequency: string)
    requires Valid(a) && Valid(b) && Before(a, b)
    ensures var x, y := Step(a, frequency), Step(b, frequency);
      && !Before(y, x)
      && (x == y <==> !InDays(frequency) && a.month == b.month && a.day >= DaysIn(a.month + MonthsOf(frequency)))
  {
    var x, y := Step(a, frequency), Step(b, frequency);
    if InDays(frequency) {
      StepMovesDays(a, frequency);
      StepMovesDays(b, frequency);
      OrderIsByNumber(a, b);
      OrderIsByNumber(x, y);
      OrderIsByNumber(y, x);
    }
  }

  // ---- repeating a step of `k` months ----

  function Repeated(d: Date, k: nat, n: nat): Date {
    if n == 0 then d else AddMonths(Repeated(d, k, n - 1), k)
  }

  /** The month landed on after `i` steps. */
  function Landed(month: int, k: nat, i: nat): int {
    month + i * k
  }

  /** `x` is the least of `day` and the lengths of the months landed on. */
  ghost predicate IsShortest(x: int, day: int, month: int, k: nat, n: nat) {
    && x <= day
    && (forall i: nat | 1 <= i <= n :: x <= DaysIn(Landed(month, k, i)))
    && (x == day || exists i: nat :: 1 <= i <= n && x == DaysIn(Landed(month, k, i)))
  }

  lemma NextLanded(month: int, k: nat, n: nat)
    ensures Landed(month, k, n + 1) == Landed(month, k, n) + k
  {
  }

  lemma ShortestIsUnique(x: int, y: int, day: int, month: int, k: nat, n: nat)
    requires IsShortest(x, day, month, k, n) && IsShortest(y, day, month, k, n)
    ensures x == y
  {
  }

  /** The closed form: n steps of k months land n * k months later, on the shortest of the day and all months landed
      on. */
  lemma {:induction false} RepeatedLands(d: Date, k: nat, n: nat)
    ensures Repeated(d, k, n).month == Landed(d.month, k, n)
    ensures IsShortest(Repeated(d, k, n).day, d.day, d.month, k, n)
    ensures forall x | IsShortest(x, d.day, d.month, k, n) :: x == Repeated(d, k, n).day
  {
    if n > 0 {
      RepeatedLands(d, k, n - 1);
      NextLanded(d.month, k, n - 1);
      var prev, now := Repeated(d, k, n - 1), Repeated(d, k, n);
      assert now.day == Min(prev.day, DaysIn(Landed(d.month, k, n)));
    }
    forall x | IsShortest(x, d.day, d.month, k, n) ensures x == Repeated(d, k, n).day {
      ShortestIsUnique(x, Repeated(d, k, n).day, d.day, d.month, k, n);
    }
  }

  /** Against one jump of n * k months: the same month, never a later day, and the same day exactly when no month landed
      on is too short for the day the jump lands on. */
  lemma AgainstOneJump(d: Date, k: nat, n: nat)
    requires n > 0
    ensures var r, jump := Repeated(d, k, n), AddMonths(d, n * k);
      && r.month == jump.month && r.day <= jump.day
      && (r == jump <==> forall i: nat | 1 <= i <= n :: jump.day <= DaysIn(Landed(d.month, k, i)))
  {
    RepeatedLands(d, k, n);
    assert Landed(d.month, k, n) == d.month + n * k;
    var r, jump := Repeated(d, k, n), AddMonths(d, n * k);
    if r.day != d.day {
      var i: nat :| 1 <= i <= n && r.day == DaysIn(Landed(d.month, k, i));
    }
  }

  /** Up to the 28th the two always agree. */
  lemma EarlyDaysNeverDrift(d: Date, k: nat, n: nat)
    requires n > 0 && d.day <= 28
    ensures Repeated(d, k, n) == AddMonths(d, n * k) == Date(d.month + n * k, d.day)
  {
    AgainstOneJump(d, k, n);
  }

  /** From the 29th on they need not: January 31 of a common year, twice a month. */
  lemma LateDaysDrift()
    ensures Repeated(Date(12 * 2025, 31), 1, 2) == Date(12 * 2025 + 2, 28)
    ensures AddMonths(Date(12 * 2025, 31), 2) == Date(12 * 2025 + 2, 31)
  {
    assert Repeated(Date(12 * 2025, 31), 1, 1) == AddMonths(Repeated(Date(12 * 2025, 31), 1, 0), 1);
  }

  // ---- the same on texts ----

  function RepeatedText(iso: string, frequency: string, n: nat): string {
    if n == 0 then iso else AdvanceISO(RepeatedText(iso, frequency, n - 1), frequency)
  }

  function RepeatedStep(d: Date, frequency: string, n: nat): (r: Date)
    requires Valid(d)
    ensures Valid(r)
  {
    if n == 0 then d else Step(RepeatedStep(d, frequency, n - 1), frequency)
  }

  lemma {:induction false} RepeatedStepMoves(d: Date, frequency: string, n: nat)
    requires Valid(d)
    ensures d.month <= RepeatedStep(d, frequency, n).month
    ensures InDays(frequency) ==> DayNumber(RepeatedStep(d, frequency, n)) == DayNumber(d) + n * DaysOf(frequency)
    ensures !InDays(frequency) ==> RepeatedStep(d, frequency, n) == Repeated(d, MonthsOf(frequency), n)
  {
    if n > 0 {
      RepeatedStepMoves(d, frequency, n - 1);
      var prev := RepeatedStep(d, frequency, n - 1);
      StepIsNear(prev, frequency);
      if InDays(frequency) {
        StepMovesDays(prev, frequency);
        assert n * DaysOf(frequency) == (n - 1) * DaysOf(frequency) + DaysOf(frequency);
      }
    }
  }

  /** From a four-digit year, n text steps spell n calendar steps, until one of them leaves year 9999. */
  lemma {:induction false} TextStepsAreSteps(d: Date, frequency: string, n: nat)
    requires Valid(d) && 1000 <= Year(d) <= 9999
    requires n > 0 ==> Year(RepeatedStep(d, frequency, n - 1)) <= 9999
    ensures RepeatedText(Iso(d), frequency, n) == LocalFormat(RepeatedStep(d, frequency, n))
  {
    if n == 0 {
      FourDigitYears(d);
    } else {
      var prev := RepeatedStep(d, frequency, n - 1);
      RepeatedStepMoves(d, frequency, n - 1);
      if n > 1 { StepIsNear(RepeatedStep(d, frequency, n - 2), frequency); }
      TextStepsAreSteps(d, frequency, n - 1);
      FourDigitYears(prev);
      TextStepIsStep(prev, frequency);
    }
  }

  /** The closed form on texts: month steps from a four-digit year to a date no later than year 9999. */
  lemma TextClosedForm(d: Date, frequency: string, n: nat)
    requires Valid(d) && Year(d) >= 1000 && !InDays(frequency)
    requires Year(Date(d.month + n * MonthsOf(frequency), 1)) <= 9999
    ensures var r := RepeatedStep(d, frequency, n);
      && r.month == d.month + n * MonthsOf(frequency)
      && IsShortest(r.day, d.day, d.month, MonthsOf(frequency), n)
      && RepeatedText(Iso(d), frequency, n) == Iso(r)
  {
    LandsInMonth(d, frequency, n);
    if n > 0 { LandsInMonth(d, frequency, n - 1); }
    TextStepsAreSteps(d, frequency, n);
    FourDigitYears(RepeatedStep(d, frequency, n));
  }

  lemma LandsInMonth(d: Date, frequency: string, n: nat)
    requires Valid(d) && !InDays(frequency)
    ensures var r := RepeatedStep(d, frequency, n);
      && r.month == d.month + n * MonthsOf(frequency) >= d.month
      && IsShortest(r.day, d.day, d.month, MonthsOf(frequency), n)
  {
    RepeatedStepMoves(d, frequency, n);
    RepeatedLands(d, MonthsOf(frequency), n);
  }

  /** Past year 9999 the text no longer matches, and stays as it is. */
  lemma {:induction false} StuckPastYear9999(d: Date, frequency: string, n: nat)
    requires Valid(d) && Year(d) > 9999
    ensures RepeatedText(LocalFormat(d), frequency, n) == LocalFormat(d)
  {
    LocalFormatLength(d);
    if n > 0 {
      StuckPastYear9999(d, frequency, n - 1);
      LongTextStays(LocalFormat(d), frequency);
    }
  }

  lemma LongTextStays(s: string, frequency: string)
    requires |s| > 10
    ensures AdvanceISO(s, frequency) == s
  {
  }
}
