/** The billing periods the demo seeder plans for an anchor day. */
module Seed {
  import opened Calendar
  import opened IsoDate
  import opened Options
  import opened BillingPeriod

  datatype Period = Period(start: Date, end: Date)

  datatype Plan = YearOutOfRange | Plan(closed: seq<Period>, openStart: Date)

  /** The dates Python's `date` can hold: years 1 to 9999. */
  predicate Representable(d: Date) {
    Valid(d) && 1 <= Year(d) <= 9999
  }

  /** The first of the month `back` months earlier, plus `days`. */
  function Boundary(first: Date, back: int, days: nat): Date
    requires first.day == 1
  {
    AddDays(AddMonths(first, -back), days)
  }

  function Definitions(first: Date): seq<Period>
    requires first.day == 1
  {
    [Period(Boundary(first, 3, 24), Boundary(first, 2, 21)),
     Period(Boundary(first, 2, 22), Boundary(first, 1, 22)),
     Period(Boundary(first, 1, 23), Boundary(first, 0, 23))]
  }

  function EndedBefore(periods: seq<Period>, anchor: Date): seq<Period> {
    if periods == [] then []
    else (if Before(periods[0].end, anchor) then [periods[0]] else []) + EndedBefore(periods[1..], anchor)
  }

  /** `closed[-1]` needs a closed period; `first - relativedelta(months=3)` needs a year of at least 1. */
  function PlanBillingPeriods(anchor: Date): Plan
    requires Representable(anchor)
  {
    var first := anchor.(day := 1);
    if Year(AddMonths(first, -3)) < 1 then YearOutOfRange else
      var closed := EndedBefore(Definitions(first), anchor);
      TwoAlwaysEnded(anchor);
      Plan(closed, AddDays(closed[|closed| - 1].end, 1))
  }

  /** A short offset from the first of a month stays in the month. */
  lemma BoundaryIsInMonth(first: Date, back: int, days: nat)
    requires first.day == 1 && days < 28
    ensures Boundary(first, back, days) == Date(first.month - back, days + 1)
  {
  }

  function First(month: int): Period {
    Period(Date(month - 3, 25), Date(month - 2, 22))
  }

  function Second(month: int): Period {
    Period(Date(month - 2, 23), Date(month - 1, 23))
  }

  /** From the 25th to the 22nd, then from the 23rd to the 23rd. */
  function FirstTwo(month: int): seq<Period> {
    [First(month), Second(month)]
  }

  /** From the 24th to the 24th of the anchor's month. */
  function Third(month: int): Period {
    Period(Date(month - 1, 24), Date(month, 24))
  }

  lemma DefinitionsAre(first: Date)
    requires first.day == 1
    ensures Definitions(first) == [First(first.month), Second(first.month), Third(first.month)]
  {
    BoundaryIsInMonth(first, 3, 24);
    BoundaryIsInMonth(first, 2, 21);
    BoundaryIsInMonth(first, 2, 22);
    BoundaryIsInMonth(first, 1, 22);
    BoundaryIsInMonth(first, 1, 23);
    BoundaryIsInMonth(first, 0, 23);
  }

  lemma OneMoreEnded(p: Period, rest: seq<Period>, anchor: Date)
    ensures EndedBefore([p] + rest, anchor) == (if Before(p.end, anchor) then [p] else []) + EndedBefore(rest, anchor)
  {
    assert ([p] + rest)[1..] == rest;
  }

  lemma EndedBeforeCuts(first: Date, anchor: Date)
    requires first == anchor.(day := 1)
    ensures EndedBefore(Definitions(first), anchor) ==
      FirstTwo(first.month) + (if anchor.day <= 24 then [] else [Third(first.month)])
  {
    var m := first.month;
    DefinitionsAre(first);
    OneMoreEnded(First(m), [Second(m), Third(m)], anchor);
    OneMoreEnded(Second(m), [Third(m)], anchor);
    OneMoreEnded(Third(m), [], anchor);
    assert [First(m)] + [Second(m), Third(m)] == [First(m), Second(m), Third(m)];
    assert [Second(m)] + [Third(m)] == [Second(m), Third(m)] && [Third(m)] + [] == [Third(m)];
  }

  lemma TwoAlwaysEnded(anchor: Date)
    ensures var closed := EndedBefore(Definitions(anchor.(day := 1)), anchor);
      |closed| >= 2 && closed[|closed| - 1].end.day >= 1
  {
    EndedBeforeCuts(anchor.(day := 1), anchor);
  }

  /** The plan fails exactly on an anchor in January, February or March of year 1. */
  lemma FailsExactlyInFirstQuarterOfYearOne(anchor: Date)
    requires Representable(anchor)
    ensures PlanBillingPeriods(anchor) == YearOutOfRange <==> Year(anchor) == 1 && MonthOfYear(anchor) <= 3
  {
  }

  /** The two regimes: through the 24th two closed periods, from the 25th three; nothing else about the day matters. */
  lemma Regimes(anchor: Date)
    requires Representable(anchor) && PlanBillingPeriods(anchor).Plan?
    ensures anchor.day <= 24 ==> PlanBillingPeriods(anchor) == Plan(FirstTwo(anchor.month), Date(anchor.month - 1, 24))
    ensures anchor.day >= 25 ==>
      PlanBillingPeriods(anchor) == Plan(FirstTwo(anchor.month) + [Third(anchor.month)], Date(anchor.month, 25))
  {
    EndedBeforeCuts(anchor.(day := 1), anchor);
    assert DaysIn(anchor.month) >= 28 && DaysIn(anchor.month - 1) >= 28;
  }

  /** The first day a date can hold. */
  lemma FirstDayCannotBePlanned(anchor: Date)
    requires anchor == Date(12, 1)
    ensures Representable(anchor) && PlanBillingPeriods(anchor) == YearOutOfRange
  {
    FailsExactlyInFirstQuarterOfYearOne(anchor);
  }

  // ---- covering ----

  predicate Contains(p: Period, d: Date) {
    !Before(d, p.start) && !Before(p.end, d)
  }

  function TimesIn(periods: seq<Period>, d: Date): nat {
    if periods == [] then 0 else (if Contains(periods[0], d) then 1 else 0) + TimesIn(periods[1..], d)
  }

  /** How many of the closed periods and the open one hold the day. */
  function TimesCovered(plan: Plan, d: Date): nat
    requires plan.Plan?
  {
    TimesIn(plan.closed, d) + (if Before(d, plan.openStart) then 0 else 1)
  }

  /** The start of the first period, or of the open one when there is none. */
  function StartOf(periods: seq<Period>, next: Date): Date {
    if periods == [] then next else periods[0].start
  }

  /** No period is empty, and each starts the day after the one before it ended. */
  predicate Tiles(periods: seq<Period>, next: Date) {
    && Valid(next)
    && (periods != [] ==>
      var p := periods[0];
      && Valid(p.start) && Valid(p.end) && !Before(p.end, p.start)
      && Tiles(periods[1..], next)
      && Valid(StartOf(periods[1..], next))
      && DayNumber(StartOf(periods[1..], next)) == DayNumber(p.end) + 1)
  }

  /** Tiling periods and an open end hold no day twice, and every day from their first start on. */
  lemma {:induction false} TilesCoverOnce(periods: seq<Period>, next: Date, d: Date)
    requires Tiles(periods, next) && Valid(d)
    ensures TimesIn(periods, d) + (if Before(d, next) then 0 else 1) ==
      if Before(d, StartOf(periods, next)) then 0 else 1
  {
    if periods != [] {
      var p, after := periods[0], StartOf(periods[1..], next);
      TilesCoverOnce(periods[1..], next, d);
      OrderIsByNumber(d, p.start);
      OrderIsByNumber(p.end, d);
      OrderIsByNumber(d, after);
      OrderIsByNumber(p.end, p.start);
    }
  }

  lemma NextDay(a: Date)
    requires Valid(a) && a.day < 28
    ensures Valid(a.(day := a.day + 1)) && DayNumber(a.(day := a.day + 1)) == DayNumber(a) + 1
  {
  }

  lemma OneMoreTile(p: Period, rest: seq<Period>, next: Date)
    requires Valid(p.start) && Valid(p.end) && !Before(p.end, p.start) && p.end.day < 28
    requires Tiles(rest, next) && StartOf(rest, next) == p.end.(day := p.end.day + 1)
    ensures Tiles([p] + rest, next) && StartOf([p] + rest, next) == p.start
  {
    NextDay(p.end);
    assert ([p] + rest)[1..] == rest;
  }

  lemma WindowsMeet(month: int)
    requires month >= 3
    ensures Valid(First(month).start) && Valid(First(month).end) && !Before(First(month).end, First(month).start)
    ensures Valid(Second(month).start) && Valid(Second(month).end) && !Before(Second(month).end, Second(month).start)
  {
  }

  lemma FirstTwoTile(month: int, rest: seq<Period>, next: Date)
    requires month >= 3 && Tiles(rest, next) && StartOf(rest, next) == Date(month - 1, 24)
    ensures Tiles(FirstTwo(month) + rest, next)
  {
    WindowsMeet(month);
    OneMoreTile(Second(month), rest, next);
    OneMoreTile(First(month), [Second(month)] + rest, next);
    assert FirstTwo(month) + rest == [First(month)] + ([Second(month)] + rest);
  }

  lemma PlanTiles(anchor: Date)
    requires Representable(anchor) && PlanBillingPeriods(anchor).Plan?
    ensures Tiles(PlanBillingPeriods(anchor).closed, PlanBillingPeriods(anchor).openStart)
  {
    Regimes(anchor);
    if anchor.day <= 24 {
      FirstTwoTile(anchor.month, [], Date(anchor.month - 1, 24));
      assert FirstTwo(anchor.month) + [] == FirstTwo(anchor.month);
    } else {
      NextDay(Third(anchor.month).end);
      FirstTwoTile(anchor.month, [Third(anchor.month)], Date(anchor.month, 25));
    }
  }

  /** For every anchor: each day from the first start on is in exactly one period, no earlier day is in any, and the
      open period has started by the anchor. */
  lemma EveryDayOnce(anchor: Date, d: Date)
    requires Representable(anchor) && PlanBillingPeriods(anchor).Plan? && Valid(d)
    ensures var plan := PlanBillingPeriods(anchor);
      && TimesCovered(plan, d) == (if Before(d, plan.closed[0].start) then 0 else 1)
      && !Before(anchor, plan.openStart)
      && Before(plan.closed[0].start, anchor)
  {
    PlanTiles(anchor);
    Regimes(anchor);
    TilesCoverOnce(PlanBillingPeriods(anchor).closed, PlanBillingPeriods(anchor).openStart, d);
  }

  // ---- what the client shows at the anchor ----

  /** The rows the API returns for the plan, in the order they were posted; ids and other columns are whatever they
      are. */
  ghost predicate RowsOf(plan: Plan, rows: seq<Row>)
    requires plan.Plan?
  {
    && Valid(plan.openStart) && (forall p | p in plan.closed :: Valid(p.start) && Valid(p.end))
    && |rows| == |plan.closed| + 1
    && (forall i | 0 <= i < |plan.closed| ::
          rows[i].start == Iso(plan.closed[i].start) && rows[i].end == Some(Iso(plan.closed[i].end)))
    && rows[|plan.closed|].start == Iso(plan.openStart)
    && rows[|plan.closed|].end == None
  }

  lemma PeriodIsPast(row: Row, p: Period, anchor: Date)
    requires Representable(anchor) && Valid(p.start) && Valid(p.end) && Before(p.start, p.end) && Before(p.end, anchor)
    requires row.start == Iso(p.start) && row.end == Some(Iso(p.end))
    ensures PeriodStatus(row, Iso(anchor)) == Past
  {
    IsoOrder(p.start, p.end);
    IsoOrder(p.end, anchor);
    StatusMeans(row, Iso(anchor));
  }

  lemma ClosedIsPast(anchor: Date, rows: seq<Row>, i: nat)
    requires Representable(anchor) && PlanBillingPeriods(anchor).Plan?
    requires RowsOf(PlanBillingPeriods(anchor), rows) && i < |PlanBillingPeriods(anchor).closed|
    ensures PeriodStatus(rows[i], Iso(anchor)) == Past
  {
    Regimes(anchor);
    var p := PlanBillingPeriods(anchor).closed[i];
    assert p in PlanBillingPeriods(anchor).closed;
    PeriodIsPast(rows[i], p, anchor);
  }

  /** At the anchor every closed row is past and the last one open. */
  lemma StatusesAtTheAnchor(anchor: Date, rows: seq<Row>)
    requires Representable(anchor) && PlanBillingPeriods(anchor).Plan? && RowsOf(PlanBillingPeriods(anchor), rows)
    ensures forall i | 0 <= i < |rows| - 1 :: PeriodStatus(rows[i], Iso(anchor)) == Past
    ensures PeriodStatus(rows[|rows| - 1], Iso(anchor)) == Open
  {
    forall i | 0 <= i < |rows| - 1 ensures PeriodStatus(rows[i], Iso(anchor)) == Past {
      ClosedIsPast(anchor, rows, i);
    }
  }

  /** For any order of the rows, the open one is the row selected, at the index given. */
  lemma OpenRowIsSelected(plan: Plan, rows: seq<Row>, shown: seq<Row>)
    requires plan.Plan? && RowsOf(plan, rows) && SameRows(shown, rows)
    ensures SelectCurrentPeriod(shown) == Some(rows[|rows| - 1])
    ensures 0 <= SelectCurrentPeriodIndex(shown) < |shown| && shown[SelectCurrentPeriodIndex(shown)] == rows[|rows| - 1]
  {
    SameTops(shown, rows);
    SelectionIsTop(shown);
    assert rows[|rows| - 1] in shown;
    IndexPointsAtSelection(shown);
  }
}
