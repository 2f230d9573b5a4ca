/** Which billing period a row is, and which row is shown as current. */
module BillingPeriod {
  import opened Options
  import opened StringOrder

  /** A period row: its two dates as ISO text, its id when the payload has a numeric one, and its other columns. */
  datatype Row = Row(start: string, end: Option<string>, id: Option<int>, other: string)

  datatype Status = Invalid | Open | Upcoming | CurrentByCalendar | Past

  function PeriodStatus(row: Row, today: string): Status {
    if row.end.Some? && StrictlyBelow(row.end.value, row.start) then Invalid
    else if row.end.None? then Open
    else if StrictlyBelow(today, row.start) then Upcoming
    else if Below(row.start, today) && Below(today, row.end.value) then CurrentByCalendar
    else Past
  }

  lemma Trichotomy(a: string, b: string)
    ensures Below(a, b) <==> !StrictlyBelow(b, a)
  {
    Total(a, b);
    if Below(a, b) && Below(b, a) { Antisymmetric(a, b); }
    Reflexive(a);
  }

  /** The branches partition the rows: what each status says of a row, whatever the order they are tried in. */
  lemma StatusMeans(row: Row, today: string)
    ensures PeriodStatus(row, today) == Open <==> row.end.None?
    ensures PeriodStatus(row, today) == Invalid <==> row.end.Some? && StrictlyBelow(row.end.value, row.start)
    ensures PeriodStatus(row, today) == Upcoming <==>
      row.end.Some? && StrictlyBelow(today, row.start) && Below(row.start, row.end.value)
    ensures PeriodStatus(row, today) == CurrentByCalendar <==>
      row.end.Some? && Below(row.start, today) && Below(today, row.end.value)
    ensures PeriodStatus(row, today) == Past <==>
      row.end.Some? && Below(row.start, row.end.value) && StrictlyBelow(row.end.value, today)
  {
    Trichotomy(row.start, today);
    if row.end.Some? {
      Trichotomy(row.start, row.end.value);
      Trichotomy(today, row.end.value);
      if Below(row.start, today) && Below(today, row.end.value) { Transitive(row.start, today, row.end.value); }
      if Below(row.start, row.end.value) && Below(row.end.value, today) { Transitive(row.start, row.end.value, today); }
    }
  }

  // ---- selection ----

  /** The reducer: later start wins; on a tie the greater id, when both have one. */
  function Prefer(best: Option<Row>, row: Row): Option<Row> {
    if row.end.Some? then best
    else if best.None? then Some(row)
    else if row.start != best.value.start then (if StrictlyBelow(best.value.start, row.start) then Some(row) else best)
    else if row.id.Some? && best.value.id.Some? then (if row.id.value > best.value.id.value then Some(row) else best)
    else best
  }

  function Reduce(best: Option<Row>, rows: seq<Row>): Option<Row>
    decreases |rows|
  {
    if rows == [] then best else Reduce(Prefer(best, rows[0]), rows[1..])
  }

  function SelectCurrentPeriod(rows: seq<Row>): Option<Row> {
    Reduce(None, rows)
  }

  /** The open rows with the latest start. */
  ghost predicate IsTop(r: Row, rows: seq<Row>) {
    r in rows && r.end.None? && forall x | x in rows && x.end.None? :: Below(x.start, r.start)
  }

  /** Not beaten by `x`: later, or tied without a greater id to compare. */
  predicate Holds(r: Row, x: Row) {
    x.end.None? ==>
      && Below(x.start, r.start)
      && (x.start == r.start && x.id.Some? && r.id.Some? ==> x.id.value <= r.id.value)
  }

  /** The reduction keeps a row unless something later beats it, and what it keeps has not been beaten since. */
  lemma {:induction false} ReduceKeepsBest(best: Option<Row>, rows: seq<Row>)
    requires best.Some? ==> best.value.end.None?
    ensures var r := Reduce(best, rows);
      && (r.None? <==> best.None? && forall x | x in rows :: x.end.Some?)
      && (r.Some? ==> r.value.end.None? && (r == best || r.value in rows))
      && (r.Some? && best.Some? ==> Below(best.value.start, r.value.start))
      && (r.Some? ==> forall x | x in rows && x.end.None? :: Below(x.start, r.value.start))
    decreases |rows|
  {
    if rows == [] {
      if best.Some? { Reflexive(best.value.start); }
    } else {
      var next := Prefer(best, rows[0]);
      ReduceKeepsBest(next, rows[1..]);
      var r := Reduce(best, rows);
      if best.Some? { Total(best.value.start, rows[0].start); Reflexive(best.value.start); }
      Reflexive(rows[0].start);
      if r.Some? && next.Some? {
        if best.Some? { Transitive(best.value.start, next.value.start, r.value.start); }
        if rows[0].end.None? { Transitive(rows[0].start, next.value.start, r.value.start); }
      }
      assert rows == [rows[0]] + rows[1..];
    }
  }

  /** The answer is an open row no other open row starts after, and there is one exactly when some row is open. */
  lemma SelectionIsTop(rows: seq<Row>)
    ensures SelectCurrentPeriod(rows).Some? ==> IsTop(SelectCurrentPeriod(rows).value, rows)
    ensures SelectCurrentPeriod(rows).None? <==> forall x | x in rows :: x.end.Some?
  {
    ReduceKeepsBest(None, rows);
  }

  lemma {:induction false} UnbeatenStays(r: Row, rows: seq<Row>)
    requires r.end.None? && forall x | x in rows :: Holds(r, x)
    ensures Reduce(Some(r), rows) == Some(r)
    decreases |rows|
  {
    if rows != [] {
      assert Holds(r, rows[0]);
      Trichotomy(rows[0].start, r.start);
      assert Prefer(Some(r), rows[0]) == Some(r);
      UnbeatenStays(r, rows[1..]);
    }
  }

  ghost predicate SameRows(a: seq<Row>, b: seq<Row>) {
    multiset(a) == multiset(b)
  }

  ghost predicate OrderIndependent(rows: seq<Row>) {
    forall p | SameRows(p, rows) :: SelectCurrentPeriod(p) == SelectCurrentPeriod(rows)
  }

  /** Rows tied at the latest start are one row, or all carry ids and the greatest id is one row's. */
  ghost predicate Decided(rows: seq<Row>) {
    forall a, b | IsTop(a, rows) && IsTop(b, rows) && a != b :: a.id.Some? && b.id.Some? &&
      (a.id == b.id ==> exists c :: IsTop(c, rows) && c.id.Some? && c.id.value > a.id.value)
  }

  lemma SameTops(p: seq<Row>, rows: seq<Row>)
    requires SameRows(p, rows)
    ensures forall r :: r in p <==> r in rows
    ensures forall r :: IsTop(r, p) <==> IsTop(r, rows)
  {
    forall r ensures r in p <==> r in rows {
      assert r in p <==> r in multiset(p);
      assert r in rows <==> r in multiset(rows);
    }
  }

  /** An open row starting no later than `top`, with an id when it is tied. */
  predicate NoLaterThan(r: Row, top: Row) {
    r.end.None? && Below(r.start, top.start) && (r.start == top.start ==> r.id.Some?)
  }

  /** When every tied row has an id, the answer has the greatest. */
  lemma {:induction false} ReduceTakesGreatestId(best: Option<Row>, rows: seq<Row>, top: Row)
    requires best.Some? ==> NoLaterThan(best.value, top)
    requires top in rows || best == Some(top)
    requires top.end.None? && top.id.Some? && forall x | x in rows && x.end.None? :: NoLaterThan(x, top)
    ensures var r := Reduce(best, rows);
      r.Some? && r.value.start == top.start && r.value.id.Some? && r.value.id.value >= top.id.value
    decreases |rows|
  {
    if rows == [] {
    } else {
      var next := Prefer(best, rows[0]);
      assert rows == [rows[0]] + rows[1..];
      if top in rows[1..] {
        ReduceTakesGreatestId(next, rows[1..], top);
      } else {
        if best.Some? && best.value.start != top.start { assert StrictlyBelow(best.value.start, top.start); }
        if best.Some? && rows[0].end.None? && best.value.start == top.start
          && StrictlyBelow(best.value.start, rows[0].start) {
          Antisymmetric(top.start, rows[0].start);
        }
        assert next.Some? && next.value.start == top.start;
        assert next.value.id.Some? && next.value.id.value >= top.id.value;
        ReduceTakesGreatestId(next, rows[1..], next.value);
      }
    }
  }

  function Without(rows: seq<Row>, i: nat): seq<Row>
    requires i < |rows|
  {
    rows[..i] + rows[i + 1..]
  }

  /** Listed first, a row nothing beats is the answer. */
  lemma FirstWins(rows: seq<Row>, r: Row) returns (p: seq<Row>)
    requires r in rows && r.end.None? && forall x | x in rows :: Holds(r, x)
    ensures SameRows(p, rows) && SelectCurrentPeriod(p) == Some(r)
  {
    var i :| 0 <= i < |rows| && rows[i] == r;
    p := [r] + Without(rows, i);
    assert rows == rows[..i] + [r] + rows[i + 1..];
    assert p[1..] == Without(rows, i);
    forall x | x in p[1..] ensures Holds(r, x) {
      assert x in rows;
    }
    UnbeatenStays(r, p[1..]);
  }

  lemma TopHolds(r: Row, rows: seq<Row>)
    requires IsTop(r, rows)
    requires r.id.Some? ==> forall c | IsTop(c, rows) && c.id.Some? :: c.id.value <= r.id.value
    ensures forall x | x in rows :: Holds(r, x)
  {
    forall x | x in rows ensures Holds(r, x) {
      if x.end.None? && x.start == r.start { assert IsTop(x, rows); }
    }
  }

  lemma UndecidedDepends(rows: seq<Row>, a: Row, b: Row)
    requires IsTop(a, rows) && IsTop(b, rows) && a != b
    requires a.id.None? || (b.id == a.id && forall c | IsTop(c, rows) && c.id.Some? :: c.id.value <= a.id.value)
    ensures !OrderIndependent(rows)
  {
    TopHolds(a, rows);
    var p := FirstWins(rows, a);
    SameTops(p, rows);
    if OrderIndependent(rows) {
      if a.id.None? {
        var q := AnotherFirst(rows, a, b);
      } else {
        TopHolds(b, rows);
        var q := FirstWins(rows, b);
      }
    }
  }

  /** Listed after another of the latest rows, a row without id is never the answer. */
  lemma AnotherFirst(rows: seq<Row>, a: Row, b: Row) returns (q: seq<Row>)
    requires IsTop(a, rows) && IsTop(b, rows) && a != b && a.id.None?
    ensures SameRows(q, rows) && SelectCurrentPeriod(q) != Some(a)
  {
    var i :| 0 <= i < |rows| && rows[i] == b;
    q := [b] + Without(rows, i);
    assert rows == rows[..i] + [b] + rows[i + 1..];
    assert q[1..] == Without(rows, i);
    forall x | x in q[1..] && x.end.None? ensures Below(x.start, a.start) {
      assert x in rows;
    }
    SameStart(a, b, rows);
    NeverTakes(b, q[1..], a);
  }

  lemma {:induction false} NeverTakes(best: Row, rows: seq<Row>, a: Row)
    requires best.end.None? && best != a && a.id.None? && best.start == a.start
    requires forall x | x in rows && x.end.None? :: Below(x.start, a.start)
    ensures Reduce(Some(best), rows) != Some(a)
    decreases |rows|
  {
    if rows != [] {
      var next := Prefer(Some(best), rows[0]).value;
      if rows[0].end.None? && StrictlyBelow(best.start, rows[0].start) { Antisymmetric(a.start, rows[0].start); }
      NeverTakes(next, rows[1..], a);
    }
  }

  /** The answer does not depend on the order of the payload exactly when the latest open rows are decided. */
  lemma OrderIndependentExactlyWhenDecided(rows: seq<Row>)
    ensures OrderIndependent(rows) <==> Decided(rows)
  {
    if !Decided(rows) {
      var a, b :| IsTop(a, rows) && IsTop(b, rows) && a != b && !(a.id.Some? && b.id.Some? &&
        (a.id == b.id ==> exists c :: IsTop(c, rows) && c.id.Some? && c.id.value > a.id.value));
      SameStart(a, b, rows);
      if a.id.Some? && b.id.None? { UndecidedDepends(rows, b, a); } else { UndecidedDepends(rows, a, b); }
    } else {
      forall p | SameRows(p, rows) ensures SelectCurrentPeriod(p) == SelectCurrentPeriod(rows) {
        DecidedSame(p, rows);
      }
    }
  }

  lemma FirstOfTwo(a: Row, b: Row)
    requires a.start == b.start && a.end.None? && b.end.None? && a.id.None? && b.id.None?
    ensures SelectCurrentPeriod([a, b]) == Some(a)
  {
    assert Prefer(None, a) == Some(a) && Prefer(Some(a), b) == Some(a);
    assert [a, b][1..] == [b] && [b][1..] == [];
    assert Reduce(Some(a), [b]) == Reduce(Prefer(Some(a), b), []);
    assert Reduce(None, [a, b]) == Reduce(Some(a), [b]);
  }

  /** Two rows tied without ids are told apart by nothing but their order. */
  lemma TieWithoutIdsDepends(a: Row, b: Row)
    requires a != b && a.start == b.start && a.end.None? && b.end.None? && a.id.None? && b.id.None?
    ensures SameRows([b, a], [a, b])
    ensures SelectCurrentPeriod([a, b]) == Some(a) && SelectCurrentPeriod([b, a]) == Some(b)
  {
    FirstOfTwo(a, b);
    FirstOfTwo(b, a);
    assert multiset([b, a]) == multiset{a, b} == multiset([a, b]);
  }

  lemma SameStart(a: Row, b: Row, rows: seq<Row>)
    requires IsTop(a, rows) && IsTop(b, rows)
    ensures a.start == b.start
  {
    Antisymmetric(a.start, b.start);
  }

  lemma DecidedSame(p: seq<Row>, rows: seq<Row>)
    requires Decided(rows) && SameRows(p, rows)
    ensures SelectCurrentPeriod(p) == SelectCurrentPeriod(rows)
  {
    SameTops(p, rows);
    SelectionIsTop(p);
    SelectionIsTop(rows);
    if SelectCurrentPeriod(p).Some? && SelectCurrentPeriod(rows).Some? {
      var a, b := SelectCurrentPeriod(p).value, SelectCurrentPeriod(rows).value;
      if a != b {
        GreatestOfTops(p, rows, a, b);
        GreatestOfTops(rows, rows, b, a);
        var c :| IsTop(c, rows) && c.id.Some? && c.id.value > a.id.value;
        GreatestOfTops(rows, rows, b, c);
      }
    }
  }

  lemma GreatestOfTops(p: seq<Row>, rows: seq<Row>, r: Row, other: Row)
    requires Decided(rows) && SameRows(p, rows) && SelectCurrentPeriod(p) == Some(r) && IsTop(r, rows)
    requires IsTop(other, rows)
    requires exists a, b :: IsTop(a, rows) && IsTop(b, rows) && a != b
    ensures r.id.Some? && other.id.Some? && r.id.value >= other.id.value
  {
    SameTops(p, rows);
    forall x | x in p && x.end.None? ensures NoLaterThan(x, other) {
      if x.start == other.start { assert IsTop(x, rows); }
    }
    ReduceTakesGreatestId(None, p, other);
  }

  // ---- index ----

  function IndexOf(rows: seq<Row>, r: Row): int {
    if rows == [] then -1 else if rows[0] == r then 0
    else if IndexOf(rows[1..], r) < 0 then -1 else IndexOf(rows[1..], r) + 1
  }

  function SelectCurrentPeriodIndex(rows: seq<Row>): int {
    var current := SelectCurrentPeriod(rows);
    if current.None? then -1 else IndexOf(rows, current.value)
  }

  lemma {:induction false} IndexOfFinds(rows: seq<Row>, r: Row)
    ensures var i := IndexOf(rows, r);
      if r in rows then 0 <= i < |rows| && rows[i] == r && r !in rows[..i] else i == -1
  {
    if rows != [] && rows[0] != r {
      IndexOfFinds(rows[1..], r);
      var i := IndexOf(rows[1..], r);
      assert rows == [rows[0]] + rows[1..];
      if i >= 0 { assert rows[..i + 1] == [rows[0]] + rows[1..][..i]; }
    }
  }

  /** The index points at the selected row, or is -1 exactly when no row is open. */
  lemma IndexPointsAtSelection(rows: seq<Row>)
    ensures var i := SelectCurrentPeriodIndex(rows);
      if exists x :: x in rows && x.end.None?
      then 0 <= i < |rows| && SelectCurrentPeriod(rows) == Some(rows[i])
      else i == -1
  {
    SelectionIsTop(rows);
    if SelectCurrentPeriod(rows).Some? { IndexOfFinds(rows, SelectCurrentPeriod(rows).value); }
  }
}
