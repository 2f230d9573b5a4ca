/**
 Named leases. Acquiring takes two transactions: take over an expired row, else insert one; other acquires and
 releases run in between.
 */
module Leases {
  import opened Instants

  type Name = string
  type Holder = string

  /** A row of leases, keyed by name. */
  datatype Row = Row(holder: Holder, expires: Time)
  type Table = map<Name, Row>

  /** First transaction: UPDATE ... WHERE expires_at <= now. */
  function TakeOver(t: Table, now: Time, name: Name, holder: Holder, ttl: int): (Table, bool) {
    if name in t && t[name].expires <= now then (t[name := Row(holder, now + ttl * SECOND)], true) else (t, false)
  }

  /** Second transaction: INSERT; a duplicate key means somebody holds it. */
  function InsertNew(t: Table, now: Time, name: Name, holder: Holder, ttl: int): (Table, bool) {
    if name in t then (t, false) else (t[name := Row(holder, now + ttl * SECOND)], true)
  }

  function Release(t: Table, name: Name, holder: Holder): Table {
    if name in t && t[name].holder == holder then t - {name} else t
  }

  datatype Acquired = NoLease | Lease(holder: Holder)

  class Store {
    var rows: Table

    constructor ()
      ensures rows == map[]
    {
      rows := map[];
    }

    method UpdateExpired(now: Time, name: Name, holder: Holder, ttl: int) returns (took: nat)
      modifies this
      ensures (rows, took == 1) == TakeOver(old(rows), now, name, holder, ttl) && took <= 1
      ensures took == 1 <==> name in old(rows) && old(rows)[name].expires <= now
      ensures rows == if took == 1 then old(rows)[name := Row(holder, now + ttl * SECOND)] else old(rows)
    {
      took := 0;
      if name in rows && rows[name].expires <= now {
        rows := rows[name := Row(holder, now + ttl * SECOND)];
        took := 1;
      }
    }

    /** Both transactions with nothing in between, at two readings of the clock. */
    method AcquireLease(now: Time, later: Time, name: Name, holder: Holder, ttl: int) returns (got: Acquired)
      modifies this
      ensures var first := TakeOver(old(rows), now, name, holder, ttl);
        if first.1 then rows == first.0 && got == Lease(holder)
        else (rows, got == Lease(holder)) == InsertNew(old(rows), later, name, holder, ttl)
      ensures got == Lease(holder) || (got == NoLease && rows == old(rows))
    {
      var took := UpdateExpired(now, name, holder, ttl);
      if took == 1 {
        return Lease(holder);
      }
      if name in rows {
        return NoLease;
      }
      rows := rows[name := Row(holder, later + ttl * SECOND)];
      return Lease(holder);
    }

    method ReleaseLease(name: Name, holder: Holder)
      modifies this
      ensures rows == Release(old(rows), name, holder)
    {
      if name in rows && rows[name].holder == holder {
        rows := rows - {name};
      }
    }
  }

  // ---- runs: acquires, releases and the clock, interleaved at will ----

  datatype Event =
    | First(now: Time, name: Name, holder: Holder, ttl: int)
    | Second(now: Time, holder: Holder)
    | Free(now: Time, name: Name, holder: Holder)

  /** An acquire that answered its holder token, not released since. */
  datatype Grant = Grant(name: Name, holder: Holder, until: Time)

  datatype Request = Request(name: Name, ttl: int)

  datatype World = World(
    rows: Table,
    waiting: map<Holder, Request>,
    minted: set<Holder>,
    grants: set<Grant>,
    clock: Time
  )

  const GENESIS := World(map[], map[], {}, {}, 0)

  /** Holder tokens are 16 random bytes, never minted twice; the second transaction follows a first that took
      nothing. */
  predicate Legal(w: World, e: Event) {
    && w.clock <= e.now
    && (e.First? ==> e.holder !in w.minted)
    && (e.Second? ==> e.holder in w.waiting)
  }

  function Next(w: World, e: Event): World
    requires Legal(w, e)
  {
    match e
    case First(now, name, holder, ttl) =>
      var r := TakeOver(w.rows, now, name, holder, ttl);
      if r.1 then World(r.0, w.waiting, w.minted + {holder}, w.grants + {Grant(name, holder, now + ttl * SECOND)}, now)
      else World(r.0, w.waiting[holder := Request(name, ttl)], w.minted + {holder}, w.grants, now)
    case Second(now, holder) =>
      var Request(name, ttl) := w.waiting[holder];
      var r := InsertNew(w.rows, now, name, holder, ttl);
      World(r.0, w.waiting - {holder}, w.minted,
            if r.1 then w.grants + {Grant(name, holder, now + ttl * SECOND)} else w.grants, now)
    case Free(now, name, holder) =>
      World(Release(w.rows, name, holder), w.waiting, w.minted,
            (set g | g in w.grants && !(g.name == name && g.holder == holder)), now)
  }

  predicate LegalRun(w: World, run: seq<Event>)
    decreases |run|
  {
    run == [] || (Legal(w, run[0]) && LegalRun(Next(w, run[0]), run[1..]))
  }

  function After(w: World, run: seq<Event>): World
    requires LegalRun(w, run)
    decreases |run|
  {
    if run == [] then w else After(Next(w, run[0]), run[1..])
  }

  ghost predicate Inv(w: World) {
    && (forall g | g in w.grants && g.until > w.clock :: g.name in w.rows && w.rows[g.name] == Row(g.holder, g.until))
    && (forall g | g in w.grants :: g.holder in w.minted && g.holder !in w.waiting)
    && (forall n | n in w.rows :: Grant(n, w.rows[n].holder, w.rows[n].expires) in w.grants)
    && (forall h | h in w.waiting :: h in w.minted)
    && (forall g, g' | g in w.grants && g' in w.grants && g.holder == g'.holder :: g == g')
  }

  lemma FirstKeepsInv(w: World, e: Event)
    requires Inv(w) && Legal(w, e) && e.First?
    ensures Inv(Next(w, e))
  {
  }

  lemma SecondKeepsInv(w: World, e: Event)
    requires Inv(w) && Legal(w, e) && e.Second?
    ensures Inv(Next(w, e))
  {
  }

  lemma FreeKeepsInv(w: World, e: Event)
    requires Inv(w) && Legal(w, e) && e.Free?
    ensures Inv(Next(w, e))
  {
  }

  lemma StepKeepsInv(w: World, e: Event)
    requires Inv(w) && Legal(w, e)
    ensures Inv(Next(w, e))
  {
    match e
    case First(_, _, _, _) => FirstKeepsInv(w, e);
    case Second(_, _) => SecondKeepsInv(w, e);
    case Free(_, _, _) => FreeKeepsInv(w, e);
  }

  lemma {:induction false} RunKeepsInv(w: World, run: seq<Event>)
    requires Inv(w) && LegalRun(w, run)
    ensures Inv(After(w, run))
    decreases |run|
  {
    if run != [] {
      StepKeepsInv(w, run[0]);
      RunKeepsInv(Next(w, run[0]), run[1..]);
    }
  }

  /** Two unreleased holders of one name are never both inside their ttl, in any interleaving. */
  lemma MutualExclusion(run: seq<Event>, g: Grant, g': Grant)
    requires LegalRun(GENESIS, run)
    requires var w := After(GENESIS, run);
      g in w.grants && g' in w.grants && g.name == g'.name && g.until > w.clock && g'.until > w.clock
    ensures g == g'
  {
    RunKeepsInv(GENESIS, run);
  }

  /** A release, by a former holder or anyone, touches no lease but the one it names: a lease taken by somebody
      else stays granted and, inside its ttl, keeps its row. */
  lemma ReleaseKeepsOthers(run: seq<Event>, e: Event, g: Grant)
    requires LegalRun(GENESIS, run) && e.Free?
    requires var w := After(GENESIS, run); Legal(w, e) && g in w.grants && g.holder != e.holder
    ensures g in Next(After(GENESIS, run), e).grants
    ensures var w' := Next(After(GENESIS, run), e);
      g.until > e.now ==> g.name in w'.rows && w'.rows[g.name] == Row(g.holder, g.until)
  {
    RunKeepsInv(GENESIS, run);
    StepKeepsInv(After(GENESIS, run), e);
  }

  /** An acquire with nothing in between: the first transaction, and after one that took nothing the second. */
  function Acquire(w: World, now: Time, later: Time, name: Name, holder: Holder, ttl: int): World
    requires w.clock <= now <= later && holder !in w.minted
  {
    var w1 := Next(w, First(now, name, holder, ttl));
    if holder in w1.waiting then Next(w1, Second(later, holder)) else w1
  }

  predicate Unheld(w: World, now: Time, name: Name) {
    forall g | g in w.grants && g.name == name :: g.until <= now
  }

  /** The row, or its absence, says whether anybody is inside the ttl. */
  lemma RowTells(w: World, now: Time, name: Name)
    requires Inv(w) && w.clock <= now
    ensures Unheld(w, now, name) <==> name !in w.rows || w.rows[name].expires <= now
  {
    if name in w.rows {
      assert Grant(name, w.rows[name].holder, w.rows[name].expires) in w.grants;
    }
  }

  lemma AcquireGrants(w: World, now: Time, later: Time, name: Name, holder: Holder, ttl: int)
    requires Inv(w) && w.clock <= now <= later && holder !in w.minted
    ensures var w' := Acquire(w, now, later, name, holder, ttl);
      if name !in w.rows || w.rows[name].expires <= now then
        w'.grants == w.grants + {Grant(name, holder, (if name in w.rows then now else later) + ttl * SECOND)}
      else w'.grants == w.grants && w'.rows == w.rows
    ensures holder !in Acquire(w, now, later, name, holder, ttl).waiting
  {
  }

  /** Where the acquire of a name gets to, told by the grants alone: it is granted exactly when no unreleased grant of
      the name is inside its ttl; the row of one that ran out is taken over by the first transaction, a missing row
      inserted by the second. */
  lemma AcquireIsExact(run: seq<Event>, now: Time, later: Time, name: Name, holder: Holder, ttl: int)
    requires LegalRun(GENESIS, run)
    requires After(GENESIS, run).clock <= now <= later && holder !in After(GENESIS, run).minted
    ensures var w := After(GENESIS, run); var w' := Acquire(w, now, later, name, holder, ttl);
      && (Unheld(w, now, name) <==> exists g :: g in w'.grants && g.holder == holder)
      && (if Unheld(w, now, name) then
            w'.grants == w.grants + {Grant(name, holder, (if name in w.rows then now else later) + ttl * SECOND)}
          else w'.grants == w.grants && w'.rows == w.rows)
      && holder !in w'.waiting
  {
    RunKeepsInv(GENESIS, run);
    var w := After(GENESIS, run);
    RowTells(w, now, name);
    AcquireGrants(w, now, later, name, holder, ttl);
    var at := (if name in w.rows then now else later) + ttl * SECOND;
    if Unheld(w, now, name) {
      assert Grant(name, holder, at) in Acquire(w, now, later, name, holder, ttl).grants;
    }
  }

  /** So a lease whose holder never released it can be had from the instant its ttl is over, not before. */
  lemma CrashedLeaseIsFreeAfterItsTtl(run: seq<Event>, g: Grant, now: Time, later: Time, holder: Holder, ttl: int)
    requires LegalRun(GENESIS, run)
    requires var w := After(GENESIS, run);
      g in w.grants && g.until > w.clock && w.clock <= now <= later && holder !in w.minted
    ensures var w' := Acquire(After(GENESIS, run), now, later, g.name, holder, ttl);
      (exists h :: h in w'.grants && h.holder == holder) <==> g.until <= now
  {
    RunKeepsInv(GENESIS, run);
    AcquireIsExact(run, now, later, g.name, holder, ttl);
    var w := After(GENESIS, run);
    if g.until <= now {
      forall h | h in w.grants && h.name == g.name ensures h.until <= now {
        if h.until > now { MutualExclusion(run, g, h); }
      }
    }
  }

  /** A new grant appears only when no other unreleased holder of the name is inside its ttl. A name with no row
      is granted by the second transaction. */
  lemma GrantedOnlyWhenFree(run: seq<Event>, e: Event, g: Grant)
    requires LegalRun(GENESIS, run) && Legal(After(GENESIS, run), e)
    requires var w := After(GENESIS, run); g in Next(w, e).grants && g !in w.grants
    ensures var w := After(GENESIS, run);
      forall h | h in w.grants && h.name == g.name :: h.until <= e.now
  {
    RunKeepsInv(GENESIS, run);
  }

  /** Taken at once when expired, by insert when there is no row; an acquire is refused only while some unreleased
      grant of the name has its row in the table. */
  lemma RefusedOnlyWhenHeld(run: seq<Event>, e: Event)
    requires LegalRun(GENESIS, run) && Legal(After(GENESIS, run), e) && e.Second?
    ensures var w := After(GENESIS, run); var name := w.waiting[e.holder].name;
      (forall g | g in Next(w, e).grants :: g.holder != e.holder) <==>
      exists g :: g in w.grants && g.name == name && name in w.rows && w.rows[name] == Row(g.holder, g.until)
  {
    RunKeepsInv(GENESIS, run);
    var w := After(GENESIS, run);
    var name := w.waiting[e.holder].name;
    if name in w.rows {
      assert Grant(name, w.rows[name].holder, w.rows[name].expires) in w.grants;
    } else {
      assert exists g :: g in Next(w, e).grants && g.holder == e.holder by {
        assert Grant(name, e.holder, e.now + w.waiting[e.holder].ttl * SECOND) in Next(w, e).grants;
      }
    }
  }
}
