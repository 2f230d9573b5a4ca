/**
 Fixed-window counters: an upsert whose assignments are ordered, a read of the count, and a purge of rows that
 expired over a minute before the caller's clock. Clocks of different processes may disagree by up to that minute.
 */
module RateLimit {
  type Time = real
  type Key = string

  const PURGE_MARGIN: Time := 60.0
  const PURGE_BATCH := 100

  /** A row of rate_limits, by the hash of its key. */
  datatype Row = Row(hits: int, expires: Time)
  type Table = map<Key, Row>

  // ---- the upsert ----

  /** SQLite: both new values are computed from the old row. */
  function Simultaneous(row: Row, now: Time, expiry: Time, amount: int): Row {
    if row.expires <= now then Row(amount, now + expiry) else Row(row.hits + amount, row.expires)
  }

  function AssignHits(row: Row, now: Time, amount: int): Row {
    row.(hits := if row.expires <= now then amount else row.hits + amount)
  }

  function AssignExpires(row: Row, now: Time, expiry: Time): Row {
    row.(expires := if row.expires <= now then now + expiry else row.expires)
  }

  /** MySQL assigns left to right, each assignment reading what the previous one left: hits first is the simultaneous
      upsert, on every row; expiry first is not, exactly when it renews the window of a row that had hits. */
  lemma AssignmentOrderMatters(row: Row, now: Time, expiry: Time, amount: int)
    ensures AssignExpires(AssignHits(row, now, amount), now, expiry) == Simultaneous(row, now, expiry, amount)
    ensures AssignHits(AssignExpires(row, now, expiry), now, amount) == Simultaneous(row, now, expiry, amount)
      <==> !(row.expires <= now && expiry > 0.0 && row.hits != 0)
  {
  }

  function Upsert(t: Table, now: Time, key: Key, expiry: Time, amount: int): Table {
    t[key := if key in t then Simultaneous(t[key], now, expiry, amount) else Row(amount, now + expiry)]
  }

  predicate Purgeable(t: Table, now: Time, stale: set<Key>) {
    |stale| <= PURGE_BATCH && forall k | k in stale :: k in t && t[k].expires < now - PURGE_MARGIN
  }

  function Count(t: Table, now: Time, key: Key): int {
    if key in t && t[key].expires > now then t[key].hits else 0
  }

  class Store {
    var rows: Table

    constructor ()
      ensures rows == map[]
    {
      rows := map[];
    }

    method UpsertMySql(now: Time, key: Key, expiry: Time, amount: int)
      modifies this
      ensures rows == Upsert(old(rows), now, key, expiry, amount)
    {
      if key in rows {
        rows := rows[key := AssignHits(rows[key], now, amount)];
        rows := rows[key := AssignExpires(rows[key], now, expiry)];
      } else {
        rows := rows[key := Row(amount, now + expiry)];
      }
    }

    /** One transaction; `stale` is what the purge query answers after the upsert. */
    method Hit(now: Time, key: Key, expiry: Time, amount: int, stale: set<Key>) returns (count: int)
      requires Purgeable(Upsert(rows, now, key, expiry, amount), now, stale)
      modifies this
      ensures rows == Upsert(old(rows), now, key, expiry, amount) - stale
      ensures count == Upsert(old(rows), now, key, expiry, amount)[key].hits
      ensures expiry >= -PURGE_MARGIN ==> key in rows && rows[key].hits == count
    {
      UpsertMySql(now, key, expiry, amount);
      count := rows[key].hits;
      if stale != {} {
        rows := rows - stale;
      }
    }

    method Get(now: Time, key: Key) returns (count: int)
      ensures count == Count(rows, now, key)
    {
      if key in rows && rows[key].expires > now {
        return rows[key].hits;
      }
      return 0;
    }
  }

  // ---- the simple model: keep every hit, count the current window ----

  datatype Hit = Hit(now: Time, expiry: Time, amount: int)

  /** The hit that opened the window in force after the last hit of `h`. */
  function Opener(h: seq<Hit>): (i: nat)
    requires h != []
    ensures i < |h|
    decreases |h|, 0
  {
    var n := |h| - 1;
    if n == 0 || WindowEnd(h[..n]) <= h[n].now then n else Opener(h[..n])
  }

  function WindowEnd(h: seq<Hit>): Time
    requires h != []
    decreases |h|, 1
  {
    h[Opener(h)].now + h[Opener(h)].expiry
  }

  function Total(h: seq<Hit>): int {
    if h == [] then 0 else Total(h[..|h| - 1]) + h[|h| - 1].amount
  }

  function WindowCount(h: seq<Hit>): int
    requires h != []
  {
    Total(h[Opener(h)..])
  }

  lemma TotalAppends(h: seq<Hit>, e: Hit)
    ensures Total(h + [e]) == Total(h) + e.amount
  {
    assert (h + [e])[..|h|] == h;
  }

  /** One more hit opens a window when the last one is over, and otherwise counts in it. */
  lemma NextHit(h: seq<Hit>, e: Hit)
    ensures if h == [] || WindowEnd(h) <= e.now
      then WindowCount(h + [e]) == e.amount && WindowEnd(h + [e]) == e.now + e.expiry
      else WindowCount(h + [e]) == WindowCount(h) + e.amount && WindowEnd(h + [e]) == WindowEnd(h)
  {
    var h' := h + [e];
    assert h'[..|h|] == h;
    if h == [] || WindowEnd(h) <= e.now {
      assert Opener(h') == |h|;
      assert h'[|h|..] == [e];
      assert Total([]) + e.amount == Total([e]) by { TotalAppends([], e); assert [] + [e] == [e]; }
    } else {
      assert Opener(h') == Opener(h);
      assert h'[Opener(h)..] == h[Opener(h)..] + [e];
      TotalAppends(h[Opener(h)..], e);
    }
  }

  // ---- runs: hits on all keys, reads and purges, on clocks at most a minute apart ----

  datatype Event =
    | HitAt(now: Time, key: Key, expiry: Time, amount: int, stale: set<Key>)
    | GetAt(now: Time, key: Key)

  /** The rows, every hit ever made with the count it returned, and the latest clock seen. */
  datatype World = World(rows: Table, log: map<Key, seq<Hit>>, counts: map<Key, seq<int>>, latest: Time)

  const GENESIS := World(map[], map[], map[], 0.0)

  function LogOf(w: World, key: Key): seq<Hit> {
    if key in w.log then w.log[key] else []
  }

  function CountsOf(w: World, key: Key): seq<int> {
    if key in w.counts then w.counts[key] else []
  }

  ghost predicate Legal(w: World, e: Event) {
    && w.latest - PURGE_MARGIN <= e.now
    && (e.HitAt? ==> Purgeable(Upsert(w.rows, e.now, e.key, e.expiry, e.amount), e.now, e.stale))
  }

  function Reply(w: World, e: Event): int {
    if e.HitAt? then Upsert(w.rows, e.now, e.key, e.expiry, e.amount)[e.key].hits else Count(w.rows, e.now, e.key)
  }

  function Next(w: World, e: Event): World {
    var latest := if e.now > w.latest then e.now else w.latest;
    if e.GetAt? then w.(latest := latest)
    else World(Upsert(w.rows, e.now, e.key, e.expiry, e.amount) - e.stale,
               w.log[e.key := LogOf(w, e.key) + [Hit(e.now, e.expiry, e.amount)]],
               w.counts[e.key := CountsOf(w, e.key) + [Reply(w, e)]],
               latest)
  }

  ghost predicate LegalRun(w: World, run: seq<Event>)
    decreases |run|
  {
    run == [] || (Legal(w, run[0]) && LegalRun(Next(w, run[0]), run[1..]))
  }

  function After(w: World, run: seq<Event>): World
    decreases |run|
  {
    if run == [] then w else After(Next(w, run[0]), run[1..])
  }

  /** A key's row is the current window of its full history; a missing row's window ended over a minute before the
      latest clock, so it is over for every caller still to come. */
  ghost predicate RowOk(w: World, key: Key) {
    var h := LogOf(w, key);
    if key in w.rows then h != [] && w.rows[key] == Row(WindowCount(h), WindowEnd(h))
    else h == [] || WindowEnd(h) < w.latest - PURGE_MARGIN
  }

  ghost predicate CountsOk(w: World, key: Key) {
    |CountsOf(w, key)| == |LogOf(w, key)|
    && forall i | 0 <= i < |LogOf(w, key)| :: CountsOf(w, key)[i] == WindowCount(LogOf(w, key)[..i + 1])
  }

  ghost predicate Inv(w: World) {
    forall key :: RowOk(w, key) && CountsOk(w, key)
  }

  /** A hit returns the count of the current window over the whole history; a read returns it while the window lasts. */
  lemma HitCountsTheWindow(w: World, e: Event)
    requires Inv(w) && Legal(w, e) && e.HitAt?
    ensures Reply(w, e) == WindowCount(LogOf(w, e.key) + [Hit(e.now, e.expiry, e.amount)])
    ensures Upsert(w.rows, e.now, e.key, e.expiry, e.amount)[e.key].expires
         == WindowEnd(LogOf(w, e.key) + [Hit(e.now, e.expiry, e.amount)])
  {
    assert RowOk(w, e.key);
    NextHit(LogOf(w, e.key), Hit(e.now, e.expiry, e.amount));
  }

  lemma HitIsRecorded(w: World, e: Event)
    requires e.HitAt?
    ensures LogOf(Next(w, e), e.key) == LogOf(w, e.key) + [Hit(e.now, e.expiry, e.amount)]
    ensures CountsOf(Next(w, e), e.key) == CountsOf(w, e.key) + [Reply(w, e)]
  {
  }

  lemma HitKeepsRow(w: World, e: Event)
    requires Inv(w) && Legal(w, e) && e.HitAt?
    ensures RowOk(Next(w, e), e.key)
  {
    HitIsRecorded(w, e);
    HitCountsTheWindow(w, e);
  }

  lemma CountsGrow(h: seq<Hit>, counts: seq<int>, new_: Hit, count: int)
    requires |counts| == |h| && forall i | 0 <= i < |h| :: counts[i] == WindowCount(h[..i + 1])
    requires count == WindowCount(h + [new_])
    ensures forall i | 0 <= i < |h| + 1 :: (counts + [count])[i] == WindowCount((h + [new_])[..i + 1])
  {
    forall i | 0 <= i < |h| + 1 ensures (counts + [count])[i] == WindowCount((h + [new_])[..i + 1]) {
      if i < |h| { assert (h + [new_])[..i + 1] == h[..i + 1]; } else { assert (h + [new_])[..i + 1] == h + [new_]; }
    }
  }

  lemma HitKeepsCounts(w: World, e: Event)
    requires Inv(w) && Legal(w, e) && e.HitAt?
    ensures CountsOk(Next(w, e), e.key)
  {
    assert CountsOk(w, e.key);
    HitIsRecorded(w, e);
    HitCountsTheWindow(w, e);
    CountsGrow(LogOf(w, e.key), CountsOf(w, e.key), Hit(e.now, e.expiry, e.amount), Reply(w, e));
  }

  lemma StepKeepsOtherKeys(w: World, e: Event, key: Key)
    requires RowOk(w, key) && CountsOk(w, key) && Legal(w, e) && (e.HitAt? ==> key != e.key)
    ensures RowOk(Next(w, e), key) && CountsOk(Next(w, e), key)
  {
    assert LogOf(Next(w, e), key) == LogOf(w, key) && CountsOf(Next(w, e), key) == CountsOf(w, key);
  }

  lemma StepKeepsInv(w: World, e: Event)
    requires Inv(w) && Legal(w, e)
    ensures Inv(Next(w, e))
  {
    forall key ensures RowOk(Next(w, e), key) && CountsOk(Next(w, e), key) {
      assert RowOk(w, key) && CountsOk(w, key);
      if e.HitAt? && key == e.key {
        HitKeepsRow(w, e);
        HitKeepsCounts(w, e);
      } else {
        StepKeepsOtherKeys(w, e, key);
      }
    }
  }

  lemma {:induction false} RunKeepsInv(w: World, run: seq<Event>)
    requires Inv(w) && LegalRun(w, run)
    ensures Inv(After(w, run))
    decreases |run|
  {
    if run != [] {
      StepKeepsInv(w, run[0]);
      RunKeepsInv(Next(w, run[0]), run[1..]);
    }
  }

  /** In every run, the table answers like the model that keeps every hit and never purges. */
  lemma TableRefinesHistory(run: seq<Event>, e: Event)
    requires LegalRun(GENESIS, run) && Legal(After(GENESIS, run), e)
    ensures var w := After(GENESIS, run); var h := LogOf(w, e.key);
      Reply(w, e) ==
        if e.HitAt? then WindowCount(h + [Hit(e.now, e.expiry, e.amount)])
        else if h == [] || WindowEnd(h) <= e.now then 0 else WindowCount(h)
  {
    RunKeepsInv(GENESIS, run);
    var w := After(GENESIS, run);
    assert RowOk(w, e.key);
    if e.HitAt? { HitCountsTheWindow(w, e); }
  }

  /** A purge never removes the row just hit, and changes no count for a caller up to a minute behind it. */
  lemma PurgeIsUnseen(t: Table, now: Time, stale: set<Key>, later: Time, key: Key, expiry: Time, amount: int)
    requires Purgeable(t, now, stale) && later >= now - PURGE_MARGIN
    ensures Count(t - stale, later, key) == Count(t, later, key)
    ensures Upsert(t - stale, later, key, expiry, amount)[key] == Upsert(t, later, key, expiry, amount)[key]
    ensures forall before: Table ::
      t == Upsert(before, now, key, expiry, amount) && expiry >= -PURGE_MARGIN ==> key !in stale
  {
  }

  // ---- how many hits get through in any interval as long as the window ----

  /** Hits of one limiter: each counts at least one, all windows are equally long, the clock does not go back. */
  ghost predicate Steady(h: seq<Hit>, expiry: Time) {
    && expiry > 0.0
    && (forall i | 0 <= i < |h| :: h[i].amount >= 1 && h[i].expiry == expiry)
    && (forall i, j | 0 <= i <= j < |h| :: h[i].now <= h[j].now)
  }

  function OpenerAt(h: seq<Hit>, i: nat): (o: nat)
    requires i < |h|
    ensures o <= i
  {
    Opener(h[..i + 1])
  }

  lemma {:induction false} TotalAtLeast(h: seq<Hit>)
    requires forall i | 0 <= i < |h| :: h[i].amount >= 1
    ensures Total(h) >= |h|
    ensures (forall i | 0 <= i < |h| :: h[i].amount == 1) ==> Total(h) == |h|
  {
    if h != [] { TotalAtLeast(h[..|h| - 1]); }
  }

  lemma OpenerStep(h: seq<Hit>, i: nat)
    requires 0 < i < |h|
    ensures h[..i + 1][..i] == h[..i]
    ensures OpenerAt(h, i) ==
      if h[OpenerAt(h, i - 1)].now + h[OpenerAt(h, i - 1)].expiry <= h[i].now then i else OpenerAt(h, i - 1)
  {
    assert h[..i + 1][..i] == h[..i];
    assert h[..(i - 1) + 1] == h[..i];
    assert WindowEnd(h[..i]) == h[OpenerAt(h, i - 1)].now + h[OpenerAt(h, i - 1)].expiry;
  }

  /** A count is at least the hit's place in its window, and just that when every hit counts one. */
  lemma CountIsPosition(h: seq<Hit>, expiry: Time, i: nat)
    requires Steady(h, expiry) && i < |h|
    ensures WindowCount(h[..i + 1]) >= i - OpenerAt(h, i) + 1
    ensures (forall k | 0 <= k < |h| :: h[k].amount == 1) ==> WindowCount(h[..i + 1]) == i - OpenerAt(h, i) + 1
  {
    TotalAtLeast(h[..i + 1][OpenerAt(h, i)..]);
  }

  lemma {:induction false} InsideOwnWindow(h: seq<Hit>, expiry: Time, i: nat)
    requires Steady(h, expiry) && i < |h|
    ensures h[i].now < h[OpenerAt(h, i)].now + expiry
  {
    if i > 0 { OpenerStep(h, i); }
  }

  /** A later window opens after the earlier hit, and a full length after the earlier window. */
  lemma {:induction false} WindowsApart(h: seq<Hit>, expiry: Time, i: nat, j: nat)
    requires Steady(h, expiry) && i <= j < |h|
    ensures OpenerAt(h, j) == OpenerAt(h, i)
      || (h[OpenerAt(h, j)].now >= h[OpenerAt(h, i)].now + expiry && h[OpenerAt(h, j)].now > h[i].now)
  {
    if i < j {
      WindowsApart(h, expiry, i, j - 1);
      OpenerStep(h, j);
      InsideOwnWindow(h, expiry, i);
    }
  }

  /** An interval as long as the window, ends included, meets at most two windows. */
  lemma NoThirdWindow(h: seq<Hit>, expiry: Time, from: Time, i: nat, j: nat, k: nat)
    requires Steady(h, expiry) && i <= j <= k < |h|
    requires from <= h[i].now && h[k].now <= from + expiry
    ensures OpenerAt(h, j) == OpenerAt(h, i) || OpenerAt(h, k) == OpenerAt(h, j)
  {
    WindowsApart(h, expiry, i, j);
    WindowsApart(h, expiry, j, k);
  }

  function Range(lo: int, n: nat): (r: set<int>)
    ensures forall x :: x in r <==> lo <= x < lo + n
    ensures |r| == n
  {
    if n == 0 then {} else Range(lo, n - 1) + {lo + n - 1}
  }

  lemma SubsetSize<T>(a: set<T>, b: set<T>)
    requires a <= b
    ensures |a| <= |b|
  {
    assert b == a + (b - a);
  }

  /** The hits of `h` in [from, from + expiry] whose count was within the limit. */
  ghost function Admitted(h: seq<Hit>, counts: seq<int>, from: Time, expiry: Time, limit: int): set<int>
    requires |counts| == |h|
  {
    set i | 0 <= i < |h| && from <= h[i].now <= from + expiry && counts[i] <= limit
  }

  lemma AdmittedInTwoWindows(h: seq<Hit>, counts: seq<int>, expiry: Time, from: Time, limit: nat)
    returns (a: int, b: int)
    requires Steady(h, expiry) && |counts| == |h|
    requires forall i | 0 <= i < |h| :: counts[i] == WindowCount(h[..i + 1])
    ensures Admitted(h, counts, from, expiry, limit) <= Range(a, limit) + Range(b, limit)
  {
    var s := Admitted(h, counts, from, expiry, limit);
    forall i | i in s ensures OpenerAt(h, i) <= i < OpenerAt(h, i) + limit {
      CountIsPosition(h, expiry, i);
    }
    a, b := 0, 0;
    if i :| i in s {
      a, b := OpenerAt(h, i), OpenerAt(h, i);
      if j :| j in s && OpenerAt(h, j) != a {
        b := OpenerAt(h, j);
        forall k | k in s ensures OpenerAt(h, k) == a || OpenerAt(h, k) == b {
          AmongTwo(h, expiry, from, i, j, k);
        }
      }
    }
  }

  lemma AmongTwo(h: seq<Hit>, expiry: Time, from: Time, i: nat, j: nat, k: nat)
    requires Steady(h, expiry) && i < |h| && j < |h| && k < |h|
    requires forall x | x in {i, j, k} :: from <= h[x].now <= from + expiry
    requires OpenerAt(h, i) != OpenerAt(h, j)
    ensures OpenerAt(h, k) == OpenerAt(h, i) || OpenerAt(h, k) == OpenerAt(h, j)
  {
    var a, b := if i < j then i else j, if i < j then j else i;
    if k <= a { NoThirdWindow(h, expiry, from, k, a, b); }
    else if k <= b { NoThirdWindow(h, expiry, from, a, k, b); }
    else { NoThirdWindow(h, expiry, from, a, b, k); }
  }

  /** In any interval as long as the window, at most 2 L hits of one key return a count of L or less, whatever hits
      on other keys, reads and purges ran in between. */
  lemma AtMostTwiceTheLimit(run: seq<Event>, key: Key, expiry: Time, from: Time, limit: nat)
    requires LegalRun(GENESIS, run)
    requires Steady(LogOf(After(GENESIS, run), key), expiry)
    ensures var w := After(GENESIS, run); |CountsOf(w, key)| == |LogOf(w, key)|
    ensures var w := After(GENESIS, run);
      |Admitted(LogOf(w, key), CountsOf(w, key), from, expiry, limit)| <= 2 * limit
  {
    RunKeepsInv(GENESIS, run);
    var w := After(GENESIS, run);
    var h, counts := LogOf(w, key), CountsOf(w, key);
    assert CountsOk(w, key);
    var a, b := AdmittedInTwoWindows(h, counts, expiry, from, limit);
    SubsetSize(Admitted(h, counts, from, expiry, limit), Range(a, limit) + Range(b, limit));
  }

  // ---- the bound is reached ----

  /** `limit` hits as a window opens, and as many as it ends. */
  function Burst(limit: nat, expiry: Time): (h: seq<Hit>)
    ensures |h| == 2 * limit
  {
    seq(2 * limit, i => Hit(if i < limit then 0.0 else expiry, expiry, 1))
  }

  /** The hits of one key as a run in which nothing is stale. */
  function HitsOf(key: Key, h: seq<Hit>): seq<Event> {
    if h == [] then [] else [HitAt(h[0].now, key, h[0].expiry, h[0].amount, {})] + HitsOf(key, h[1..])
  }

  ghost predicate NoEarlier(w: World, h: seq<Hit>) {
    && (forall i | 0 <= i < |h| :: h[i].now >= w.latest)
    && (forall i, j | 0 <= i <= j < |h| :: h[i].now <= h[j].now)
  }

  lemma NoEarlierRest(w: World, h: seq<Hit>, w': World)
    requires NoEarlier(w, h) && h != [] && w'.latest == h[0].now
    ensures NoEarlier(w', h[1..])
  {
  }

  lemma {:induction false} RunOfHits(w: World, key: Key, h: seq<Hit>)
    requires NoEarlier(w, h)
    ensures LegalRun(w, HitsOf(key, h)) && LogOf(After(w, HitsOf(key, h)), key) == LogOf(w, key) + h
    decreases |h|
  {
    if h == [] {
      assert LogOf(w, key) + h == LogOf(w, key);
    } else {
      var w1 := AfterHit(w, key, h[0]);
      NoEarlierRest(w, h, w1);
      RunOfHits(w1, key, h[1..]);
      OneMoreHit(w, key, h);
      FirstMoved(LogOf(w, key), h);
    }
  }

  function AfterHit(w: World, key: Key, hit: Hit): World {
    Next(w, HitAt(hit.now, key, hit.expiry, hit.amount, {}))
  }

  lemma FirstMoved(log: seq<Hit>, h: seq<Hit>)
    requires h != []
    ensures log + [h[0]] + h[1..] == log + h
  {
  }

  lemma OneMoreHit(w: World, key: Key, h: seq<Hit>)
    requires h != [] && NoEarlier(w, h) && LegalRun(AfterHit(w, key, h[0]), HitsOf(key, h[1..]))
    ensures LegalRun(w, HitsOf(key, h))
    ensures After(w, HitsOf(key, h)) == After(AfterHit(w, key, h[0]), HitsOf(key, h[1..]))
    ensures LogOf(AfterHit(w, key, h[0]), key) == LogOf(w, key) + [h[0]]
  {
    var e := HitAt(h[0].now, key, h[0].expiry, h[0].amount, {});
    NothingStale(w, e);
    HitIsRecorded(w, e);
    OneMoreEvent(w, e, HitsOf(key, h[1..]));
  }

  lemma OneMoreEvent(w: World, e: Event, run: seq<Event>)
    requires Legal(w, e) && LegalRun(Next(w, e), run)
    ensures LegalRun(w, [e] + run) && After(w, [e] + run) == After(Next(w, e), run)
  {
    assert ([e] + run)[1..] == run;
  }

  lemma NothingStale(w: World, e: Event)
    requires e.HitAt? && e.stale == {} && e.now >= w.latest
    ensures Legal(w, e) && Next(w, e).latest == e.now
  {
  }

  lemma BurstIsSteady(limit: nat, expiry: Time)
    requires expiry > 0.0
    ensures Steady(Burst(limit, expiry), expiry)
  {
  }

  lemma {:induction false} OpenersOfBurst(limit: nat, expiry: Time, i: nat)
    requires expiry > 0.0 && i < 2 * limit
    ensures OpenerAt(Burst(limit, expiry), i) == if i < limit then 0 else limit
  {
    var h := Burst(limit, expiry);
    if i == 0 {
      assert |h[..1]| == 1;
    } else {
      OpenersOfBurst(limit, expiry, i - 1);
      OpenerStep(h, i);
    }
  }

  lemma BurstIsAdmitted(limit: nat, expiry: Time, i: nat)
    requires expiry > 0.0 && i < 2 * limit
    ensures 1 <= WindowCount(Burst(limit, expiry)[..i + 1]) <= limit
  {
    BurstIsSteady(limit, expiry);
    OpenersOfBurst(limit, expiry, i);
    CountIsPosition(Burst(limit, expiry), expiry, i);
  }

  /** For every limit and window: a run of 2 L hits, L as a window opens and L as it ends, all of which are admitted in
      the interval of one window's length. */
  lemma TwiceTheLimitHappens(key: Key, expiry: Time, limit: nat) returns (run: seq<Event>)
    requires expiry > 0.0
    ensures LegalRun(GENESIS, run) && Steady(LogOf(After(GENESIS, run), key), expiry)
    ensures var w := After(GENESIS, run);
      && |CountsOf(w, key)| == |LogOf(w, key)|
      && |Admitted(LogOf(w, key), CountsOf(w, key), 0.0, expiry, limit)| == 2 * limit
  {
    var h := Burst(limit, expiry);
    run := HitsOf(key, h);
    RunOfHits(GENESIS, key, h);
    assert [] + h == h;
    BurstIsSteady(limit, expiry);
    RunKeepsInv(GENESIS, run);
    assert CountsOk(After(GENESIS, run), key);
    AllAdmitted(CountsOf(After(GENESIS, run), key), expiry, limit);
  }

  lemma AllAdmitted(counts: seq<int>, expiry: Time, limit: nat)
    requires expiry > 0.0 && |counts| == 2 * limit
    requires forall i | 0 <= i < 2 * limit :: counts[i] == WindowCount(Burst(limit, expiry)[..i + 1])
    ensures |Admitted(Burst(limit, expiry), counts, 0.0, expiry, limit)| == 2 * limit
  {
    var h := Burst(limit, expiry);
    forall i | 0 <= i < 2 * limit ensures counts[i] <= limit {
      BurstIsAdmitted(limit, expiry, i);
    }
    assert Admitted(h, counts, 0.0, expiry, limit) == Range(0, 2 * limit);
  }
}
