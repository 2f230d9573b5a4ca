/** Single-use claims: a token recorded for its ttl, beside other claims and purges of stale rows. */
module UsedTokens {
  import opened Instants

  const PURGE_MARGIN: Time := 60 * SECOND
  const PURGE_BATCH := 100

  datatype Key = Key(scope: string, token: string)

  /** Rows of used_tokens: key to expiry. */
  type Table = map<Key, Time>

  /** One transaction: delete the row if expired, insert; a duplicate key rolls both back. */
  function Claimed(u: Table, now: Time, key: Key, ttl: int): (Table, bool) {
    if key in u && u[key] > now then (u, false) else (u[key := now + ttl * SECOND], true)
  }

  predicate Purgeable(u: Table, now: Time, stale: set<Key>) {
    |stale| <= PURGE_BATCH && forall k | k in stale :: k in u && u[k] < now - PURGE_MARGIN
  }

  class Store {
    var rows: Table

    constructor ()
      ensures rows == map[]
    {
      rows := map[];
    }

    method Claim(now: Time, key: Key, ttl: int) returns (first: bool)
      modifies this
      ensures (rows, first) == Claimed(old(rows), now, key, ttl)
      ensures !first ==> rows == old(rows)
    {
      var before := rows;
      if key in rows && rows[key] <= now {
        rows := rows - {key};
      }
      if key in rows {
        rows := before;
        return false;
      }
      assert rows == before - {key};
      rows := rows[key := now + ttl * SECOND];
      assert rows == before[key := now + ttl * SECOND];
      return true;
    }

    method Purge(now: Time, stale: set<Key>)
      requires Purgeable(rows, now, stale)
      modifies this
      ensures rows == old(rows) - stale
    {
      var left := stale;
      while left != {}
        invariant left <= stale && rows == old(rows) - (stale - left)
        decreases |left|
      {
        var k :| k in left;
        rows := rows - {k};
        left := left - {k};
      }
    }
  }

  // ---- runs ----

  datatype Event = ClaimAt(now: Time, key: Key, ttl: int) | PurgeAt(now: Time, stale: set<Key>)

  datatype Success = Success(key: Key, until: Time)

  /** The rows, with every claim that ever returned True. */
  datatype World = World(rows: Table, successes: set<Success>, clock: Time)

  const GENESIS := World(map[], {}, 0)

  function Until(e: Event): Time
    requires e.ClaimAt?
  {
    e.now + e.ttl * SECOND
  }

  ghost predicate Legal(w: World, e: Event) {
    w.clock <= e.now && (e.PurgeAt? ==> Purgeable(w.rows, e.now, e.stale))
  }

  /** The answer to a claim; a purge answers False. */
  function Granted(w: World, e: Event): bool {
    e.ClaimAt? && Claimed(w.rows, e.now, e.key, e.ttl).1
  }

  function Next(w: World, e: Event): World {
    if e.PurgeAt? then World(w.rows - e.stale, w.successes, e.now)
    else if Granted(w, e) then
      World(Claimed(w.rows, e.now, e.key, e.ttl).0, w.successes + {Success(e.key, Until(e))}, e.now)
    else w.(clock := e.now)
  }

  ghost predicate LegalRun(w: World, run: seq<Event>)
    decreases |run|
  {
    run == [] || (Legal(w, run[0]) && LegalRun(Next(w, run[0]), run[1..]))
  }

  function Answers(w: World, run: seq<Event>): (r: seq<bool>)
    ensures |r| == |run|
    decreases |run|
  {
    if run == [] then [] else [Granted(w, run[0])] + Answers(Next(w, run[0]), run[1..])
  }

  /** A claim still inside its ttl has its row; every row is some claim's. */
  ghost predicate Inv(w: World) {
    && (forall s | s in w.successes && s.until > w.clock :: s.key in w.rows && w.rows[s.key] == s.until)
    && (forall k | k in w.rows :: Success(k, w.rows[k]) in w.successes)
  }

  lemma StepKeepsInv(w: World, e: Event)
    requires Inv(w) && Legal(w, e)
    ensures Inv(Next(w, e))
  {
    var w' := Next(w, e);
    forall s | s in w'.successes && s.until > w'.clock ensures s.key in w'.rows && w'.rows[s.key] == s.until {
      if s in w.successes { assert s.until > w.clock; }
    }
  }

  ghost predicate BlockedBy(e: Event, answer: bool, key: Key, now: Time) {
    e.ClaimAt? && e.key == key && answer && Until(e) > now
  }

  /** A claim returns True exactly when no earlier True claim of the same token is still inside its ttl, whatever
      other claims and purges ran in between. */
  lemma {:induction false} ClaimIsExact(w: World, run: seq<Event>, i: nat)
    requires Inv(w) && LegalRun(w, run) && i < |run| && run[i].ClaimAt?
    ensures Answers(w, run)[i] <==>
      && (forall s | s in w.successes && s.key == run[i].key :: s.until <= run[i].now)
      && (forall j | 0 <= j < i :: !BlockedBy(run[j], Answers(w, run)[j], run[i].key, run[i].now))
    decreases |run|
  {
    var w' := Next(w, run[0]);
    if i == 0 {
      forall s | s in w.successes && s.key == run[0].key && s.until > run[0].now
        ensures s.key in w.rows && w.rows[s.key] == s.until {}
    } else {
      StepKeepsInv(w, run[0]);
      ClaimIsExact(w', run[1..], i - 1);
      var answers := Answers(w, run);
      assert forall j | 0 <= j < |run| - 1 :: Answers(w', run[1..])[j] == answers[j + 1];
      if forall j | 0 <= j < i :: !BlockedBy(run[j], answers[j], run[i].key, run[i].now) {
        assert !BlockedBy(run[0], answers[0], run[i].key, run[i].now);
        forall j | 0 <= j < i - 1
          ensures !BlockedBy(run[1..][j], Answers(w', run[1..])[j], run[i].key, run[i].now)
        {
          assert !BlockedBy(run[j + 1], answers[j + 1], run[i].key, run[i].now);
        }
      }
      if answers[i] {
        forall j | 0 <= j < i ensures !BlockedBy(run[j], answers[j], run[i].key, run[i].now) {
          if j == 0 {
            assert answers[0] && run[0].ClaimAt? ==> Success(run[0].key, Until(run[0])) in w'.successes;
          } else {
            assert !BlockedBy(run[1..][j - 1], Answers(w', run[1..])[j - 1], run[i].key, run[i].now);
          }
        }
      }
    }
  }

  /** Between a True claim and the next claim past its ttl, every claim of the token is refused; that next one is
      granted. */
  lemma ReplayWindow(run: seq<Event>, i: nat, j: nat)
    requires LegalRun(GENESIS, run) && i < j < |run| && run[i].ClaimAt? && run[j].ClaimAt? && run[j].key == run[i].key
    requires Answers(GENESIS, run)[i]
    requires forall k | i < k < j && run[k].ClaimAt? && run[k].key == run[i].key :: run[k].now < Until(run[i])
    ensures Answers(GENESIS, run)[j] <==> Until(run[i]) <= run[j].now
  {
    var answers := Answers(GENESIS, run);
    ClaimIsExact(GENESIS, run, i);
    ClaimIsExact(GENESIS, run, j);
    ClockGoesOn(GENESIS, run, i, j);
    if Until(run[i]) > run[j].now {
      assert BlockedBy(run[i], answers[i], run[j].key, run[j].now);
    } else {
      forall k | 0 <= k < j ensures !BlockedBy(run[k], answers[k], run[j].key, run[j].now) {
        if k < i {
          assert !BlockedBy(run[k], answers[k], run[i].key, run[i].now);
        } else if i < k && run[k].ClaimAt? && run[k].key == run[i].key {
          ClaimIsExact(GENESIS, run, k);
          assert BlockedBy(run[i], answers[i], run[k].key, run[k].now);
        }
      }
    }
  }

  lemma {:induction false} ClockGoesOn(w: World, run: seq<Event>, i: nat, j: nat)
    requires LegalRun(w, run) && i <= j < |run|
    ensures w.clock <= run[i].now <= run[j].now
    decreases |run|
  {
    if i > 0 {
      ClockGoesOn(Next(w, run[0]), run[1..], i - 1, j - 1);
    } else if j > 0 {
      ClockGoesOn(Next(w, run[0]), run[1..], 0, j - 1);
    }
  }
}
