/** Runs that reach the states where eviction and grace do not do what one would expect. */
module SessionWitnesses {
  import opened Instants
  import opened SessionFamilies
  import opened SessionHistory
  import opened SessionSafety
  import opened SessionEviction

  /** As many different names as needed, told apart by their length. */
  function Name(n: nat): (s: string)
    ensures |s| == n
  {
    seq(n, _ => 'j')
  }

  lemma {:induction false} AfterMore(w: World, run: seq<Event>, e: Event)
    requires LegalRun(w, run) && Legal(After(w, run), e)
    ensures LegalRun(w, run + [e]) && After(w, run + [e]) == Next(After(w, run), e)
    decreases |run|
  {
    if run == [] {
      assert [] + [e] == [e] && [e][1..] == [];
    } else {
      AfterMore(Next(w, run[0]), run[1..], e);
      assert (run + [e])[1..] == run[1..] + [e];
    }
  }

  // ---- a thousand rotations within the grace window ----

  const SID: Sid := "s"
  const TTL := 3600

  function Chain(n: nat): seq<Entry> {
    if n == 0 then [Entry(Name(0), 0)] else Chain(n - 1) + [Entry(Name(n), 0)]
  }

  lemma {:induction false} OnChain(n: nat)
    ensures |Chain(n)| == n + 1
    ensures forall k | 0 <= k <= n :: Chain(n)[k] == Entry(Name(k), 0)
  {
    if n > 0 { OnChain(n - 1); }
  }

  /** A sign-in and `n` rotations, all at the instant 0. */
  ghost predicate Spun(w: World, n: nat) {
    && w.clock == 0 && Inv(w) && w.issued == map[SID := Chain(n)]
    && SID in w.store.families && w.store.families[SID] == Family(0, Name(n), n, TTL * SECOND)
  }

  function Spin(n: nat): Event {
    Event(0, DoRotate(Name(n), Name(n + 1), SID, 0, TTL))
  }

  lemma NotOnChain(n: nat)
    ensures NeverIssued(map[SID := Chain(n)], Name(n + 1))
  {
    OnChain(n);
  }

  lemma RotateGoesThrough(s: Store, now: Time, old_: Jti, new_: Jti, sid: Sid, user: int, ttl: int)
    requires Live(s, sid, now) && s.families[sid].user == user && s.families[sid].head == old_
    requires IsMemberOf(s, sid, old_)
    requires new_ !in s.members && !NumberTaken(s, sid, s.families[sid].rotations + 1)
    ensures Rotate(s, now, old_, new_, sid, user, ttl) == (Append(s, now, new_, sid, ttl), Rotated)
  {
  }

  lemma SpinSucceeds(w: World, n: nat)
    requires Spun(w, n)
    ensures NeverIssued(w.issued, Name(n + 1))
    ensures Rotate(w.store, 0, Name(n), Name(n + 1), SID, 0, TTL) ==
      (Append(w.store, 0, Name(n + 1), SID, TTL), Rotated)
  {
    HeadOnTop(w, SID);
    NotOnChain(n);
    NeverIssuedIsNoMember(w.store, w.issued, Name(n + 1));
    SuccessorNumberIsFree(w.store, w.issued, SID);
    RotateGoesThrough(w.store, 0, Name(n), Name(n + 1), SID, 0, TTL);
  }

  lemma SpinRecords(w: World, n: nat)
    requires Spun(w, n) && ReplyTo(w, Spin(n)) == RotateReplied(Rotated)
    ensures Next(w, Spin(n)).issued == map[SID := Chain(n + 1)]
  {
    Rebound(Chain(n), Chain(n + 1));
  }

  lemma Rebound(a: seq<Entry>, b: seq<Entry>)
    ensures map[SID := a][SID := b] == map[SID := b]
  {
  }

  lemma SpunOnce(w: World, n: nat)
    requires Spun(w, n)
    ensures Legal(w, Spin(n)) && Spun(Next(w, Spin(n)), n + 1)
  {
    SpinSucceeds(w, n);
    SpinRecords(w, n);
    StepKeepsInv(w, Spin(n));
  }

  const FIRST := Event(0, DoIssue(Name(0), SID, 0, TTL, []))

  lemma GenesisIsOk()
    ensures Inv(GENESIS) && Legal(GENESIS, FIRST)
  {
  }

  lemma SpunAtFirst()
    ensures Legal(GENESIS, FIRST) && Spun(Next(GENESIS, FIRST), 0)
  {
    GenesisIsOk();
    StepKeepsInv(GENESIS, FIRST);
    FirstIssues();
    FirstRecords();
  }

  lemma FirstRecords()
    ensures Next(GENESIS, FIRST).issued == map[SID := Chain(0)] && Next(GENESIS, FIRST).clock == 0
    ensures Next(GENESIS, FIRST).store == Issue(EMPTY, 0, Name(0), SID, 0, TTL, []).0
  {
    assert map[][SID := Chain(0)] == map[SID := Chain(0)];
  }

  lemma FirstIssues()
    ensures var r := Issue(EMPTY, 0, Name(0), SID, 0, TTL, []);
      && r.1 == Issued
      && SID in r.0.families && r.0.families[SID] == Family(0, Name(0), 0, TTL * SECOND)
  {
    assert Evicted([]) == {};
  }

  lemma {:induction false} SpunRun(n: nat) returns (run: seq<Event>)
    ensures LegalRun(GENESIS, run) && Spun(After(GENESIS, run), n)
  {
    if n == 0 {
      SpunAtFirst();
      AfterMore(GENESIS, [], FIRST);
      run := [] + [FIRST];
    } else {
      var shorter := SpunRun(n - 1);
      SpunOnce(After(GENESIS, shorter), n - 1);
      AfterMore(GENESIS, shorter, Spin(n - 1));
      run := shorter + [Spin(n - 1)];
    }
  }

  /** From a thousand rotations on, a jti rotated out at this very instant can already count as reused. */
  lemma PrunedInsideItsGrace(n: nat) returns (run: seq<Event>)
    requires n >= KEEP_MEMBERS
    ensures LegalRun(GENESIS, run) && SID in After(GENESIS, run).issued && |After(GENESIS, run).issued[SID]| == n + 1
    ensures var w := After(GENESIS, run);
      && w.issued[SID][1].created == w.clock
      && Detect(w.store, w.clock, w.issued[SID][0].jti, SID).1 == Reused(n + 1)
  {
    run := SpunRun(n);
    OnChain(n);
    SpunIsReused(After(GENESIS, run), n);
  }

  lemma SpunIsReused(w: World, n: nat)
    requires Spun(w, n) && n >= KEEP_MEMBERS
    ensures |w.issued[SID]| == n + 1 && Detect(w.store, 0, w.issued[SID][0].jti, SID).1 == Reused(n + 1)
  {
    OnChain(n);
    ClassificationIsExact(w, 0, SID, 0);
  }

  // ---- many families ----

  /** `n` sign-ins of one user, at the instants 0, 1, ..., that evicted nothing. */
  ghost predicate Piled(w: World, n: nat) {
    && 0 <= w.clock <= n
    && (forall x | x in w.issued :: |x| < n && |w.issued[x]| == 1 && w.issued[x][0].jti == x)
    && (forall x | x in w.store.families :: |x| < n && x == Name(|x|))
    && (forall j | j in w.store.members :: |j| < n)
    && (forall i | 0 <= i < n ::
      Name(i) in w.store.families && w.store.families[Name(i)] == Family(0, Name(i), 0, i + SECOND))
  }

  /** The families of a pile, latest expiry first. */
  function Ranking(n: nat): (order: seq<Sid>)
    ensures |order| == n
  {
    seq(n, i requires 0 <= i < n => Name(n - 1 - i))
  }

  /** The next sign-in, whose query ranks `order`. */
  function SignInAt(n: nat, order: seq<Sid>): Event {
    Event(n, DoIssue(Name(n), Name(n), 0, 1, order))
  }

  /** Below the cap the query ranks every family and finds none to evict; from there on all are locked. */
  function OrderAt(n: nat): seq<Sid> {
    if n < MAX_FAMILIES_PER_USER then Ranking(n) else []
  }

  lemma RankingRanks(w: World, n: nat, sid: Sid)
    requires Piled(w, n) && sid !in w.store.families
    ensures ByExpiry(w.store, 0, sid, Ranking(n)) && NoneLocked(w.store, 0, sid, Ranking(n))
  {
    forall x | x in OthersOf(w.store, 0, sid) ensures x in Ranking(n) {
      assert Ranking(n)[n - 1 - |x|] == x;
    }
  }

  lemma NextIsLegal(w: World, n: nat, order: seq<Sid>)
    requires Piled(w, n) && ByExpiry(w.store, 0, Name(n), order)
    ensures Legal(w, SignInAt(n, order)) && Name(n) !in w.store.families && Name(n) !in w.store.members
  {
    assert Name(n) !in w.issued && Name(n) !in w.store.families && Name(n) !in w.store.members;
    assert NeverIssued(w.issued, Name(n));
  }

  /** A sign-in that evicts nothing only adds its rows. */
  lemma NextIsAdded(w: World, n: nat, order: seq<Sid>)
    requires Name(n) !in w.store.families && Name(n) !in w.store.members && |order| < MAX_FAMILIES_PER_USER
    ensures Next(w, SignInAt(n, order)) ==
      World(Insert(w.store, n, Name(n), Name(n), 0, 1), w.issued[Name(n) := [Entry(Name(n), n)]], n)
  {
    NoneEvicted(Insert(w.store, n, Name(n), Name(n), 0, 1), order);
  }

  lemma AddedIsPiled(w: World, n: nat)
    requires Piled(w, n)
    ensures Piled(World(Insert(w.store, n, Name(n), Name(n), 0, 1), w.issued[Name(n) := [Entry(Name(n), n)]], n), n + 1)
  {
  }

  lemma PiledOneMore(w: World, n: nat)
    requires Piled(w, n)
    ensures Legal(w, SignInAt(n, OrderAt(n))) && Piled(Next(w, SignInAt(n, OrderAt(n))), n + 1)
  {
    assert Name(n) !in w.store.families;
    RankingRanks(w, n, Name(n));
    NextIsLegal(w, n, OrderAt(n));
    NextIsAdded(w, n, OrderAt(n));
    AddedIsPiled(w, n);
  }

  lemma NoneEvicted(s: Store, order: seq<Sid>)
    requires |order| < MAX_FAMILIES_PER_USER
    ensures Drop(s, Evicted(order)) == s
  {
    assert Evicted(order) == {};
  }

  lemma NothingPiled()
    ensures LegalRun(GENESIS, []) && Piled(After(GENESIS, []), 0)
  {
  }

  lemma {:induction false} PiledRun(n: nat) returns (run: seq<Event>)
    ensures LegalRun(GENESIS, run) && Piled(After(GENESIS, run), n) && |run| == n
    ensures n <= MAX_FAMILIES_PER_USER ==> LockedSignIns(GENESIS, 0, run) == 0
  {
    if n == 0 {
      NothingPiled();
      run := [];
    } else {
      var shorter := PiledRun(n - 1);
      run := shorter + [SignInAt(n - 1, OrderAt(n - 1))];
      PiledFurther(shorter, n - 1);
    }
  }

  lemma PiledFurther(run: seq<Event>, n: nat)
    requires LegalRun(GENESIS, run) && Piled(After(GENESIS, run), n)
    ensures var more := run + [SignInAt(n, OrderAt(n))];
      && LegalRun(GENESIS, more) && Piled(After(GENESIS, more), n + 1)
      && (n < MAX_FAMILIES_PER_USER ==> LockedSignIns(GENESIS, 0, more) == LockedSignIns(GENESIS, 0, run))
  {
    var w, e := After(GENESIS, run), SignInAt(n, OrderAt(n));
    PiledOneMore(w, n);
    AfterMore(GENESIS, run, e);
    LockedMore(GENESIS, run, e);
    if n < MAX_FAMILIES_PER_USER { RankingRanks(w, n, Name(n)); }
  }

  lemma {:induction false} LockedMore(w: World, run: seq<Event>, e: Event)
    ensures LockedSignIns(w, 0, run + [e]) == LockedSignIns(w, 0, run) + LockedSignIns(After(w, run), 0, [e])
    decreases |run|
  {
    if run == [] {
      assert [] + [e] == [e];
    } else {
      LockedMore(Next(w, run[0]), run[1..], e);
      assert (run + [e])[1..] == run[1..] + [e];
    }
  }

  /** From 70 families on there is a run after which a sign-in that finds none of them locked evicts families although
      one that expires sooner is kept. */
  lemma OldestCanStay(n: nat, sid: Sid) returns (run: seq<Event>)
    requires n > MAX_FAMILIES_PER_USER - 1 + EVICT_BATCH && |sid| > n
    ensures LegalRun(GENESIS, run)
    ensures var s := After(GENESIS, run).store;
      && ByExpiry(s, 0, sid, Ranking(n)) && NoneLocked(s, 0, sid, Ranking(n))
      && !OnlyOldestEvicted(s, 0, sid, Ranking(n))
  {
    run := PiledRun(n);
    var w := After(GENESIS, run);
    RankingRanks(w, n, sid);
    OldestEvictedExactlyWhen(w.store, 0, sid, Ranking(n));
  }

  lemma PileCount(w: World, n: nat)
    requires Piled(w, n)
    ensures |UserFamilies(w.store, 0)| == n
  {
    assert Name(n) !in w.store.families;
    RankingRanks(w, n, Name(n));
    OrderListsAll(w.store, 0, Name(n), Ranking(n));
    assert UserFamilies(w.store, 0) == OthersOf(w.store, 0, Name(n));
  }

  /** Fifty sign-ins that find nothing locked, and one that finds a single family locked: 51 families are left. */
  lemma FiftyOneAreLeft() returns (run: seq<Event>, last: Event)
    ensures LegalRun(GENESIS, run + [last]) && LockedSignIns(GENESIS, 0, run) == 0
    ensures var w := After(GENESIS, run);
      && SignsIn(w, 0, last) && |UserFamilies(w.store, 0)| == MAX_FAMILIES_PER_USER
      && |last.op.order| == MAX_FAMILIES_PER_USER - 1
    ensures |UserFamilies(After(GENESIS, run + [last]).store, 0)| == MAX_FAMILIES_PER_USER + 1
  {
    var n: nat := MAX_FAMILIES_PER_USER;
    run := PiledRun(n);
    var w := After(GENESIS, run);
    last := SignInAt(n, Ranking(n)[1..]);
    assert Name(n) !in w.store.families;
    RankingRanks(w, n, Name(n));
    RestIsRanked(w.store, Name(n), Ranking(n));
    NextIsLegal(w, n, Ranking(n)[1..]);
    PileCount(w, n);
    IssueCountsExactly(w.store, n, Name(n), Name(n), 0, 1, Ranking(n)[1..]);
    AfterMore(GENESIS, run, last);
  }

  lemma RestIsRanked(s: Store, sid: Sid, order: seq<Sid>)
    requires ByExpiry(s, 0, sid, order) && order != []
    ensures ByExpiry(s, 0, sid, order[1..])
  {
  }
}
