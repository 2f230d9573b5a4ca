/** How many families a user can hold: what eviction at sign-in keeps, and how a backlog shrinks. */
module SessionEviction {
  import opened Instants
  import opened SessionFamilies
  import opened SessionHistory

  function UserFamilies(s: Store, user: int): set<Sid> {
    set sid | sid in s.families && s.families[sid].user == user
  }

  /** The eviction query found no family locked, so it ranked all the others. */
  ghost predicate NoneLocked(s: Store, user: int, sid: Sid, order: seq<Sid>) {
    forall x | x in OthersOf(s, user, sid) :: x in order
  }

  lemma {:induction false} DistinctCount(t: seq<Sid>)
    requires forall i, j | 0 <= i < j < |t| :: t[i] != t[j]
    ensures |set x | x in t| == |t|
  {
    if t != [] {
      DistinctCount(t[1..]);
      assert (set x | x in t) == {t[0]} + set x | x in t[1..];
    }
  }

  lemma OrderListsAll(s: Store, user: int, sid: Sid, order: seq<Sid>)
    requires ByExpiry(s, user, sid, order) && NoneLocked(s, user, sid, order)
    ensures (set x | x in order) == OthersOf(s, user, sid) && |order| == |OthersOf(s, user, sid)|
  {
    DistinctCount(order);
    assert (set x | x in order) == OthersOf(s, user, sid);
  }

  function EvictedCount(others: int): int {
    if others <= MAX_FAMILIES_PER_USER - 1 then 0
    else if others <= MAX_FAMILIES_PER_USER - 1 + EVICT_BATCH then others - (MAX_FAMILIES_PER_USER - 1)
    else EVICT_BATCH
  }

  lemma EvictedSize(order: seq<Sid>)
    requires forall i, j | 0 <= i < j < |order| :: order[i] != order[j]
    ensures |Evicted(order)| == EvictedCount(|order|)
  {
    var lo := if |order| < MAX_FAMILIES_PER_USER - 1 then |order| else MAX_FAMILIES_PER_USER - 1;
    var hi := lo + EvictedCount(|order|);
    DistinctCount(order[lo..hi]);
    assert Evicted(order) == set x | x in order[lo..hi];
  }

  /** Whatever the eviction query could lock: the user has one family more, less those evicted of the ones it ranked. */
  lemma IssueCountsExactly(s: Store, now: Time, jti: Jti, sid: Sid, user: int, ttl: int, order: seq<Sid>)
    requires sid !in s.families && jti !in s.members && ByExpiry(s, user, sid, order)
    ensures var s' := Issue(s, now, jti, sid, user, ttl, order).0;
      |UserFamilies(s', user)| == |UserFamilies(s, user)| + 1 - EvictedCount(|order|)
    ensures |order| <= |UserFamilies(s, user)|
    ensures |order| == |UserFamilies(s, user)| <==> NoneLocked(s, user, sid, order)
  {
    EvictedSize(order);
    FamiliesAfterIssue(s, now, jti, sid, user, ttl, order);
    CountSwap(UserFamilies(s, user), Evicted(order), sid);
    RanksAllExactlyWhen(s, user, sid, order);
  }

  /** The query ranked as many families as there are exactly when it found none locked. */
  lemma RanksAllExactlyWhen(s: Store, user: int, sid: Sid, order: seq<Sid>)
    requires ByExpiry(s, user, sid, order)
    ensures |order| <= |OthersOf(s, user, sid)|
    ensures |order| == |OthersOf(s, user, sid)| <==> NoneLocked(s, user, sid, order)
  {
    var others := OthersOf(s, user, sid);
    var ranked := set x | x in order;
    DistinctCount(order);
    assert ranked <= others;
    SubsetCount(ranked, others);
    if |order| == |others| { assert |others - ranked| == 0; }
    if NoneLocked(s, user, sid, order) { OrderListsAll(s, user, sid, order); }
  }

  lemma SubsetCount(a: set<Sid>, b: set<Sid>)
    requires a <= b
    ensures |b| == |a| + |b - a|
  {
    assert b == a + (b - a);
  }

  /** For a user with at most 50 families a sign-in leaves at most 50 exactly when there were fewer, or none was
      locked. */
  lemma CapKeptExactlyWhen(s: Store, now: Time, jti: Jti, sid: Sid, user: int, ttl: int, order: seq<Sid>)
    requires sid !in s.families && jti !in s.members && ByExpiry(s, user, sid, order)
    requires |UserFamilies(s, user)| <= MAX_FAMILIES_PER_USER
    ensures |UserFamilies(Issue(s, now, jti, sid, user, ttl, order).0, user)| <= MAX_FAMILIES_PER_USER <==>
      |UserFamilies(s, user)| < MAX_FAMILIES_PER_USER || NoneLocked(s, user, sid, order)
  {
    IssueCountsExactly(s, now, jti, sid, user, ttl, order);
  }

  /** A sign-in that finds none locked takes n families to n + 1 below the cap, and to max(50, n - 19) from it on. */
  function CountAfterIssue(n: int): int {
    if n < MAX_FAMILIES_PER_USER then n + 1
    else if n - (EVICT_BATCH - 1) < MAX_FAMILIES_PER_USER then MAX_FAMILIES_PER_USER
    else n - (EVICT_BATCH - 1)
  }

  lemma IssueBoundsFamilies(s: Store, now: Time, jti: Jti, sid: Sid, user: int, ttl: int, order: seq<Sid>)
    requires sid !in s.families && jti !in s.members
    requires ByExpiry(s, user, sid, order) && NoneLocked(s, user, sid, order)
    ensures var s' := Issue(s, now, jti, sid, user, ttl, order).0;
      && sid in s'.families && IsMemberOf(s', sid, jti)
      && |UserFamilies(s', user)| == CountAfterIssue(|UserFamilies(s, user)|)
      && (forall x | x in s.families && s.families[x].user != user :: x in s'.families)
  {
    IssueCountsExactly(s, now, jti, sid, user, ttl, order);
    FamiliesAfterIssue(s, now, jti, sid, user, ttl, order);
    OthersStay(s, now, jti, sid, user, ttl, order);
  }

  lemma CountSwap(families: set<Sid>, gone: set<Sid>, sid: Sid)
    requires gone <= families && sid !in families
    ensures |families - gone + {sid}| == |families| - |gone| + 1
  {
    assert |families| == |families - gone| + |gone| by { assert families == families - gone + gone; }
  }

  lemma OthersStay(s: Store, now: Time, jti: Jti, sid: Sid, user: int, ttl: int, order: seq<Sid>)
    requires sid !in s.families && jti !in s.members && ByExpiry(s, user, sid, order)
    ensures forall x | x in s.families && s.families[x].user != user ::
      x in Issue(s, now, jti, sid, user, ttl, order).0.families
  {
  }

  lemma FamiliesAfterIssue(s: Store, now: Time, jti: Jti, sid: Sid, user: int, ttl: int, order: seq<Sid>)
    requires sid !in s.families && jti !in s.members
    requires ByExpiry(s, user, sid, order)
    ensures var s' := Issue(s, now, jti, sid, user, ttl, order).0;
      && UserFamilies(s, user) == OthersOf(s, user, sid)
      && Evicted(order) <= UserFamilies(s, user)
      && UserFamilies(s', user) == UserFamilies(s, user) - Evicted(order) + {sid}
      && s'.families.Keys == s.families.Keys - Evicted(order) + {sid}
      && IsMemberOf(s', sid, jti)
  {
    assert forall x | x in Evicted(order) :: x in OthersOf(s, user, sid);
  }

  ghost predicate OnlyOldestEvicted(s: Store, user: int, sid: Sid, order: seq<Sid>) {
    forall gone, kept ::
      gone in Evicted(order) && gone in s.families && kept in OthersOf(s, user, sid) - Evicted(order) ==>
      s.families[gone].expires <= s.families[kept].expires
  }

  /** Eviction takes only the families that expire first, exactly when at most 69 others exist or all
      from rank 49 on expire together: the limit of 20 stops it before the oldest of a larger backlog. */
  lemma OldestEvictedExactlyWhen(s: Store, user: int, sid: Sid, order: seq<Sid>)
    requires ByExpiry(s, user, sid, order) && NoneLocked(s, user, sid, order)
    ensures |order| == |OthersOf(s, user, sid)|
    ensures OnlyOldestEvicted(s, user, sid, order) <==>
      |order| <= MAX_FAMILIES_PER_USER - 1 + EVICT_BATCH
      || s.families[order[MAX_FAMILIES_PER_USER - 1]].expires == s.families[order[|order| - 1]].expires
  {
    OrderListsAll(s, user, sid, order);
    var first, last := MAX_FAMILIES_PER_USER - 1, |order| - 1;
    if |order| <= MAX_FAMILIES_PER_USER - 1 + EVICT_BATCH {
      ShortRankingIsSafe(s, user, sid, order);
    } else if s.families[order[first]].expires == s.families[order[last]].expires {
      LevelRankingIsSafe(s, user, sid, order);
    } else {
      assert order[first] in Evicted(order);
      assert order[last] !in Evicted(order) && order[last] in OthersOf(s, user, sid);
    }
  }

  lemma ShortRankingIsSafe(s: Store, user: int, sid: Sid, order: seq<Sid>)
    requires ByExpiry(s, user, sid, order) && NoneLocked(s, user, sid, order)
    requires |order| <= MAX_FAMILIES_PER_USER - 1 + EVICT_BATCH
    ensures OnlyOldestEvicted(s, user, sid, order)
  {
    forall gone, kept | gone in Evicted(order) && kept in OthersOf(s, user, sid) - Evicted(order)
      ensures s.families[gone].expires <= s.families[kept].expires
    {
      var i :| MAX_FAMILIES_PER_USER - 1 <= i < |order| && order[i] == gone;
      var k :| 0 <= k < |order| && order[k] == kept;
      assert k < MAX_FAMILIES_PER_USER - 1;
    }
  }

  lemma LevelRankingIsSafe(s: Store, user: int, sid: Sid, order: seq<Sid>)
    requires ByExpiry(s, user, sid, order) && NoneLocked(s, user, sid, order) && |order| >= MAX_FAMILIES_PER_USER
    requires s.families[order[MAX_FAMILIES_PER_USER - 1]].expires == s.families[order[|order| - 1]].expires
    ensures OnlyOldestEvicted(s, user, sid, order)
  {
    var first, last := MAX_FAMILIES_PER_USER - 1, |order| - 1;
    forall gone, kept | gone in Evicted(order) && kept in OthersOf(s, user, sid) - Evicted(order)
      ensures s.families[gone].expires <= s.families[kept].expires
    {
      var i :| first <= i < |order| && order[i] == gone;
      var k :| 0 <= k < |order| && order[k] == kept;
      assert s.families[order[k]].expires >= s.families[order[last]].expires;
      assert s.families[order[first]].expires >= s.families[order[i]].expires;
    }
  }

  // ---- over whole runs ----

  /** A sign-in of the user that succeeds. */
  ghost predicate SignsIn(w: World, user: int, e: Event) {
    e.op.DoIssue? && e.op.user == user && ReplyTo(w, e) == IssueReplied(Issued)
  }

  /** Any legal run in which the user's sign-ins find none of their families locked. */
  ghost predicate FindsNoneLocked(w: World, user: int, run: seq<Event>)
    decreases |run|
  {
    run == [] || (
      && Legal(w, run[0])
      && (SignsIn(w, user, run[0]) ==> NoneLocked(w.store, user, run[0].op.sid, run[0].op.order))
      && FindsNoneLocked(Next(w, run[0]), user, run[1..]))
  }

  ghost function SignIns(w: World, user: int, run: seq<Event>): nat
    decreases |run|
  {
    if run == [] then 0 else (if SignsIn(w, user, run[0]) then 1 else 0) + SignIns(Next(w, run[0]), user, run[1..])
  }

  lemma SignInCounts(w: World, user: int, e: Event)
    requires Legal(w, e) && SignsIn(w, user, e) && NoneLocked(w.store, user, e.op.sid, e.op.order)
    ensures |UserFamilies(Next(w, e).store, user)| == CountAfterIssue(|UserFamilies(w.store, user)|)
  {
    var DoIssue(jti, sid, _, ttl, order) := e.op;
    IssueBoundsFamilies(w.store, e.now, jti, sid, user, ttl, order);
  }

  /** No other step gives the user a family. */
  lemma OtherStepsAddNone(w: World, user: int, e: Event)
    requires !SignsIn(w, user, e)
    ensures UserFamilies(Next(w, e).store, user) <= UserFamilies(w.store, user)
  {
    if !Appends(w, e) {
      OtherStepsOnlyDrop(w, e);
    } else if e.op.DoRotate? {
      RotatedMeans(w, e);
    }
  }

  /** From any backlog of n, a run with m sign-ins among whatever else leaves at most max(50, n - 19 m) families. */
  lemma {:induction false} BacklogShrinks(w: World, user: int, run: seq<Event>)
    requires FindsNoneLocked(w, user, run)
    ensures var n := |UserFamilies(w.store, user)| - (EVICT_BATCH - 1) * SignIns(w, user, run);
      |UserFamilies(After(w, run).store, user)| <= if n < MAX_FAMILIES_PER_USER then MAX_FAMILIES_PER_USER else n
    decreases |run|
  {
    if run != [] {
      BacklogShrinks(Next(w, run[0]), user, run[1..]);
      if SignsIn(w, user, run[0]) {
        SignInCounts(w, user, run[0]);
      } else {
        OtherStepsAddNone(w, user, run[0]);
        SubsetCount(UserFamilies(Next(w, run[0]).store, user), UserFamilies(w.store, user));
      }
    }
  }

  /** How many of the user's sign-ins found some family of theirs locked. */
  ghost function LockedSignIns(w: World, user: int, run: seq<Event>): nat
    decreases |run|
  {
    if run == [] then 0
    else (if SignsIn(w, user, run[0]) && !NoneLocked(w.store, user, run[0].op.sid, run[0].op.order) then 1 else 0)
         + LockedSignIns(Next(w, run[0]), user, run[1..])
  }

  lemma LockedSignInAddsOne(w: World, user: int, e: Event)
    requires Legal(w, e) && SignsIn(w, user, e)
    ensures |UserFamilies(Next(w, e).store, user)| <= |UserFamilies(w.store, user)| + 1
  {
    var DoIssue(jti, sid, _, ttl, order) := e.op;
    IssueCountsExactly(w.store, e.now, jti, sid, user, ttl, order);
  }

  /** Over every legal run: the cap, or the backlog there was, is exceeded by no more than one family for each of the
      user's sign-ins that found one locked; by none when none did. */
  lemma {:induction false} CapHolds(w: World, user: int, run: seq<Event>)
    requires LegalRun(w, run)
    ensures var n := |UserFamilies(w.store, user)|;
      |UserFamilies(After(w, run).store, user)| <=
        (if n < MAX_FAMILIES_PER_USER then MAX_FAMILIES_PER_USER else n) + LockedSignIns(w, user, run)
    decreases |run|
  {
    if run != [] {
      CapHolds(Next(w, run[0]), user, run[1..]);
      if !SignsIn(w, user, run[0]) {
        OtherStepsAddNone(w, user, run[0]);
        SubsetCount(UserFamilies(Next(w, run[0]).store, user), UserFamilies(w.store, user));
      } else if NoneLocked(w.store, user, run[0].op.sid, run[0].op.order) {
        SignInCounts(w, user, run[0]);
      } else {
        LockedSignInAddsOne(w, user, run[0]);
      }
    }
  }

  /** The bound is reached when sign-ins are all that happens: then exactly max(50, n - 19 m) are left. */
  lemma {:induction false} SignInsAloneShrinkExactly(w: World, user: int, run: seq<Event>)
    requires FindsNoneLocked(w, user, run) && SignIns(w, user, run) == |run|
    requires |UserFamilies(w.store, user)| >= MAX_FAMILIES_PER_USER
    ensures var n := |UserFamilies(w.store, user)| - (EVICT_BATCH - 1) * |run|;
      |UserFamilies(After(w, run).store, user)| == if n < MAX_FAMILIES_PER_USER then MAX_FAMILIES_PER_USER else n
    decreases |run|
  {
    if run != [] {
      NoMoreThanSteps(Next(w, run[0]), user, run[1..]);
      SignInCounts(w, user, run[0]);
      SignInsAloneShrinkExactly(Next(w, run[0]), user, run[1..]);
    }
  }

  lemma {:induction false} NoMoreThanSteps(w: World, user: int, run: seq<Event>)
    ensures SignIns(w, user, run) <= |run|
    decreases |run|
  {
    if run != [] { NoMoreThanSteps(Next(w, run[0]), user, run[1..]); }
  }
}
