/** Purging is invisible: a run with purges answers like the same run without them. */
module SessionPurge {
  import opened Instants
  import opened SessionFamilies
  import opened SessionHistory

  /** The rows an answer may depend on: the live families and their members. */
  ghost function View(s: Store, now: Time): Store {
    Store(map sid | sid in s.families && Live(s, sid, now) :: s.families[sid],
          map jti | jti in s.members && Live(s, s.members[jti].sid, now) :: s.members[jti])
  }

  lemma ViewOfView(s: Store, now: Time, later: Time)
    requires now <= later
    ensures View(View(s, now), later) == View(s, later)
  {
  }

  lemma DropInView(s: Store, sids: set<Sid>, now: Time)
    ensures View(Drop(s, sids), now) == Drop(View(s, now), sids)
  {
  }

  lemma PurgeKeepsView(s: Store, now: Time, stale: set<Sid>)
    requires Purgeable(s, now, stale)
    ensures View(Drop(s, stale), now) == View(s, now)
  {
  }

  lemma ReadsSeeTheView(s: Store, now: Time, sid: Sid, jti: Jti)
    ensures FamilyExists(s, now, sid) == FamilyExists(View(s, now), now, sid)
    ensures FamilyMember(s, now, sid, jti) == FamilyMember(View(s, now), now, sid, jti)
    ensures Validate(s, now, jti) == Validate(View(s, now), now, jti)
  {
  }

  lemma FreshMemberInView(s: Store, now: Time, sid: Sid, number: int, since: Time)
    requires Live(s, sid, now)
    ensures FreshMember(s, sid, number, since) == FreshMember(View(s, now), sid, number, since)
    ensures NumberTaken(s, sid, number) == NumberTaken(View(s, now), sid, number)
  {
    var v := View(s, now);
    if NumberTaken(s, sid, number) {
      var j :| j in s.members && s.members[j].sid == sid && s.members[j].number == number;
      assert j in v.members;
    }
    if FreshMember(s, sid, number, since) {
      var j :| j in s.members && s.members[j].sid == sid && s.members[j].number == number &&
      s.members[j].created > since;
      assert j in v.members;
    }
  }

  lemma GraceInView(s: Store, now: Time, jti: Jti)
    ensures Grace(s, now, jti) == Grace(View(s, now), now, jti)
    ensures jti in s.members && Live(s, s.members[jti].sid, now) ==>
      Graced(s, jti, now) == Graced(View(s, now), jti, now)
  {
    if jti in s.members && Live(s, s.members[jti].sid, now) {
      FreshMemberInView(s, now, s.members[jti].sid, s.members[jti].number + 1, now - GRACE_TTL);
    }
  }

  lemma AppendInView(s: Store, now: Time, jti: Jti, sid: Sid, ttl: int)
    requires Live(s, sid, now) && jti !in s.members
    ensures View(Append(s, now, jti, sid, ttl), now) == View(Append(View(s, now), now, jti, sid, ttl), now)
  {
    AppendFamiliesInView(s, now, jti, sid, ttl);
    AppendMembersInView(s, now, jti, sid, ttl);
  }

  lemma AppendFamiliesInView(s: Store, now: Time, jti: Jti, sid: Sid, ttl: int)
    requires Live(s, sid, now) && jti !in s.members
    ensures View(Append(s, now, jti, sid, ttl), now).families ==
      View(Append(View(s, now), now, jti, sid, ttl), now).families
  {
  }

  lemma AppendMembersInView(s: Store, now: Time, jti: Jti, sid: Sid, ttl: int)
    requires Live(s, sid, now) && jti !in s.members
    ensures View(Append(s, now, jti, sid, ttl), now).members ==
      View(Append(View(s, now), now, jti, sid, ttl), now).members
  {
    var r, v := Append(s, now, jti, sid, ttl), Append(View(s, now), now, jti, sid, ttl);
    forall j ensures j in View(r, now).members <==> j in View(v, now).members {
      assert j in r.members && Live(r, r.members[j].sid, now) <==> j in v.members && Live(v, v.members[j].sid, now);
    }
  }

  lemma RotateInView(s: Store, s': Store, now: Time, old_: Jti, new_: Jti, sid: Sid, user: int, ttl: int)
    requires View(s, now) == View(s', now)
    requires new_ in s.members <==> new_ in s'.members
    ensures var r, r' := Rotate(s, now, old_, new_, sid, user, ttl), Rotate(s', now, old_, new_, sid, user, ttl);
      r.1 == r'.1 && View(r.0, now) == View(r'.0, now)
  {
    assert Live(s, sid, now) <==> sid in View(s, now).families;
    assert Live(s', sid, now) <==> sid in View(s', now).families;
    if Live(s, sid, now) {
      assert IsMemberOf(s, sid, old_) <==> IsMemberOf(View(s, now), sid, old_);
      assert IsMemberOf(s', sid, old_) <==> IsMemberOf(View(s', now), sid, old_);
      FreshMemberInView(s, now, sid, s.families[sid].rotations + 1, now);
      FreshMemberInView(s', now, sid, s.families[sid].rotations + 1, now);
      if new_ !in s.members {
        AppendInView(s, now, new_, sid, ttl);
        AppendInView(s', now, new_, sid, ttl);
      }
    }
  }

  lemma DetectInView(s: Store, now: Time, jti: Jti, sid: Sid)
    requires jti in s.members ==> s.members[jti].sid == sid
    ensures var r, v := Detect(s, now, jti, sid), Detect(View(s, now), now, jti, sid);
      r.1 == v.1 && View(r.0, now) == View(v.0, now)
  {
    ViewOfView(s, now, now);
    GraceInView(s, now, jti);
    DropInView(s, {sid}, now);
    DropInView(View(s, now), {sid}, now);
  }

  // ---- the eviction query ranks the live families first, so a purge does not move them ----

  ghost function LiveRanks(s: Store, now: Time, order: seq<Sid>): seq<Sid> {
    if order == [] || !Live(s, order[0], now) then [] else [order[0]] + LiveRanks(s, now, order[1..])
  }

  lemma {:induction false} LiveRanksArePrefix(s: Store, now: Time, user: int, sid: Sid, order: seq<Sid>)
    requires ByExpiry(s, user, sid, order)
    ensures LiveRanks(s, now, order) <= order
    ensures forall i | |LiveRanks(s, now, order)| <= i < |order| :: !Live(s, order[i], now)
    ensures forall i | 0 <= i < |LiveRanks(s, now, order)| :: Live(s, order[i], now)
  {
    if order != [] && Live(s, order[0], now) {
      LiveRanksArePrefix(s, now, user, sid, order[1..]);
      assert order == [order[0]] + order[1..];
    }
  }

  /** Of the live families, eviction takes ranks 49 to 68 of the live ranking, dead rows or not. */
  lemma EvictedOfLive(s: Store, now: Time, user: int, sid: Sid, order: seq<Sid>, x: Sid)
    requires ByExpiry(s, user, sid, order) && Live(s, x, now)
    ensures x in Evicted(order) <==> x in Evicted(LiveRanks(s, now, order))
  {
    LiveRanksArePrefix(s, now, user, sid, order);
  }

  ghost predicate StrictlyByExpiry(v: Store, ranks: seq<Sid>) {
    && (forall i | 0 <= i < |ranks| :: ranks[i] in v.families)
    && (forall i, j | 0 <= i < j < |ranks| :: v.families[ranks[i]].expires > v.families[ranks[j]].expires)
  }

  lemma BothOrNone(a: seq<Sid>, b: seq<Sid>)
    requires forall x :: x in a <==> x in b
    ensures a == [] <==> b == []
  {
    if a != [] { assert a[0] in b; }
    if b != [] { assert b[0] in a; }
  }

  lemma {:induction false} RankingIsUnique(v: Store, a: seq<Sid>, b: seq<Sid>)
    requires StrictlyByExpiry(v, a) && StrictlyByExpiry(v, b) && forall x :: x in a <==> x in b
    ensures a == b
  {
    BothOrNone(a, b);
    if a != [] {
      assert a[0] in b && b[0] in a;
      var i :| 0 <= i < |b| && b[i] == a[0];
      var j :| 0 <= j < |a| && a[j] == b[0];
      assert i == 0;
      forall x ensures x in a[1..] <==> x in b[1..] {
        assert x in a <==> x == a[0] || x in a[1..];
        assert x in b <==> x == b[0] || x in b[1..];
      }
      RankingIsUnique(v, a[1..], b[1..]);
      assert a == [a[0]] + a[1..] && b == [b[0]] + b[1..];
    }
  }

  predicate LiveOf(s: Store, now: Time, user: int, x: Sid) {
    Live(s, x, now) && s.families[x].user == user
  }

  /** Two live families of the user never expire together. */
  ghost predicate NoTies(s: Store, now: Time, user: int) {
    forall x, y | LiveOf(s, now, user, x) && LiveOf(s, now, user, y) && x != y ::
      s.families[x].expires != s.families[y].expires
  }

  /** The query found every other live family of the user unlocked. */
  ghost predicate RanksAllLive(s: Store, now: Time, user: int, sid: Sid, order: seq<Sid>) {
    forall x | x in OthersOf(s, user, sid) && Live(s, x, now) :: x in order
  }

  lemma LiveRanksListLive(s: Store, now: Time, user: int, sid: Sid, order: seq<Sid>)
    requires ByExpiry(s, user, sid, order) && RanksAllLive(s, now, user, sid, order) && NoTies(s, now, user)
    ensures StrictlyByExpiry(View(s, now), LiveRanks(s, now, order))
    ensures forall x :: x in LiveRanks(s, now, order) <==> x in OthersOf(View(s, now), user, sid)
  {
    LiveRanksArePrefix(s, now, user, sid, order);
    var ranks := LiveRanks(s, now, order);
    forall x ensures x in ranks <==> x in OthersOf(View(s, now), user, sid) {
      if x in OthersOf(View(s, now), user, sid) {
        assert x in order;
        var i :| 0 <= i < |order| && order[i] == x;
        assert i < |ranks| && ranks[i] == x;
      }
    }
    forall i, j | 0 <= i < j < |ranks|
      ensures View(s, now).families[ranks[i]].expires > View(s, now).families[ranks[j]].expires
    {
      assert ranks[i] == order[i] && ranks[j] == order[j];
    }
  }

  /** Without ties and locks the ranking of the live families is determined, purged rows or not. */
  lemma RanksAreDetermined(s: Store, s': Store, now: Time, user: int, sid: Sid, order: seq<Sid>, order': seq<Sid>)
    requires View(s, now) == View(s', now) && NoTies(s, now, user) && NoTies(s', now, user)
    requires ByExpiry(s, user, sid, order) && RanksAllLive(s, now, user, sid, order)
    requires ByExpiry(s', user, sid, order') && RanksAllLive(s', now, user, sid, order')
    ensures LiveRanks(s, now, order) == LiveRanks(s', now, order')
  {
    LiveRanksListLive(s, now, user, sid, order);
    LiveRanksListLive(s', now, user, sid, order');
    RankingIsUnique(View(s, now), LiveRanks(s, now, order), LiveRanks(s', now, order'));
  }

  lemma InsertInView(s: Store, now: Time, jti: Jti, sid: Sid, user: int, ttl: int)
    requires sid !in s.families && jti !in s.members && NoOrphans(s)
    ensures View(Insert(s, now, jti, sid, user, ttl), now) ==
      if ttl > 0 then Insert(View(s, now), now, jti, sid, user, ttl) else View(s, now)
  {
    InsertFamiliesInView(s, now, jti, sid, user, ttl);
    InsertMembersInView(s, now, jti, sid, user, ttl);
  }

  lemma InsertFamiliesInView(s: Store, now: Time, jti: Jti, sid: Sid, user: int, ttl: int)
    requires sid !in s.families
    ensures View(Insert(s, now, jti, sid, user, ttl), now).families ==
      if ttl > 0 then View(s, now).families[sid := Family(user, jti, 0, now + ttl * SECOND)] else View(s, now).families
  {
  }

  lemma InsertMembersInView(s: Store, now: Time, jti: Jti, sid: Sid, user: int, ttl: int)
    requires sid !in s.families && jti !in s.members && NoOrphans(s)
    ensures View(Insert(s, now, jti, sid, user, ttl), now).members ==
      if ttl > 0 then View(s, now).members[jti := Member(sid, 0, now)] else View(s, now).members
  {
    var i := Insert(s, now, jti, sid, user, ttl);
    forall j | j in s.members ensures Live(i, s.members[j].sid, now) <==> Live(s, s.members[j].sid, now) {
      assert s.members[j].sid != sid;
    }
  }

  lemma DropSameLive(v: Store, now: Time, sids: set<Sid>, sids': set<Sid>)
    requires v == View(v, now)
    requires forall x | Live(v, x, now) :: x in sids <==> x in sids'
    ensures Drop(v, sids) == Drop(v, sids')
  {
  }

  lemma IssueInView(s: Store, s': Store, now: Time, jti: Jti, sid: Sid, user: int, ttl: int,
        order: seq<Sid>, order': seq<Sid>)
    requires View(s, now) == View(s', now)
    requires ByExpiry(s, user, sid, order) && ByExpiry(s', user, sid, order')
    requires LiveRanks(s, now, order) == LiveRanks(s', now, order')
    requires sid !in s.families && sid !in s'.families && jti !in s.members && jti !in s'.members
    requires NoOrphans(s) && NoOrphans(s')
    ensures View(Issue(s, now, jti, sid, user, ttl, order).0, now) ==
      View(Issue(s', now, jti, sid, user, ttl, order').0, now)
  {
    var i, i' := Insert(s, now, jti, sid, user, ttl), Insert(s', now, jti, sid, user, ttl);
    InsertInView(s, now, jti, sid, user, ttl);
    InsertInView(s', now, jti, sid, user, ttl);
    DropInView(i, Evicted(order), now);
    DropInView(i', Evicted(order'), now);
    forall x | Live(View(i, now), x, now) ensures x in Evicted(order) <==> x in Evicted(order') {
      if x == sid {
        assert forall y | y in order :: y != sid;
        assert forall y | y in order' :: y != sid;
      } else {
        assert x in View(s, now).families && x in View(s', now).families;
        EvictedOfLive(s, now, user, sid, order, x);
        EvictedOfLive(s', now, user, sid, order', x);
      }
    }
    ViewOfView(i, now, now);
    DropSameLive(View(i, now), now, Evicted(order), Evicted(order'));
  }

  // ---- two runs, with and without purges ----

  /** Same history, same live rows. */
  ghost predicate Alike(w: World, w': World) {
    && Inv(w) && Inv(w')
    && w.issued == w'.issued && w'.clock <= w.clock
    && View(w.store, w.clock) == View(w'.store, w.clock)
  }

  /** The database has no choice in how the sign-in ranks the live families. */
  ghost predicate RankingDetermined(w: World, e: Event)
    requires e.op.DoIssue?
  {
    NoTies(w.store, e.now, e.op.user) && RanksAllLive(w.store, e.now, e.op.user, e.op.sid, e.op.order)
  }

  /** The same request; where the database has a choice, a sign-in ranks the live families the same way on both
      sides. */
  ghost predicate SameRequest(w: World, w': World, e: Event, e': Event) {
    && e.now == e'.now
    && (e.op == e'.op ||
        (e.op.DoIssue? && e'.op.DoIssue? && e'.op.(order := e.op.order) == e.op
         && ((RankingDetermined(w, e) && RankingDetermined(w', e'))
             || LiveRanks(w.store, e.now, e.op.order) == LiveRanks(w'.store, e.now, e'.op.order))))
  }

  function ExpiredToRevoke(s: Store, now: Time, user: int, keep: set<Sid>): set<Sid> {
    set x | x in FamiliesToRevoke(s, user, keep) && !Live(s, x, now)
  }

  /** Every answer as it is, save that of the families revoke_user counts only the live ones are compared. */
  ghost function Observed(w: World, e: Event): Reply {
    if e.op.DoRevokeUser? then RevokeUserReplied(|FamiliesToRevoke(View(w.store, e.now), e.op.user, e.op.keep)|)
    else ReplyTo(w, e)
  }

  /** The count is that of the live families and of the expired ones not purged yet. */
  lemma CountIsLiveAndExpired(w: World, e: Event)
    requires e.op.DoRevokeUser?
    ensures ReplyTo(w, e) ==
      RevokeUserReplied(Observed(w, e).count + |ExpiredToRevoke(w.store, e.now, e.op.user, e.op.keep)|)
  {
    var live := FamiliesToRevoke(View(w.store, e.now), e.op.user, e.op.keep);
    LiveAndExpired(w.store, e.now, e.op.user, e.op.keep);
    UnionCount(live, ExpiredToRevoke(w.store, e.now, e.op.user, e.op.keep));
  }

  lemma LiveAndExpired(s: Store, now: Time, user: int, keep: set<Sid>)
    ensures FamiliesToRevoke(s, user, keep) ==
      FamiliesToRevoke(View(s, now), user, keep) + ExpiredToRevoke(s, now, user, keep)
    ensures FamiliesToRevoke(View(s, now), user, keep) !! ExpiredToRevoke(s, now, user, keep)
  {
  }

  lemma UnionCount(a: set<Sid>, b: set<Sid>)
    requires a !! b
    ensures |a + b| == |a| + |b|
  {
  }

  /** `run` with its purges left out is `run'`, request for request. */
  ghost predicate Twins(w: World, w': World, run: seq<Event>, run': seq<Event>)
    decreases |run|
  {
    if run == [] then run' == []
    else if run[0].op.DoPurge? then Twins(Next(w, run[0]), w', run[1..], run')
    else
      && run' != [] && !run'[0].op.DoPurge?
      && SameRequest(w, w', run[0], run'[0])
      && Twins(Next(w, run[0]), Next(w', run'[0]), run[1..], run'[1..])
  }

  ghost function ObservedReplies(w: World, run: seq<Event>): seq<Reply>
    decreases |run|
  {
    if run == [] then []
    else (if run[0].op.DoPurge? then [] else [Observed(w, run[0])]) + ObservedReplies(Next(w, run[0]), run[1..])
  }

  lemma SameClashes(w: World, w': World, jti: Jti)
    requires Alike(w, w')
    requires jti in w.store.members || NeverIssued(w.issued, jti)
    requires jti in w'.store.members || NeverIssued(w'.issued, jti)
    ensures jti in w.store.members <==> jti in w'.store.members
  {
    if jti in w.store.members { assert MemberOk(w.store, w.issued, jti); }
    if jti in w'.store.members { assert MemberOk(w'.store, w'.issued, jti); }
  }

  lemma SameSids(w: World, w': World, sid: Sid)
    requires Alike(w, w')
    requires sid in w.store.families || sid !in w.issued
    requires sid in w'.store.families || sid !in w'.issued
    ensures sid in w.store.families <==> sid in w'.store.families
  {
  }

  /** A presented jti was issued to the sid it comes with: both sit in one signed token. */
  ghost predicate Presented(w: World, e: Event) {
    e.op.DoDetect? ==> forall jti | jti == e.op.jti && jti in w.store.members :: w.store.members[jti].sid == e.op.sid
  }

  lemma SameViewAt(w: World, w': World, now: Time)
    requires Alike(w, w') && w.clock <= now
    ensures View(w.store, now) == View(w'.store, now)
  {
    ViewOfView(w.store, w.clock, now);
    ViewOfView(w'.store, w.clock, now);
  }

  lemma IssueOnStores(s: Store, s': Store, now: Time, op: Op, op': Op)
    requires op.DoIssue? && op'.DoIssue? && op' == op.(order := op'.order)
    requires View(s, now) == View(s', now)
    requires op.sid in s.families <==> op.sid in s'.families
    requires op.jti in s.members <==> op.jti in s'.members
    requires ByExpiry(s, op.user, op.sid, op.order) && ByExpiry(s', op.user, op.sid, op'.order)
    requires LiveRanks(s, now, op.order) == LiveRanks(s', now, op'.order)
    requires NoOrphans(s) && NoOrphans(s')
    ensures Apply(s, now, op).1 == Apply(s', now, op').1
    ensures View(Apply(s, now, op).0, now) == View(Apply(s', now, op').0, now)
  {
    if op.sid !in s.families && op.jti !in s.members {
      IssueInView(s, s', now, op.jti, op.sid, op.user, op.ttl, op.order, op'.order);
    }
  }

  lemma IssueStaysAlike(w: World, w': World, e: Event, e': Event)
    requires Alike(w, w') && Legal(w, e) && Legal(w', e') && SameRequest(w, w', e, e') && e.op.DoIssue?
    ensures ReplyTo(w, e) == ReplyTo(w', e')
    ensures View(Next(w, e).store, e.now) == View(Next(w', e').store, e.now)
  {
    SameViewAt(w, w', e.now);
    SameClashes(w, w', e.op.jti);
    SameSids(w, w', e.op.sid);
    NoOrphansIn(w);
    NoOrphansIn(w');
    SameRanks(w, w', e, e');
    IssueOnStores(w.store, w'.store, e.now, e.op, e'.op);
  }

  lemma SameRanks(w: World, w': World, e: Event, e': Event)
    requires Legal(w, e) && Legal(w', e') && SameRequest(w, w', e, e') && e.op.DoIssue?
    requires View(w.store, e.now) == View(w'.store, e.now)
    ensures LiveRanks(w.store, e.now, e.op.order) == LiveRanks(w'.store, e.now, e'.op.order)
    ensures e'.op == e.op.(order := e'.op.order)
  {
    if e.op == e'.op {
      SameRanksOf(w.store, w'.store, e.now, e.op.order);
    } else if RankingDetermined(w, e) && RankingDetermined(w', e') {
      RanksAreDetermined(w.store, w'.store, e.now, e.op.user, e.op.sid, e.op.order, e'.op.order);
    }
  }

  lemma {:induction false} SameRanksOf(s: Store, s': Store, now: Time, order: seq<Sid>)
    requires View(s, now) == View(s', now)
    ensures LiveRanks(s, now, order) == LiveRanks(s', now, order)
  {
    if order != [] {
      assert Live(s, order[0], now) <==> order[0] in View(s, now).families;
      assert Live(s', order[0], now) <==> order[0] in View(s', now).families;
      SameRanksOf(s, s', now, order[1..]);
    }
  }

  lemma RevokesStayAlike(s: Store, s': Store, now: Time, sid: Sid, user: int, keep: set<Sid>)
    requires View(s, now) == View(s', now)
    ensures Revoke(s, now, sid).1 == Revoke(s', now, sid).1
    ensures View(Revoke(s, now, sid).0, now) == View(Revoke(s', now, sid).0, now)
    ensures View(RevokeUser(s, user, keep).0, now) == View(RevokeUser(s', user, keep).0, now)
  {
    var v := View(s, now);
    assert Live(s, sid, now) <==> sid in v.families;
    assert Live(s', sid, now) <==> sid in View(s', now).families;
    DropInView(s, {sid}, now);
    DropInView(s', {sid}, now);
    if Live(s, sid, now) {
      assert MembersOf(s, sid) == MembersOf(v, sid);
      assert MembersOf(s', sid) == MembersOf(View(s', now), sid);
    }
    var gone, gone' := FamiliesToRevoke(s, user, keep), FamiliesToRevoke(s', user, keep);
    DropInView(s, gone, now);
    DropInView(s', gone', now);
    ViewOfView(s, now, now);
    forall x | Live(v, x, now) ensures x in gone <==> x in gone' {
      assert x in View(s, now).families && x in View(s', now).families;
    }
    DropSameLive(v, now, gone, gone');
  }

  lemma LookupsStayAlike(s: Store, s': Store, now: Time, op: Op)
    requires View(s, now) == View(s', now)
    requires op.DoGrace? || op.DoValidate? || op.DoFamilyExists? || op.DoFamilyMember?
    ensures Apply(s, now, op).1 == Apply(s', now, op).1 && Apply(s, now, op).0 == s && Apply(s', now, op).0 == s'
  {
    match op
    case DoGrace(jti) => GraceInView(s, now, jti); GraceInView(s', now, jti);
    case DoValidate(jti) => ReadsSeeTheView(s, now, "", jti); ReadsSeeTheView(s', now, "", jti);
    case DoFamilyExists(sid) => ReadsSeeTheView(s, now, sid, ""); ReadsSeeTheView(s', now, sid, "");
    case DoFamilyMember(sid, jti) => ReadsSeeTheView(s, now, sid, jti); ReadsSeeTheView(s', now, sid, jti);
  }

  lemma OpsStayAlike(w: World, w': World, e: Event, e': Event)
    requires Alike(w, w') && Legal(w, e) && Legal(w', e') && e == e' && !e.op.DoPurge? && !e.op.DoIssue?
    requires Presented(w, e) && Presented(w', e')
    ensures Observed(w, e) == Observed(w', e')
    ensures View(Next(w, e).store, e.now) == View(Next(w', e').store, e.now)
  {
    var s, s', now := w.store, w'.store, e.now;
    SameViewAt(w, w', now);
    match e.op
    case DoRotate(old_, new_, sid, user, ttl) =>
      SameClashes(w, w', new_);
      RotateInView(s, s', now, old_, new_, sid, user, ttl);
    case DoRevoke(sid) => RevokesStayAlike(s, s', now, sid, 0, {});
    case DoRevokeUser(user, keep) => RevokesStayAlike(s, s', now, "", user, keep);
    case DoDetect(jti, sid) => DetectInView(s, now, jti, sid); DetectInView(s', now, jti, sid);
    case _ => LookupsStayAlike(s, s', now, e.op);
  }

  lemma SameRecord(w: World, w': World, e: Event, e': Event)
    requires w.issued == w'.issued && SameRequest(w, w', e, e') && Observed(w, e) == Observed(w', e')
    ensures Next(w, e).issued == Next(w', e').issued
  {
  }

  lemma StepStaysAlike(w: World, w': World, e: Event, e': Event)
    requires Alike(w, w') && Legal(w, e) && Legal(w', e') && SameRequest(w, w', e, e') && !e.op.DoPurge?
    requires !e'.op.DoPurge?
    requires Presented(w, e) && Presented(w', e')
    ensures Observed(w, e) == Observed(w', e')
    ensures Alike(Next(w, e), Next(w', e'))
  {
    StepKeepsInv(w, e);
    StepKeepsInv(w', e');
    if e.op.DoIssue? { IssueStaysAlike(w, w', e, e'); } else { OpsStayAlike(w, w', e, e'); }
    SameRecord(w, w', e, e');
  }

  ghost predicate AllPresented(w: World, run: seq<Event>)
    decreases |run|
  {
    run == [] || (Presented(w, run[0]) && AllPresented(Next(w, run[0]), run[1..]))
  }

  /** Every answer, of validate, grace, family_exists, family_member, rotate, detect, issue and revoke, is the
      same with the purges as without them; and so is the number of live families a revoke_user finds. */
  lemma {:induction false} PurgeIsInvisible(w: World, w': World, run: seq<Event>, run': seq<Event>)
    requires Alike(w, w') && Twins(w, w', run, run')
    requires LegalRun(w, run) && LegalRun(w', run') && AllPresented(w, run) && AllPresented(w', run')
    ensures ObservedReplies(w, run) == ObservedReplies(w', run')
    decreases |run|
  {
    if run != [] {
      if run[0].op.DoPurge? {
        StepKeepsInv(w, run[0]);
        SameViewAt(w, w', run[0].now);
        PurgeKeepsView(w.store, run[0].now, run[0].op.stale);
        PurgeIsInvisible(Next(w, run[0]), w', run[1..], run');
      } else {
        StepStaysAlike(w, w', run[0], run'[0]);
        PurgeIsInvisible(Next(w, run[0]), Next(w', run'[0]), run[1..], run'[1..]);
      }
    }
  }
}
