/**
 Whole runs of the session store. Beside the rows, a `World` keeps what the database forgets: every
 jti ever issued to every sid, in order, with its creation time.
 */
module SessionHistory {
  import opened Instants
  import opened SessionFamilies

  datatype Entry = Entry(jti: Jti, created: Time)

  datatype World = World(store: Store, issued: map<Sid, seq<Entry>>, clock: Time)

  datatype Op =
    | DoIssue(jti: Jti, sid: Sid, user: int, ttl: int, order: seq<Sid>)
    | DoRotate(old_: Jti, new_: Jti, sid: Sid, user: int, ttl: int)
    | DoRevoke(sid: Sid)
    | DoRevokeUser(user: int, keep: set<Sid>)
    | DoDetect(jti: Jti, sid: Sid)
    | DoPurge(stale: set<Sid>)
    | DoValidate(jti: Jti)
    | DoGrace(jti: Jti)
    | DoFamilyExists(sid: Sid)
    | DoFamilyMember(sid: Sid, jti: Jti)

  datatype Reply =
    | IssueReplied(issue: IssueReply)
    | RotateReplied(rotate: RotateReply)
    | RevokeReplied(jtis: seq<Jti>)
    | RevokeUserReplied(count: int)
    | DetectReplied(detect: ReuseReply)
    | PurgeReplied
    | ValidateReplied(session: Lookup)
    | GraceReplied(grace: GraceLookup)
    | BoolReplied(yes: bool)

  /** One transaction, at the instant `now` of the database clock. */
  datatype Event = Event(now: Time, op: Op)

  ghost function Apply(s: Store, now: Time, op: Op): (Store, Reply) {
    match op
    case DoIssue(jti, sid, user, ttl, order) =>
      var r := Issue(s, now, jti, sid, user, ttl, order); (r.0, IssueReplied(r.1))
    case DoRotate(old_, new_, sid, user, ttl) =>
      var r := Rotate(s, now, old_, new_, sid, user, ttl); (r.0, RotateReplied(r.1))
    case DoRevoke(sid) =>
      var r := Revoke(s, now, sid); (r.0, RevokeReplied(r.1))
    case DoRevokeUser(user, keep) =>
      var r := RevokeUser(s, user, keep); (r.0, RevokeUserReplied(r.1))
    case DoDetect(jti, sid) =>
      var r := Detect(s, now, jti, sid); (r.0, DetectReplied(r.1))
    case DoPurge(stale) => (Drop(s, stale), PurgeReplied)
    case DoValidate(jti) => (s, ValidateReplied(Validate(s, now, jti)))
    case DoGrace(jti) => (s, GraceReplied(Grace(s, now, jti)))
    case DoFamilyExists(sid) => (s, BoolReplied(FamilyExists(s, now, sid)))
    case DoFamilyMember(sid, jti) => (s, BoolReplied(FamilyMember(s, now, sid, jti)))
  }

  ghost function ReplyTo(w: World, e: Event): Reply {
    Apply(w.store, e.now, e.op).1
  }

  ghost function Recorded(w: World, e: Event): map<Sid, seq<Entry>> {
    var reply := ReplyTo(w, e);
    if e.op.DoIssue? && reply == IssueReplied(Issued) then
      w.issued[e.op.sid := [Entry(e.op.jti, e.now)]]
    else if e.op.DoRotate? && reply == RotateReplied(Rotated) && e.op.sid in w.issued then
      w.issued[e.op.sid := w.issued[e.op.sid] + [Entry(e.op.new_, e.now)]]
    else w.issued
  }

  ghost function Next(w: World, e: Event): World {
    World(Apply(w.store, e.now, e.op).0, Recorded(w, e), e.now)
  }

  ghost predicate NeverIssued(issued: map<Sid, seq<Entry>>, jti: Jti) {
    forall sid, k | sid in issued && 0 <= k < |issued[sid]| :: issued[sid][k].jti != jti
  }

  /** The clock does not go back, minted ids were never used before (a clash can only be with a row
      that is still there), and queries answer with rows they may pick. */
  ghost predicate Legal(w: World, e: Event) {
    && w.clock <= e.now
    && match e.op
       case DoIssue(jti, sid, user, ttl, order) =>
         && (sid in w.store.families || sid !in w.issued)
         && (jti in w.store.members || NeverIssued(w.issued, jti))
         && ByExpiry(w.store, user, sid, order)
       case DoRotate(old_, new_, sid, user, ttl) => new_ in w.store.members || NeverIssued(w.issued, new_)
       case DoPurge(stale) => Purgeable(w.store, e.now, stale)
       case _ => true
  }

  ghost predicate LegalRun(w: World, run: seq<Event>)
    decreases |run|
  {
    run == [] || (Legal(w, run[0]) && LegalRun(Next(w, run[0]), run[1..]))
  }

  ghost function After(w: World, run: seq<Event>): World
    decreases |run|
  {
    if run == [] then w else After(Next(w, run[0]), run[1..])
  }

  ghost function Replies(w: World, run: seq<Event>): (r: seq<Reply>)
    ensures |r| == |run|
    decreases |run|
  {
    if run == [] then [] else [ReplyTo(w, run[0])] + Replies(Next(w, run[0]), run[1..])
  }

  const GENESIS := World(EMPTY, map[], 0)

  // ---- the invariant ----

  /** Numbers still stored for a family rotated `rotations` times. */
  predicate Kept(rotations: int, k: int) {
    0 <= k <= rotations && rotations - KEEP_MEMBERS < k
  }

  ghost predicate Ordered(chain: seq<Entry>, clock: Time) {
    && (forall i, j | 0 <= i <= j < |chain| :: chain[i].created <= chain[j].created)
    && (forall i | 0 <= i < |chain| :: chain[i].created <= clock)
  }

  ghost predicate FamilyOk(s: Store, sid: Sid, chain: seq<Entry>)
    requires sid in s.families
  {
    var f := s.families[sid];
    && |chain| == f.rotations + 1
    && chain[f.rotations].jti == f.head
    && forall k | Kept(f.rotations, k) ::
         chain[k].jti in s.members && s.members[chain[k].jti] == Member(sid, k, chain[k].created)
  }

  ghost predicate MemberOk(s: Store, issued: map<Sid, seq<Entry>>, jti: Jti)
    requires jti in s.members
  {
    var m := s.members[jti];
    && m.sid in s.families && m.sid in issued
    && Kept(s.families[m.sid].rotations, m.number)
    && m.number < |issued[m.sid]|
    && issued[m.sid][m.number].jti == jti
  }

  ghost predicate NoSharedJti(issued: map<Sid, seq<Entry>>) {
    forall a, b, i, j | a in issued && b in issued && 0 <= i < |issued[a]| && 0 <= j < |issued[b]|
                        && issued[a][i].jti == issued[b][j].jti :: a == b && i == j
  }

  ghost predicate AllOrdered(issued: map<Sid, seq<Entry>>, clock: Time) {
    forall sid | sid in issued :: Ordered(issued[sid], clock)
  }

  ghost predicate FamiliesOk(s: Store, issued: map<Sid, seq<Entry>>) {
    forall sid | sid in s.families :: sid in issued && FamilyOk(s, sid, issued[sid])
  }

  ghost predicate MembersOk(s: Store, issued: map<Sid, seq<Entry>>) {
    forall jti | jti in s.members :: MemberOk(s, issued, jti)
  }

  ghost predicate Inv(w: World) {
    && AllOrdered(w.issued, w.clock)
    && NoSharedJti(w.issued)
    && FamiliesOk(w.store, w.issued)
    && MembersOk(w.store, w.issued)
  }

  // ---- every step keeps it ----

  lemma DropKeepsRows(s: Store, issued: map<Sid, seq<Entry>>, sids: set<Sid>)
    requires FamiliesOk(s, issued) && MembersOk(s, issued)
    ensures FamiliesOk(Drop(s, sids), issued) && MembersOk(Drop(s, sids), issued)
  {
    var s' := Drop(s, sids);
    forall sid | sid in s'.families ensures sid in issued && FamilyOk(s', sid, issued[sid]) {
      assert FamilyOk(s, sid, issued[sid]);
    }
    forall jti | jti in s'.members ensures MemberOk(s', issued, jti) {
      assert MemberOk(s, issued, jti);
    }
  }

  lemma NeverIssuedIsNoMember(s: Store, issued: map<Sid, seq<Entry>>, jti: Jti)
    requires MembersOk(s, issued) && NeverIssued(issued, jti)
    ensures jti !in s.members
  {
  }

  lemma InsertKeepsRows(s: Store, issued: map<Sid, seq<Entry>>, now: Time, jti: Jti, sid: Sid, user: int, ttl: int)
    requires FamiliesOk(s, issued) && MembersOk(s, issued)
    requires sid !in issued && NeverIssued(issued, jti)
    ensures var s' := Insert(s, now, jti, sid, user, ttl); var issued' := issued[sid := [Entry(jti, now)]];
      FamiliesOk(s', issued') && MembersOk(s', issued')
  {
    var s' := Insert(s, now, jti, sid, user, ttl);
    var issued' := issued[sid := [Entry(jti, now)]];
    NeverIssuedIsNoMember(s, issued, jti);
    forall x | x in s'.families ensures x in issued' && FamilyOk(s', x, issued'[x]) {
      if x != sid { assert FamilyOk(s, x, issued[x]); }
    }
    forall j | j in s'.members ensures MemberOk(s', issued', j) {
      if j != jti { assert MemberOk(s, issued, j); }
    }
  }

  /** A head's successor number is free, so the (sid, seq) backstop never fires. */
  lemma SuccessorNumberIsFree(s: Store, issued: map<Sid, seq<Entry>>, sid: Sid)
    requires MembersOk(s, issued) && sid in s.families
    ensures !NumberTaken(s, sid, s.families[sid].rotations + 1)
  {
    forall jti | jti in s.members && s.members[jti].sid == sid
      ensures s.members[jti].number != s.families[sid].rotations + 1
    {
      assert MemberOk(s, issued, jti);
    }
  }

  lemma AppendKeepsFamily(s: Store, issued: map<Sid, seq<Entry>>, now: Time, jti: Jti, sid: Sid, ttl: int, x: Sid)
    requires FamiliesOk(s, issued) && MembersOk(s, issued)
    requires sid in s.families && NeverIssued(issued, jti)
    requires x in s.families
    ensures var issued' := issued[sid := issued[sid] + [Entry(jti, now)]];
      FamilyOk(Append(s, now, jti, sid, ttl), x, issued'[x])
  {
    NeverIssuedIsNoMember(s, issued, jti);
    assert FamilyOk(s, x, issued[x]);
  }

  lemma AppendKeepsRows(s: Store, issued: map<Sid, seq<Entry>>, now: Time, jti: Jti, sid: Sid, ttl: int)
    requires FamiliesOk(s, issued) && MembersOk(s, issued)
    requires sid in s.families && NeverIssued(issued, jti)
    ensures var s' := Append(s, now, jti, sid, ttl); var issued' := issued[sid := issued[sid] + [Entry(jti, now)]];
      FamiliesOk(s', issued') && MembersOk(s', issued')
  {
    var s' := Append(s, now, jti, sid, ttl);
    var issued' := issued[sid := issued[sid] + [Entry(jti, now)]];
    forall x | x in s'.families ensures x in issued' && FamilyOk(s', x, issued'[x]) {
      AppendKeepsFamily(s, issued, now, jti, sid, ttl, x);
    }
    assert FamilyOk(s, sid, issued[sid]);
    forall j | j in s'.members ensures MemberOk(s', issued', j) {
      if j != jti { assert MemberOk(s, issued, j); }
    }
  }

  predicate CreatedBy(chain: seq<Entry>, now: Time) {
    forall i | 0 <= i < |chain| :: chain[i].created <= now
  }

  /** A later clock is later than every entry. */
  lemma OrderedLater(issued: map<Sid, seq<Entry>>, clock: Time, later: Time)
    requires AllOrdered(issued, clock) && clock <= later
    ensures AllOrdered(issued, later)
    ensures forall sid | sid in issued :: CreatedBy(issued[sid], later)
  {
    forall sid | sid in issued ensures Ordered(issued[sid], later) && CreatedBy(issued[sid], later) {
      assert Ordered(issued[sid], clock);
    }
  }

  function ChainOf(issued: map<Sid, seq<Entry>>, sid: Sid): seq<Entry> {
    if sid in issued then issued[sid] else []
  }

  lemma NewJtiIsUnshared(issued: map<Sid, seq<Entry>>, e: Entry, sid: Sid)
    requires NoSharedJti(issued) && NeverIssued(issued, e.jti)
    ensures NoSharedJti(issued[sid := ChainOf(issued, sid) + [e]])
  {
    var chain := ChainOf(issued, sid);
    var issued': map<Sid, seq<Entry>> := issued[sid := chain + [e]];
    forall a, b, i, j | a in issued' && b in issued' && 0 <= i < |issued'[a]| && 0 <= j < |issued'[b]|
                        && issued'[a][i].jti == issued'[b][j].jti
      ensures a == b && i == j
    {
      var newA, newB := a == sid && i == |chain|, b == sid && j == |chain|;
      if !newA { assert a in issued && issued'[a][i] == issued[a][i]; }
      if !newB { assert b in issued && issued'[b][j] == issued[b][j]; }
    }
  }

  /** A new jti, created no earlier than the rest of its chain and no later than the clock. */
  lemma GrowKeepsChains(issued: map<Sid, seq<Entry>>, clock: Time, now: Time, jti: Jti, sid: Sid)
    requires AllOrdered(issued, clock) && NoSharedJti(issued) && NeverIssued(issued, jti)
    requires CreatedBy(ChainOf(issued, sid), now) && now <= clock
    ensures var issued' := issued[sid := ChainOf(issued, sid) + [Entry(jti, now)]];
      AllOrdered(issued', clock) && NoSharedJti(issued')
  {
    var issued' := issued[sid := ChainOf(issued, sid) + [Entry(jti, now)]];
    NewJtiIsUnshared(issued, Entry(jti, now), sid);
    forall x | x in issued' ensures Ordered(issued'[x], clock) {
      if x in issued { assert Ordered(issued[x], clock); }
    }
  }

  lemma IssueKeepsInv(w: World, e: Event)
    requires Inv(w) && Legal(w, e) && e.op.DoIssue? && ReplyTo(w, e) == IssueReplied(Issued)
    ensures Inv(Next(w, e))
  {
    var DoIssue(jti, sid, user, ttl, order) := e.op;
    InsertKeepsRows(w.store, w.issued, e.now, jti, sid, user, ttl);
    assert [] + [Entry(jti, e.now)] == [Entry(jti, e.now)];
    OrderedLater(w.issued, w.clock, e.now);
    GrowKeepsChains(w.issued, e.now, e.now, jti, sid);
    DropKeepsRows(Insert(w.store, e.now, jti, sid, user, ttl), w.issued[sid := [Entry(jti, e.now)]], Evicted(order));
  }

  lemma RotatedMeans(w: World, e: Event)
    requires e.op.DoRotate? && ReplyTo(w, e) == RotateReplied(Rotated)
    ensures Live(w.store, e.op.sid, e.now) && IsMemberOf(w.store, e.op.sid, e.op.old_)
    ensures w.store.families[e.op.sid].head == e.op.old_ && w.store.families[e.op.sid].user == e.op.user
    ensures e.op.new_ !in w.store.members
    ensures Next(w, e).store == Append(w.store, e.now, e.op.new_, e.op.sid, e.op.ttl)
  {
  }

  lemma RotateKeepsInv(w: World, e: Event)
    requires Inv(w) && Legal(w, e) && e.op.DoRotate? && ReplyTo(w, e) == RotateReplied(Rotated)
    ensures Inv(Next(w, e))
  {
    RotatedMeans(w, e);
    AppendKeepsRows(w.store, w.issued, e.now, e.op.new_, e.op.sid, e.op.ttl);
    OrderedLater(w.issued, w.clock, e.now);
    GrowKeepsChains(w.issued, e.now, e.now, e.op.new_, e.op.sid);
  }

  /** What a step may drop, when it appends nothing. */
  ghost function Dropped(w: World, e: Event): set<Sid> {
    match e.op
    case DoRevoke(sid) => if Live(w.store, sid, e.now) then {sid} else {}
    case DoRevokeUser(user, keep) => FamiliesToRevoke(w.store, user, keep)
    case DoDetect(jti, sid) => if Detect(w.store, e.now, jti, sid).1.Reused? then {sid} else {}
    case DoPurge(stale) => stale
    case _ => {}
  }

  ghost predicate Appends(w: World, e: Event) {
    ReplyTo(w, e) == IssueReplied(Issued) || ReplyTo(w, e) == RotateReplied(Rotated)
  }

  lemma OtherStepsOnlyDrop(w: World, e: Event)
    requires !Appends(w, e)
    ensures Next(w, e) == World(Drop(w.store, Dropped(w, e)), w.issued, e.now)
  {
    assert Drop(w.store, {}) == w.store;
  }

  lemma StepKeepsInv(w: World, e: Event)
    requires Inv(w) && Legal(w, e)
    ensures Inv(Next(w, e))
  {
    if Appends(w, e) {
      if e.op.DoIssue? { IssueKeepsInv(w, e); } else { RotateKeepsInv(w, e); }
    } else {
      OtherStepsOnlyDrop(w, e);
      OrderedLater(w.issued, w.clock, e.now);
      DropKeepsRows(w.store, w.issued, Dropped(w, e));
    }
  }

  lemma {:induction false} RunKeepsInv(w: World, run: seq<Event>)
    requires Inv(w) && LegalRun(w, run)
    ensures Inv(After(w, run))
    decreases |run|
  {
    if run != [] {
      StepKeepsInv(w, run[0]);
      RunKeepsInv(Next(w, run[0]), run[1..]);
    }
  }

  /** A stored member is its place on the chain. */
  lemma MemberOnChain(w: World, sid: Sid, a: Jti)
    requires Inv(w) && sid in w.store.families && IsMemberOf(w.store, sid, a)
    ensures var m := w.store.members[a];
      && Kept(w.store.families[sid].rotations, m.number) && m.number < |w.issued[sid]|
      && w.issued[sid][m.number] == Entry(a, m.created)
  {
    assert MemberOk(w.store, w.issued, a);
    assert FamilyOk(w.store, sid, w.issued[sid]);
  }

  lemma KeptIsStored(w: World, sid: Sid, k: int)
    requires Inv(w) && sid in w.store.families
    ensures NumberTaken(w.store, sid, k) <==> Kept(w.store.families[sid].rotations, k)
  {
    var s, chain := w.store, w.issued[sid];
    assert FamilyOk(s, sid, chain);
    if Kept(s.families[sid].rotations, k) { assert s.members[chain[k].jti] == Member(sid, k, chain[k].created); }
    if NumberTaken(s, sid, k) {
      var jti :| jti in s.members && s.members[jti].sid == sid && s.members[jti].number == k;
      MemberOnChain(w, sid, jti);
    }
  }

  lemma HeadOnTop(w: World, sid: Sid)
    requires Inv(w) && sid in w.store.families
    ensures var f := w.store.families[sid];
      IsMemberOf(w.store, sid, f.head) && w.store.members[f.head].number == f.rotations
  {
    assert FamilyOk(w.store, sid, w.issued[sid]);
    assert Kept(w.store.families[sid].rotations, w.store.families[sid].rotations);
  }

  lemma MembersInOrder(w: World, sid: Sid, a: Jti, b: Jti)
    requires Inv(w) && sid in w.store.families && IsMemberOf(w.store, sid, a) && IsMemberOf(w.store, sid, b)
    requires w.store.members[a].number <= w.store.members[b].number
    ensures w.store.members[a].created <= w.store.members[b].created
    ensures w.store.members[a].number == w.store.members[b].number ==> a == b
  {
    MemberOnChain(w, sid, a);
    MemberOnChain(w, sid, b);
    assert Ordered(w.issued[sid], w.clock);
  }

  /** The numbers max(0, rotations - 999) .. rotations, and no other. */
  ghost predicate ExactWindow(s: Store, sid: Sid)
    requires sid in s.families
  {
    var top := s.families[sid].rotations;
    forall k: int :: NumberTaken(s, sid, k) <==> (if top >= 999 then top - 999 else 0) <= k <= top
  }

  /** Each number once, and creation times that never decrease along the numbers. */
  ghost predicate CreatedInOrder(s: Store, sid: Sid) {
    forall a, b | IsMemberOf(s, sid, a) && IsMemberOf(s, sid, b) && s.members[a].number <= s.members[b].number ::
      s.members[a].created <= s.members[b].created && (s.members[a].number == s.members[b].number ==> a == b)
  }

  ghost predicate NoOrphans(s: Store) {
    forall j | j in s.members :: s.members[j].sid in s.families
  }

  lemma WindowIsExact(w: World, sid: Sid)
    requires Inv(w) && sid in w.store.families
    ensures ExactWindow(w.store, sid)
  {
    forall k: int ensures NumberTaken(w.store, sid, k) <==> Kept(w.store.families[sid].rotations, k) {
      KeptIsStored(w, sid, k);
    }
  }

  lemma CreationIsInOrder(w: World, sid: Sid)
    requires Inv(w) && sid in w.store.families
    ensures CreatedInOrder(w.store, sid)
  {
    var s := w.store;
    forall a, b | IsMemberOf(s, sid, a) && IsMemberOf(s, sid, b) && s.members[a].number <= s.members[b].number
      ensures s.members[a].created <= s.members[b].created && (s.members[a].number == s.members[b].number ==> a == b)
    {
      MembersInOrder(w, sid, a, b);
    }
  }

  lemma NoOrphansIn(w: World)
    requires Inv(w)
    ensures NoOrphans(w.store)
  {
    forall j | j in w.store.members ensures w.store.members[j].sid in w.store.families {
      assert MemberOk(w.store, w.issued, j);
    }
  }

  /** In every reachable state a family stores exactly the numbers max(0, rotations - 999) .. rotations, each once,
      created in order; its head is the member numbered `rotations`; and no member row lacks its family. */
  lemma ReachableShape(run: seq<Event>, sid: Sid)
    requires LegalRun(GENESIS, run) && sid in After(GENESIS, run).store.families
    ensures var s := After(GENESIS, run).store;
      && ExactWindow(s, sid) && CreatedInOrder(s, sid) && NoOrphans(s)
      && IsMemberOf(s, sid, s.families[sid].head) && s.members[s.families[sid].head].number == s.families[sid].rotations
  {
    RunKeepsInv(GENESIS, run);
    var w := After(GENESIS, run);
    WindowIsExact(w, sid);
    CreationIsInOrder(w, sid);
    NoOrphansIn(w);
    HeadOnTop(w, sid);
  }
}
