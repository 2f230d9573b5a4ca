/** Every schedule of SessionRaces is serial in its effects. */
module SessionSerial {
  import opened Instants
  import opened SessionFamilies
  import opened SessionHistory
  import opened SessionRaces

  /** The sid that the requests of a run tie a jti to, in one signed token. A stored row may sit elsewhere: that is the
      collision a rotation rolls back on. */
  type Home = Jti -> Sid

  predicate TaskOk(op: Op, home: Home) {
    && Racing(op)
    && (op.DoRotate? ==> home(op.new_) == op.sid)
    && (op.DoDetect? ==> home(op.jti) == op.sid)
  }

  /** A presented jti that is stored is stored for the sid it is presented with. */
  predicate PresentedOk(s: Store, op: Op) {
    op.DoDetect? && op.jti in s.members ==> s.members[op.jti].sid == op.sid
  }

  /** Both stores hold the same rows of family `x`. */
  ghost predicate SameAt(s: Store, s': Store, x: Sid) {
    && (x in s.families <==> x in s'.families)
    && (x in s.families ==> s.families[x] == s'.families[x])
    && (forall j :: IsMemberOf(s, x, j) <==> IsMemberOf(s', x, j))
    && (forall j | IsMemberOf(s, x, j) :: s.members[j] == s'.members[j])
  }

  /** Member rows stay or go; a new one is its own family's, among those touched. */
  ghost predicate Arrivals(s: Store, s': Store, touched: set<Sid>, home: Home) {
    forall j | j in s'.members ::
      if j in s.members then s'.members[j] == s.members[j] else s'.members[j].sid == home(j) && home(j) in touched
  }

  /** Families only go away; none appears or changes its user. */
  ghost predicate Shrinks(s: Store, s': Store) {
    forall x | x in s'.families :: x in s.families && s'.families[x].user == s.families[x].user
  }

  // ---- a transaction depends only on the families it locks ----

  lemma SameMembersOf(s: Store, s': Store, x: Sid)
    requires SameAt(s, s', x)
    ensures MembersOf(s, x) == MembersOf(s', x)
  {
    assert forall j :: j in MembersOf(s, x) <==> IsMemberOf(s, x, j);
    assert forall j :: j in MembersOf(s', x) <==> IsMemberOf(s', x, j);
  }

  lemma SameNumber(s: Store, s': Store, x: Sid, n: int)
    requires SameAt(s, s', x)
    ensures NumberTaken(s, x, n) <==> NumberTaken(s', x, n)
  {
    if j :| j in s.members && s.members[j].sid == x && s.members[j].number == n { assert IsMemberOf(s, x, j); }
    if j :| j in s'.members && s'.members[j].sid == x && s'.members[j].number == n { assert IsMemberOf(s', x, j); }
  }

  lemma SameFreshness(s: Store, s': Store, x: Sid, n: int, since: Time)
    requires SameAt(s, s', x)
    ensures FreshMember(s, x, n, since) <==> FreshMember(s', x, n, since)
  {
    if j :| j in s.members && s.members[j].sid == x && s.members[j].number == n && s.members[j].created > since {
      assert IsMemberOf(s, x, j);
    }
    if j :| j in s'.members && s'.members[j].sid == x && s'.members[j].number == n && s'.members[j].created > since {
      assert IsMemberOf(s', x, j);
    }
  }

  lemma SameDeletes(s: Store, s': Store, x: Sid)
    requires SameAt(s, s', x)
    ensures DeleteWrites(s, {x}) == DeleteWrites(s', {x})
  {
    var w, w' := DeleteWrites(s, {x}), DeleteWrites(s', {x});
    forall j ensures j in w.goneMembers <==> j in w'.goneMembers {
      assert j in w.goneMembers <==> IsMemberOf(s, x, j);
      assert j in w'.goneMembers <==> IsMemberOf(s', x, j);
    }
    assert w.goneFamilies == w'.goneFamilies;
  }

  /** Elsewhere the new jti may go, but must not arrive; an answer that found it taken is not one to keep. */
  lemma RotateIsLocal(s: Store, s': Store, now: Time, op: Op)
    requires op.DoRotate? && SameAt(s, s', op.sid)
    requires op.new_ !in s.members ==> op.new_ !in s'.members
    requires Apply(s, now, op).1 != RotateReplied(JtiCollision)
    ensures Apply(s, now, op).1 == Apply(s', now, op).1 && Effect(s, now, op) == Effect(s', now, op)
  {
    SameRotateReply(s, s', now, op);
    SameRotateEffect(s, s', now, op);
  }

  lemma SameRotateReply(s: Store, s': Store, now: Time, op: Op)
    requires op.DoRotate? && SameAt(s, s', op.sid)
    requires op.new_ !in s.members ==> op.new_ !in s'.members
    requires Apply(s, now, op).1 != RotateReplied(JtiCollision)
    ensures Apply(s, now, op).1 == Apply(s', now, op).1
  {
    assert IsMemberOf(s, op.sid, op.old_) <==> IsMemberOf(s', op.sid, op.old_);
    if op.sid in s.families { SameNumber(s, s', op.sid, s.families[op.sid].rotations + 1); }
  }

  lemma SameRotateEffect(s: Store, s': Store, now: Time, op: Op)
    requires op.DoRotate? && SameAt(s, s', op.sid)
    requires Apply(s, now, op).1 == Apply(s', now, op).1
    ensures Effect(s, now, op) == Effect(s', now, op)
  {
    RotationEffect(s, now, op);
    RotationEffect(s', now, op);
    if op.sid in s.families { SamePruned(s, s', op.sid, s.families[op.sid].rotations + 1 - KEEP_MEMBERS); }
  }

  lemma RotationEffect(s: Store, now: Time, op: Op)
    requires op.DoRotate?
    ensures Apply(s, now, op).1 != RotateReplied(Rotated) ==> Effect(s, now, op) == NOTHING
    ensures Apply(s, now, op).1 == RotateReplied(Rotated) ==>
      && op.sid in s.families && op.new_ !in s.members
      && var f := s.families[op.sid];
      Effect(s, now, op) == RotationWrites(op, now, f, Pruned(s, op.sid, f.rotations + 1 - KEEP_MEMBERS))
  {
  }

  lemma SamePruned(s: Store, s': Store, x: Sid, top: int)
    requires SameAt(s, s', x)
    ensures Pruned(s, x, top) == Pruned(s', x, top)
  {
    forall j ensures j in Pruned(s, x, top) <==> j in Pruned(s', x, top) {
      assert IsMemberOf(s, x, j) <==> IsMemberOf(s', x, j);
    }
  }

  lemma DetectIsLocal(s: Store, s': Store, now: Time, op: Op)
    requires op.DoDetect? && PresentedOk(s, op) && PresentedOk(s', op) && SameAt(s, s', op.sid)
    ensures Apply(s, now, op).1 == Apply(s', now, op).1 && Effect(s, now, op) == Effect(s', now, op)
  {
    assert IsMemberOf(s, op.sid, op.jti) <==> IsMemberOf(s', op.sid, op.jti);
    if IsMemberOf(s, op.sid, op.jti) {
      SameFreshness(s, s', op.sid, s.members[op.jti].number + 1, now - GRACE_TTL);
    }
    SameDeletes(s, s', op.sid);
  }

  lemma RevokeIsLocal(s: Store, s': Store, now: Time, op: Op)
    requires op.DoRevoke? && SameAt(s, s', op.sid)
    ensures Apply(s, now, op).1 == Apply(s', now, op).1 && Effect(s, now, op) == Effect(s', now, op)
  {
    SameMembersOf(s, s', op.sid);
    SameDeletes(s, s', op.sid);
  }

  lemma RevokeUserIsLocal(s: Store, s': Store, now: Time, op: Op)
    requires op.DoRevokeUser?
    requires OfUser(s, op.user) == OfUser(s', op.user)
    requires forall x | x in OfUser(s, op.user) :: SameAt(s, s', x)
    ensures Apply(s, now, op).1 == Apply(s', now, op).1 && Effect(s, now, op) == Effect(s', now, op)
  {
    var gone := FamiliesToRevoke(s, op.user, op.keep);
    SameToRevoke(s, s', op.user, op.keep);
    SameManyDeletes(s, s', gone);
  }

  lemma SameToRevoke(s: Store, s': Store, user: int, keep: set<Sid>)
    requires OfUser(s, user) == OfUser(s', user)
    ensures FamiliesToRevoke(s, user, keep) == FamiliesToRevoke(s', user, keep)
    ensures FamiliesToRevoke(s, user, keep) <= OfUser(s, user)
  {
    assert forall x :: x in FamiliesToRevoke(s, user, keep) <==> x in OfUser(s, user) && x !in keep;
    assert forall x :: x in FamiliesToRevoke(s', user, keep) <==> x in OfUser(s', user) && x !in keep;
  }

  lemma SameManyDeletes(s: Store, s': Store, gone: set<Sid>)
    requires forall x | x in gone :: SameAt(s, s', x)
    ensures DeleteWrites(s, gone) == DeleteWrites(s', gone)
  {
    var w, w' := DeleteWrites(s, gone), DeleteWrites(s', gone);
    forall j ensures j in w.goneMembers <==> j in w'.goneMembers {
      if j in w.goneMembers { assert IsMemberOf(s, s.members[j].sid, j) && SameAt(s, s', s.members[j].sid); }
      if j in w'.goneMembers { assert IsMemberOf(s', s'.members[j].sid, j) && SameAt(s, s', s'.members[j].sid); }
    }
    forall x ensures x in w.goneFamilies <==> x in w'.goneFamilies {
      if x in gone { assert SameAt(s, s', x); }
    }
  }

  /** Everything a transaction may touch. */
  function Targets(s: Store, op: Op): set<Sid> {
    match op
    case DoRotate(_, _, sid, _, _) => {sid}
    case DoRevoke(sid) => {sid}
    case DoDetect(_, sid) => {sid}
    case DoRevokeUser(user, _) => OfUser(s, user)
    case _ => {}
  }

  lemma AppendTouchesOne(s: Store, now: Time, jti: Jti, sid: Sid, ttl: int, home: Home)
    requires sid in s.families && jti !in s.members && home(jti) == sid
    ensures var s' := Append(s, now, jti, sid, ttl);
      Shrinks(s, s') && Arrivals(s, s', {sid}, home) && forall x | x != sid :: SameAt(s, s', x)
  {
  }

  lemma DropTouchesOnly(s: Store, sids: set<Sid>, touched: set<Sid>, home: Home)
    ensures Shrinks(s, Drop(s, sids)) && Arrivals(s, Drop(s, sids), touched, home)
    ensures forall x | x !in sids :: SameAt(s, Drop(s, sids), x)
  {
  }

  lemma NothingTouchesNothing(s: Store, touched: set<Sid>, home: Home)
    ensures Shrinks(s, s) && Arrivals(s, s, touched, home) && forall x :: SameAt(s, s, x)
  {
  }

  lemma RotateTouchesOne(s: Store, now: Time, op: Op, home: Home)
    requires op.DoRotate? && TaskOk(op, home)
    ensures var s' := Apply(s, now, op).0;
      Shrinks(s, s') && Arrivals(s, s', {op.sid}, home) && forall x | x != op.sid :: SameAt(s, s', x)
  {
    if Apply(s, now, op).1 == RotateReplied(Rotated) {
      AppendTouchesOne(s, now, op.new_, op.sid, op.ttl, home);
    } else {
      NothingTouchesNothing(s, {op.sid}, home);
    }
  }

  lemma ApplyTouchesTargets(s: Store, now: Time, op: Op, home: Home)
    requires TaskOk(op, home)
    ensures var s' := Apply(s, now, op).0;
      && Shrinks(s, s') && Arrivals(s, s', Targets(s, op), home)
      && forall x | x !in Targets(s, op) :: SameAt(s, s', x)
  {
    NothingTouchesNothing(s, Targets(s, op), home);
    match op
    case DoRotate(_, _, _, _, _) => RotateTouchesOne(s, now, op, home);
    case DoRevoke(sid) => DropTouchesOnly(s, {sid}, {sid}, home);
    case DoDetect(_, sid) => DropTouchesOnly(s, {sid}, {sid}, home);
    case DoRevokeUser(user, keep) => DropTouchesOnly(s, FamiliesToRevoke(s, user, keep), OfUser(s, user), home);
    case _ =>
  }

  // ---- the invariant ----

  ghost predicate HeldOk(s: Store, op: Op, locks: set<Sid>, fam: Family) {
    && (op.DoRotate? || op.DoRevoke? || op.DoDetect?)
    && locks == {op.sid} && op.sid in s.families && s.families[op.sid] == fam
  }

  ghost predicate ThreadOk(s: Store, th: Thread, locks: set<Sid>, home: Home) {
    var Thread(op, pc, writes) := th;
    TaskOk(op, home) && PresentedOk(s, op) &&
    match pc
    case Start => locks == {} && writes == NOTHING
    case Finished(_) => locks == {} && writes == NOTHING
    case Failed => locks == {} && writes == NOTHING
    case Held(now, fam) => HeldOk(s, op, locks, fam) && writes == NOTHING
    case Known(now, fam, member) =>
      && HeldOk(s, op, locks, fam) && writes == NOTHING && fam.expires > now
      && !op.DoRevoke?
      && (op.DoRotate? ==> fam.user == op.user && member == IsMemberOf(s, op.sid, op.old_))
      && (op.DoDetect? ==> fam.head != op.jti && member == IsMemberOf(s, op.sid, op.jti))
    case Inserted(now, fam) =>
      && HeldOk(s, op, locks, fam) && op.DoRotate? && Apply(s, now, op).1 == RotateReplied(Rotated)
      && writes == Effect(s, now, op).(families := map[], goneMembers := {})
    case Updated(now, fam) =>
      && HeldOk(s, op, locks, fam) && op.DoRotate? && Apply(s, now, op).1 == RotateReplied(Rotated)
      && writes == Effect(s, now, op).(goneMembers := {})
    case Scanning(_) => op.DoRevokeUser? && locks <= OfUser(s, op.user) && writes == NOTHING
    case Ready(now, reply) =>
      && (if op.DoRevokeUser? then locks == OfUser(s, op.user) else locks == {op.sid} && op.sid in s.families)
      && reply == Apply(s, now, op).1 && reply != RotateReplied(JtiCollision) && writes == Effect(s, now, op)
    case RolledBack(_) => op.DoRotate? && locks == {op.sid} && writes == NOTHING
  }

  ghost predicate HasOutcome(pc: Pc, reply: Reply) {
    pc == Finished(reply) || pc == RolledBack(reply)
  }

  /** The history holds each transaction that took effect, once, with the answer it gave. */
  ghost predicate HistoryOk(m: Machine) {
    && (forall i | 0 <= i < |m.history| ::
          m.history[i].tid in m.threads && m.threads[m.history[i].tid].op == m.history[i].op
          && HasOutcome(m.threads[m.history[i].tid].pc, m.history[i].reply))
    && (forall i, j | 0 <= i < j < |m.history| :: m.history[i].tid != m.history[j].tid)
    && (forall t | t in m.threads && (m.threads[t].pc.Finished? || m.threads[t].pc.RolledBack?) ::
          exists i :: 0 <= i < |m.history| && m.history[i].tid == t)
  }

  ghost predicate ThreadsOk(m: Machine, home: Home) {
    && (forall x | x in m.owner :: m.owner[x] in m.threads)
    && (forall t | t in m.threads :: ThreadOk(m.db, m.threads[t], LockedBy(m, t), home))
  }

  ghost predicate MachineOk(m: Machine, s0: Store, home: Home) {
    && ThreadsOk(m, home)
    && HistoryOk(m)
    && Replay(s0, m.history) == m.db && Serial(s0, m.history)
  }

  lemma RecordAppends(s0: Store, h: seq<Done>, d: Done)
    requires Serial(s0, h) && d.reply == Apply(Replay(s0, h), d.now, d.op).1
    ensures Serial(s0, h + [d]) && Replay(s0, h + [d]) == Apply(Replay(s0, h), d.now, d.op).0
  {
    assert (h + [d])[..|h|] == h;
    var more := h + [d];
    forall i | 0 <= i < |more| ensures more[i].reply == Apply(Replay(s0, more[..i]), more[i].now, more[i].op).1 {
      if i < |h| { assert more[..i] == h[..i]; }
    }
  }

  // ---- steps that leave the tables alone ----

  /** Thread `t` moves, the tables stay; nobody else's locks change. */
  ghost predicate OnlyThread(m: Machine, m': Machine, t: Tid) {
    && t in m.threads && m'.threads.Keys == m.threads.Keys
    && (forall u | u in m.threads && u != t :: m'.threads[u] == m.threads[u] && LockedBy(m', u) == LockedBy(m, u))
    && (forall x | x in m'.owner :: x in m.owner || m'.owner[x] == t)
    && m'.threads[t].op == m.threads[t].op
  }

  lemma QuietStep(m: Machine, m': Machine, t: Tid, s0: Store, home: Home)
    requires MachineOk(m, s0, home) && OnlyThread(m, m', t) && m'.db == m.db && m'.history == m.history
    requires forall x | x in m'.owner :: m'.owner[x] in m.threads
    requires ThreadOk(m'.db, m'.threads[t], LockedBy(m', t), home)
    requires !m.threads[t].pc.Finished?
    requires if m.threads[t].pc.RolledBack? then m'.threads[t].pc == Finished(m.threads[t].pc.reply)
             else !m'.threads[t].pc.Finished? && !m'.threads[t].pc.RolledBack?
    ensures MachineOk(m', s0, home)
  {
    forall u | u in m'.threads ensures ThreadOk(m'.db, m'.threads[u], LockedBy(m', u), home) {
      if u != t { assert ThreadOk(m.db, m.threads[u], LockedBy(m, u), home); }
    }
    HistoryStands(m, m', t);
  }

  lemma HistoryStands(m: Machine, m': Machine, t: Tid)
    requires HistoryOk(m) && OnlyThread(m, m', t) && m'.history == m.history
    requires !m.threads[t].pc.Finished?
    requires if m.threads[t].pc.RolledBack? then m'.threads[t].pc == Finished(m.threads[t].pc.reply)
             else !m'.threads[t].pc.Finished? && !m'.threads[t].pc.RolledBack?
    ensures HistoryOk(m')
  {
    assert forall i | 0 <= i < |m.history| :: HasOutcome(m.threads[m.history[i].tid].pc, m.history[i].reply);
  }

  /** Thread `t` takes effect without changing the tables: an answer on a missing row, or a rollback. */
  lemma RecordedStep(m: Machine, m': Machine, t: Tid, d: Done, s0: Store, home: Home)
    requires MachineOk(m, s0, home) && OnlyThread(m, m', t) && m'.db == m.db && m'.history == m.history + [d]
    requires forall x | x in m'.owner :: m'.owner[x] in m.threads
    requires ThreadOk(m'.db, m'.threads[t], LockedBy(m', t), home)
    requires !m.threads[t].pc.Finished? && !m.threads[t].pc.RolledBack? && HasOutcome(m'.threads[t].pc, d.reply)
    requires d.tid == t && d.op == m.threads[t].op && Apply(m.db, d.now, d.op) == (m.db, d.reply)
    ensures MachineOk(m', s0, home)
  {
    RecordAppends(s0, m.history, d);
    forall u | u in m'.threads ensures ThreadOk(m'.db, m'.threads[u], LockedBy(m', u), home) {
      if u != t { assert ThreadOk(m.db, m.threads[u], LockedBy(m, u), home); }
    }
    HistoryGrows(m, m', t, d);
  }

  lemma HistoryGrows(m: Machine, m': Machine, t: Tid, d: Done)
    requires HistoryOk(m) && OnlyThread(m, m', t) && m'.history == m.history + [d]
    requires !m.threads[t].pc.Finished? && !m.threads[t].pc.RolledBack? && HasOutcome(m'.threads[t].pc, d.reply)
    requires d.tid == t && d.op == m.threads[t].op
    ensures HistoryOk(m')
  {
    forall i | 0 <= i < |m.history| ensures m.history[i].tid != t {}
    forall u | u in m'.threads && (m'.threads[u].pc.Finished? || m'.threads[u].pc.RolledBack?)
      ensures exists i :: 0 <= i < |m'.history| && m'.history[i].tid == u
    {
      if u == t {
        assert m'.history[|m.history|].tid == u;
      } else {
        var i :| 0 <= i < |m.history| && m.history[i].tid == u;
        assert m'.history[i].tid == u;
      }
    }
  }

  lemma LocksAfterAt(m: Machine, t: Tid, pc: Pc, w: Writes)
    requires t in m.threads
    ensures var m' := At(m, t, pc, w);
      OnlyThread(m, m', t) && m'.db == m.db && m'.owner == m.owner && m'.history == m.history
    ensures forall u :: LockedBy(At(m, t, pc, w), u) == LockedBy(m, u)
  {
  }

  lemma LocksAfterRelease(m: Machine, t: Tid, pc: Pc)
    requires t in m.threads
    ensures var m' := At(m, t, pc, NOTHING).(owner := Released(m, t));
      OnlyThread(m, m', t) && LockedBy(m', t) == {} && m'.owner.Values <= m.owner.Values
  {
    var m' := At(m, t, pc, NOTHING).(owner := Released(m, t));
    forall u | u != t ensures LockedBy(m', u) == LockedBy(m, u) {
      assert forall x :: x in LockedBy(m', u) <==> x in LockedBy(m, u);
    }
  }

  lemma LocksAfterTaking(m: Machine, m': Machine, t: Tid, x: Sid)
    requires t in m.threads && x !in m.owner && m'.owner == m.owner[x := t]
    ensures LockedBy(m', t) == LockedBy(m, t) + {x}
    ensures forall u | u != t :: LockedBy(m', u) == LockedBy(m, u)
  {
    forall u | u != t ensures LockedBy(m', u) == LockedBy(m, u) {
      assert forall y :: y in LockedBy(m', u) <==> y in LockedBy(m, u);
    }
  }

  lemma NoRowAnswer(s: Store, now: Time, op: Op)
    requires (op.DoRotate? || op.DoRevoke? || op.DoDetect?) && op.sid !in s.families
    ensures Apply(s, now, op) == (s, NoRowReply(op))
  {
  }

  predicate Running(pc: Pc) {
    !pc.Finished? && !pc.RolledBack?
  }

  /** Thread `t` moves on, taking no lock. */
  lemma MovedStep(m: Machine, t: Tid, clock: Time, pc: Pc, w: Writes, s0: Store, home: Home)
    requires MachineOk(m, s0, home) && t in m.threads && Running(m.threads[t].pc) && Running(pc)
    requires ThreadOk(m.db, Thread(m.threads[t].op, pc, w), LockedBy(m, t), home)
    ensures MachineOk(At(m, t, pc, w).(clock := clock), s0, home)
  {
    LocksAfterAt(m, t, pc, w);
    var m' := At(m, t, pc, w).(clock := clock);
    assert forall u :: LockedBy(m', u) == LockedBy(At(m, t, pc, w), u);
    QuietStep(m, m', t, s0, home);
  }

  /** Thread `t` moves on with one more lock. */
  lemma TakenStep(m: Machine, t: Tid, clock: Time, x: Sid, pc: Pc, s0: Store, home: Home)
    requires MachineOk(m, s0, home) && t in m.threads && Running(m.threads[t].pc) && Running(pc) && x !in m.owner
    requires ThreadOk(m.db, Thread(m.threads[t].op, pc, NOTHING), LockedBy(m, t) + {x}, home)
    ensures MachineOk(At(m, t, pc, NOTHING).(clock := clock, owner := m.owner[x := t]), s0, home)
  {
    var m' := At(m, t, pc, NOTHING).(clock := clock, owner := m.owner[x := t]);
    LocksAfterTaking(m, m', t, x);
    QuietStep(m, m', t, s0, home);
  }

  lemma BeginMissing(m: Machine, t: Tid, now: Time, s0: Store, home: Home)
    requires MachineOk(m, s0, home) && t in m.threads && m.threads[t].pc.Start?
    requires !m.threads[t].op.DoRevokeUser? && Racing(m.threads[t].op) && m.threads[t].op.sid !in m.db.families
    ensures MachineOk(Begin(m, t, now), s0, home)
  {
    var m' := Begin(m, t, now);
    var op := m.threads[t].op;
    assert ThreadOk(m.db, m.threads[t], LockedBy(m, t), home);
    assert forall u :: LockedBy(m', u) == LockedBy(m, u);
    NoRowAnswer(m.db, now, op);
    RecordedStep(m, m', t, Done(t, now, op, NoRowReply(op)), s0, home);
  }

  lemma BeginStep(m: Machine, t: Tid, now: Time, s0: Store, home: Home)
    requires MachineOk(m, s0, home) && t in m.threads && m.threads[t].pc.Start?
    ensures MachineOk(Begin(m, t, now), s0, home)
  {
    var op := m.threads[t].op;
    assert ThreadOk(m.db, m.threads[t], LockedBy(m, t), home);
    if op.DoRevokeUser? {
      MovedStep(m, t, now, Scanning(now), NOTHING, s0, home);
    } else if op.sid !in m.db.families {
      BeginMissing(m, t, now, s0, home);
    } else if op.sid !in m.owner {
      TakenStep(m, t, now, op.sid, Held(now, m.db.families[op.sid]), s0, home);
    }
  }

  lemma ScanDone(m: Machine, t: Tid, pick: Sid, s0: Store, home: Home)
    requires MachineOk(m, s0, home) && t in m.threads && m.threads[t].pc.Scanning? && m.threads[t].op.DoRevokeUser?
    requires OfUser(m.db, m.threads[t].op.user) <= LockedBy(m, t)
    ensures MachineOk(Scan(m, t, pick), s0, home)
  {
    var Thread(op, pc, writes) := m.threads[t];
    assert ThreadOk(m.db, m.threads[t], LockedBy(m, t), home);
    var gone := set x | x in OfUser(m.db, op.user) && x !in op.keep;
    assert gone == FamiliesToRevoke(m.db, op.user, op.keep);
    MovedStep(m, t, m.clock, Ready(pc.now, RevokeUserReplied(|gone|)), DeleteWrites(m.db, gone), s0, home);
  }

  lemma StandsStill(m: Machine, t: Tid)
    requires t in m.threads && m.threads[t].writes == NOTHING
    ensures At(m, t, m.threads[t].pc, NOTHING) == m
  {
    assert At(m, t, m.threads[t].pc, NOTHING).threads == m.threads;
  }

  lemma ScanTakes(m: Machine, t: Tid, pick: Sid, s0: Store, home: Home)
    requires MachineOk(m, s0, home) && t in m.threads && m.threads[t].pc.Scanning? && m.threads[t].op.DoRevokeUser?
    requires pick in OfUser(m.db, m.threads[t].op.user) && pick !in m.owner
    ensures MachineOk(m.(owner := m.owner[pick := t]), s0, home)
  {
    var pc := m.threads[t].pc;
    assert ThreadOk(m.db, m.threads[t], LockedBy(m, t), home);
    TakenStep(m, t, m.clock, pick, pc, s0, home);
    StandsStill(m, t);
  }

  lemma ScanStep(m: Machine, t: Tid, pick: Sid, s0: Store, home: Home)
    requires MachineOk(m, s0, home) && t in m.threads && m.threads[t].pc.Scanning?
    ensures MachineOk(Scan(m, t, pick), s0, home)
  {
    var op := m.threads[t].op;
    assert ThreadOk(m.db, m.threads[t], LockedBy(m, t), home);
    if OfUser(m.db, op.user) <= LockedBy(m, t) {
      ScanDone(m, t, pick, s0, home);
    } else if pick in OfUser(m.db, op.user) && pick !in m.owner {
      ScanTakes(m, t, pick, s0, home);
    }
  }

  lemma AfterLockThread(s: Store, op: Op, now: Time, fam: Family, locks: set<Sid>, home: Home)
    requires ThreadOk(s, Thread(op, Held(now, fam), NOTHING), locks, home)
    ensures var move := AfterLock(s, op, now, fam);
      Running(move.pc) && ThreadOk(s, Thread(op, move.pc, move.writes), locks, home)
  {
  }

  lemma AfterReadThread(s: Store, op: Op, now: Time, fam: Family, member: bool, locks: set<Sid>, home: Home)
    requires ThreadOk(s, Thread(op, Known(now, fam, member), NOTHING), locks, home)
    ensures var move := AfterMemberRead(s, op, now, fam, member);
      !move.pc.Finished? && ThreadOk(s, Thread(op, move.pc, move.writes), locks, home)
  {
    if op.DoRotate? { assert Effect(s, now, op).goneFamilies == {}; }
  }

  lemma RollbackAnswer(s: Store, op: Op, now: Time, fam: Family, member: bool, locks: set<Sid>, home: Home)
    requires ThreadOk(s, Thread(op, Known(now, fam, member), NOTHING), locks, home)
    requires AfterMemberRead(s, op, now, fam, member).pc.RolledBack?
    ensures AfterMemberRead(s, op, now, fam, member).writes == NOTHING
    ensures Apply(s, now, op) == (s, AfterMemberRead(s, op, now, fam, member).pc.reply)
  {
  }

  lemma RollbackStep(m: Machine, t: Tid, now: Time, reply: Reply, s0: Store, home: Home)
    requires MachineOk(m, s0, home) && t in m.threads && Running(m.threads[t].pc)
    requires ThreadOk(m.db, Thread(m.threads[t].op, RolledBack(reply), NOTHING), LockedBy(m, t), home)
    requires Apply(m.db, now, m.threads[t].op) == (m.db, reply)
    ensures MachineOk(Moved(m, t, now, Move(RolledBack(reply), NOTHING)), s0, home)
  {
    var m' := Moved(m, t, now, Move(RolledBack(reply), NOTHING));
    assert forall u :: LockedBy(m', u) == LockedBy(m, u);
    RecordedStep(m, m', t, Done(t, now, m.threads[t].op, reply), s0, home);
  }

  lemma AfterLockStep(m: Machine, t: Tid, s0: Store, home: Home)
    requires MachineOk(m, s0, home) && t in m.threads && m.threads[t].pc.Held?
    ensures var Thread(op, pc, _) := m.threads[t];
      MachineOk(Moved(m, t, pc.now, AfterLock(m.db, op, pc.now, pc.fam)), s0, home)
  {
    var Thread(op, pc, writes) := m.threads[t];
    assert ThreadOk(m.db, m.threads[t], LockedBy(m, t), home);
    AfterLockThread(m.db, op, pc.now, pc.fam, LockedBy(m, t), home);
    var move := AfterLock(m.db, op, pc.now, pc.fam);
    MovedStep(m, t, m.clock, move.pc, move.writes, s0, home);
  }

  lemma AfterMemberReadStep(m: Machine, t: Tid, s0: Store, home: Home)
    requires MachineOk(m, s0, home) && t in m.threads && m.threads[t].pc.Known?
    ensures var Thread(op, pc, _) := m.threads[t];
      MachineOk(Moved(m, t, pc.now, AfterMemberRead(m.db, op, pc.now, pc.fam, pc.member)), s0, home)
  {
    var Thread(op, pc, writes) := m.threads[t];
    assert ThreadOk(m.db, m.threads[t], LockedBy(m, t), home);
    AfterReadThread(m.db, op, pc.now, pc.fam, pc.member, LockedBy(m, t), home);
    var move := AfterMemberRead(m.db, op, pc.now, pc.fam, pc.member);
    if move.pc.RolledBack? {
      RollbackAnswer(m.db, op, pc.now, pc.fam, pc.member, LockedBy(m, t), home);
      RollbackStep(m, t, pc.now, move.pc.reply, s0, home);
    } else {
      MovedStep(m, t, m.clock, move.pc, move.writes, s0, home);
    }
  }

  lemma AfterInsertThread(s: Store, op: Op, now: Time, fam: Family, writes: Writes, locks: set<Sid>, home: Home)
    requires ThreadOk(s, Thread(op, Inserted(now, fam), writes), locks, home)
    ensures var move := AfterInsert(op, now, fam, writes);
      Running(move.pc) && ThreadOk(s, Thread(op, move.pc, move.writes), locks, home)
  {
    RotationEffect(s, now, op);
  }

  lemma AfterUpdateThread(s: Store, op: Op, now: Time, fam: Family, writes: Writes, locks: set<Sid>, home: Home)
    requires ThreadOk(s, Thread(op, Updated(now, fam), writes), locks, home)
    ensures var move := AfterUpdate(s, op, now, fam, writes);
      Running(move.pc) && ThreadOk(s, Thread(op, move.pc, move.writes), locks, home)
  {
    RotationEffect(s, now, op);
  }

  lemma AfterInsertStep(m: Machine, t: Tid, s0: Store, home: Home)
    requires MachineOk(m, s0, home) && t in m.threads && m.threads[t].pc.Inserted?
    ensures var Thread(op, pc, writes) := m.threads[t];
      MachineOk(Moved(m, t, pc.now, AfterInsert(op, pc.now, pc.fam, writes)), s0, home)
  {
    var Thread(op, pc, writes) := m.threads[t];
    assert ThreadOk(m.db, m.threads[t], LockedBy(m, t), home);
    AfterInsertThread(m.db, op, pc.now, pc.fam, writes, LockedBy(m, t), home);
    var move := AfterInsert(op, pc.now, pc.fam, writes);
    MovedStep(m, t, m.clock, move.pc, move.writes, s0, home);
  }

  lemma AfterUpdateStep(m: Machine, t: Tid, s0: Store, home: Home)
    requires MachineOk(m, s0, home) && t in m.threads && m.threads[t].pc.Updated?
    ensures var Thread(op, pc, writes) := m.threads[t];
      MachineOk(Moved(m, t, pc.now, AfterUpdate(m.db, op, pc.now, pc.fam, writes)), s0, home)
  {
    var Thread(op, pc, writes) := m.threads[t];
    assert ThreadOk(m.db, m.threads[t], LockedBy(m, t), home);
    AfterUpdateThread(m.db, op, pc.now, pc.fam, writes, LockedBy(m, t), home);
    var move := AfterUpdate(m.db, op, pc.now, pc.fam, writes);
    MovedStep(m, t, m.clock, move.pc, move.writes, s0, home);
  }

  lemma EndStep(m: Machine, t: Tid, s0: Store, home: Home, pc: Pc)
    requires MachineOk(m, s0, home) && t in m.threads && !m.threads[t].pc.Finished?
    requires if m.threads[t].pc.RolledBack? then pc == Finished(m.threads[t].pc.reply) else pc.Failed?
    ensures MachineOk(At(m, t, pc, NOTHING).(owner := Released(m, t)), s0, home)
  {
    assert ThreadOk(m.db, m.threads[t], LockedBy(m, t), home);
    LocksAfterRelease(m, t, pc);
    QuietStep(m, At(m, t, pc, NOTHING).(owner := Released(m, t)), t, s0, home);
  }

  // ---- commit ----

  /** A commit elsewhere does not disturb a thread: every family it locked is untouched, and so is the absence of the
      jti it inserts. */
  lemma ThreadSurvives(s: Store, s': Store, th: Thread, locks: set<Sid>, touched: set<Sid>, home: Home)
    requires Shrinks(s, s') && Arrivals(s, s', touched, home) && ThreadOk(s, th, locks, home) && locks !! touched
    requires forall x | x in locks :: SameAt(s, s', x)
    ensures ThreadOk(s', th, locks, home)
  {
    var Thread(op, pc, writes) := th;
    PresentedSurvives(s, s', op, touched, home);
    if pc.Held? || pc.Known? {
      assert SameAt(s, s', op.sid);
      HeldSurvives(s, s', th, locks, home);
    } else if pc.Inserted? || pc.Updated? {
      assert SameAt(s, s', op.sid);
      NothingArrives(s, s', op, touched, home);
      RotateIsLocal(s, s', pc.now, op);
    } else if pc.Ready? {
      ReadySurvives(s, s', th, locks, touched, home);
    } else if pc.Scanning? {
      ScanSurvives(s, s', th, locks, home);
    }
  }

  lemma PresentedSurvives(s: Store, s': Store, op: Op, touched: set<Sid>, home: Home)
    requires TaskOk(op, home) && PresentedOk(s, op) && Arrivals(s, s', touched, home)
    ensures PresentedOk(s', op)
  {
  }

  lemma NothingArrives(s: Store, s': Store, op: Op, touched: set<Sid>, home: Home)
    requires op.DoRotate? && TaskOk(op, home) && op.sid !in touched && Arrivals(s, s', touched, home)
    ensures op.new_ !in s.members ==> op.new_ !in s'.members
  {
  }

  lemma ScanSurvives(s: Store, s': Store, th: Thread, locks: set<Sid>, home: Home)
    requires ThreadOk(s, th, locks, home) && th.pc.Scanning? && PresentedOk(s', th.op)
    requires forall x | x in locks :: SameAt(s, s', x)
    ensures ThreadOk(s', th, locks, home)
  {
    forall x | x in locks ensures x in OfUser(s', th.op.user) { assert SameAt(s, s', x); }
  }

  lemma HeldSurvives(s: Store, s': Store, th: Thread, locks: set<Sid>, home: Home)
    requires ThreadOk(s, th, locks, home) && (th.pc.Held? || th.pc.Known?) && PresentedOk(s', th.op)
    requires SameAt(s, s', th.op.sid)
    ensures ThreadOk(s', th, locks, home)
  {
    if th.op.DoRotate? { assert IsMemberOf(s, th.op.sid, th.op.old_) <==> IsMemberOf(s', th.op.sid, th.op.old_); }
    if th.op.DoDetect? { assert IsMemberOf(s, th.op.sid, th.op.jti) <==> IsMemberOf(s', th.op.sid, th.op.jti); }
  }

  lemma ReadySurvives(s: Store, s': Store, th: Thread, locks: set<Sid>, touched: set<Sid>, home: Home)
    requires Shrinks(s, s') && Arrivals(s, s', touched, home) && ThreadOk(s, th, locks, home) && locks !! touched
    requires th.pc.Ready? && PresentedOk(s', th.op)
    requires forall x | x in locks :: SameAt(s, s', x)
    ensures ThreadOk(s', th, locks, home)
  {
    var Thread(op, pc, writes) := th;
    match op
    case DoRotate(_, _, sid, _, _) =>
      assert SameAt(s, s', sid);
      NothingArrives(s, s', op, touched, home);
      RotateIsLocal(s, s', pc.now, op);
    case DoRevoke(sid) =>
      assert SameAt(s, s', sid);
      RevokeIsLocal(s, s', pc.now, op);
    case DoDetect(_, sid) =>
      assert SameAt(s, s', sid);
      DetectIsLocal(s, s', pc.now, op);
    case DoRevokeUser(user, _) =>
      forall x | x in locks ensures x in OfUser(s', user) { assert SameAt(s, s', x); }
      assert OfUser(s', user) == OfUser(s, user);
      RevokeUserIsLocal(s, s', pc.now, op);
    case _ =>
  }

  lemma CommitStep(m: Machine, t: Tid, s0: Store, home: Home)
    requires MachineOk(m, s0, home) && t in m.threads && m.threads[t].pc.Ready?
    ensures var Thread(op, pc, writes) := m.threads[t];
      MachineOk(At(m, t, Finished(pc.reply), NOTHING).(
        db := Commit(m.db, writes), owner := Released(m, t),
        history := m.history + [Done(t, pc.now, op, pc.reply)]), s0, home)
  {
    var Thread(op, pc, writes) := m.threads[t];
    var d := Done(t, pc.now, op, pc.reply);
    var quiet := At(m, t, Finished(pc.reply), NOTHING).(owner := Released(m, t));
    var m' := quiet.(db := Commit(m.db, writes), history := m.history + [d]);
    assert ThreadOk(m.db, m.threads[t], LockedBy(m, t), home);
    CommitEffect(m.db, pc.now, op);
    ApplyTouchesTargets(m.db, pc.now, op, home);
    LocksAfterRelease(m, t, Finished(pc.reply));
    assert forall u :: LockedBy(m', u) == LockedBy(quiet, u);
    RecordAppends(s0, m.history, d);
    assert OnlyThread(m, m', t);
    HistoryGrows(m, m', t, d);
    assert LockedBy(m, t) == Targets(m.db, op);
    forall u | u in m'.threads ensures ThreadOk(m'.db, m'.threads[u], LockedBy(m', u), home) {
      if u != t {
        assert ThreadOk(m.db, m.threads[u], LockedBy(m, u), home);
        forall x | x in LockedBy(m, u) ensures SameAt(m.db, m'.db, x) {
          assert x !in LockedBy(m, t);
        }
        ThreadSurvives(m.db, m'.db, m.threads[u], LockedBy(m, u), Targets(m.db, op), home);
      }
    }
  }

  // ---- whole schedules ----

  lemma AdvanceKeepsOk(m: Machine, t: Tid, c: Choice, s0: Store, home: Home)
    requires MachineOk(m, s0, home)
    ensures MachineOk(Advance(m, t, c), s0, home)
  {
    if t in m.threads && !m.threads[t].pc.Finished? && !m.threads[t].pc.Failed? {
      var pc := m.threads[t].pc;
      if pc.RolledBack? {
        EndStep(m, t, s0, home, Finished(pc.reply));
      } else if c.fail {
        EndStep(m, t, s0, home, Failed);
      } else {
        match pc
        case Start => BeginStep(m, t, if c.now < m.clock then m.clock else c.now, s0, home);
        case Held(_, _) => AfterLockStep(m, t, s0, home);
        case Known(_, _, _) => AfterMemberReadStep(m, t, s0, home);
        case Inserted(_, _) => AfterInsertStep(m, t, s0, home);
        case Updated(_, _) => AfterUpdateStep(m, t, s0, home);
        case Scanning(_) => ScanStep(m, t, c.pick, s0, home);
        case Ready(_, _) => CommitStep(m, t, s0, home);
        case _ =>
      }
    }
  }

  lemma {:induction false} ScheduleKeepsOk(m: Machine, turns: seq<Turn>, s0: Store, home: Home)
    requires MachineOk(m, s0, home)
    ensures MachineOk(Schedule(m, turns), s0, home)
    decreases |turns|
  {
    if turns != [] {
      AdvanceKeepsOk(m, turns[0].tid, turns[0].choice, s0, home);
      ScheduleKeepsOk(Advance(m, turns[0].tid, turns[0].choice), turns[1..], s0, home);
    }
  }

  /** All transactions at their start, no locks. */
  function Launch(s: Store, clock: Time, tasks: map<Tid, Op>): Machine {
    Machine(s, map[], map t | t in tasks :: Thread(tasks[t], Start, NOTHING), clock, [])
  }

  lemma LaunchOk(s: Store, clock: Time, tasks: map<Tid, Op>, turns: seq<Turn>, home: Home)
    requires forall t | t in tasks :: TaskOk(tasks[t], home) && PresentedOk(s, tasks[t])
    ensures MachineOk(Schedule(Launch(s, clock, tasks), turns), s, home)
  {
    var m := Launch(s, clock, tasks);
    forall t | t in m.threads ensures ThreadOk(m.db, m.threads[t], LockedBy(m, t), home) {
      assert LockedBy(m, t) == {};
    }
    ScheduleKeepsOk(m, turns, s, home);
  }

  // ---- what is asked of the requests ----

  /** A rotation mints a jti for its sid, a detection presents one with its sid. */
  predicate Ties(op: Op, jti: Jti) {
    (op.DoRotate? && op.new_ == jti) || (op.DoDetect? && op.jti == jti)
  }

  /** Requests tie a jti to one sid only, and a presented jti that is stored is stored there. What else is stored, under
      which family, is free: a minted jti may well be taken. */
  ghost predicate Requests(s: Store, tasks: map<Tid, Op>) {
    && (forall t | t in tasks :: Racing(tasks[t]) && PresentedOk(s, tasks[t]))
    && (forall t, u, j | t in tasks && u in tasks && Ties(tasks[t], j) && Ties(tasks[u], j) ::
      tasks[t].sid == tasks[u].sid)
  }

  ghost function HomeOf(tasks: map<Tid, Op>, jti: Jti): Sid {
    if t :| t in tasks && Ties(tasks[t], jti) then tasks[t].sid else ""
  }

  lemma HomeExists(s: Store, tasks: map<Tid, Op>) returns (home: Home)
    requires Requests(s, tasks)
    ensures forall t | t in tasks :: TaskOk(tasks[t], home) && PresentedOk(s, tasks[t])
  {
    home := j => HomeOf(tasks, j);
    forall t | t in tasks ensures TaskOk(tasks[t], home) {
      var op := tasks[t];
      if op.DoRotate? { assert Ties(op, op.new_); }
      if op.DoDetect? { assert Ties(op, op.jti); }
    }
  }

  /** Whatever the schedule, the tables are those of running the transactions that took effect one at a time in
      history order, and each of them answered what it answers there; failed ones left no trace. */
  lemma EveryScheduleIsSerial(s: Store, clock: Time, tasks: map<Tid, Op>, turns: seq<Turn>)
    requires Requests(s, tasks)
    ensures var m := Schedule(Launch(s, clock, tasks), turns);
      && Replay(s, m.history) == m.db
      && Serial(s, m.history)
      && HistoryOk(m)
  {
    var home := HomeExists(s, tasks);
    LaunchOk(s, clock, tasks, turns, home);
  }
}
