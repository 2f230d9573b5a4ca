/**
 States that racing transactions reach. Their clock readings need not be in the order of their commits, so a schedule is
 no run of atomic steps; yet it ends in a state with the same invariant, from which every atomic result goes on.
 */
module SessionRacedStates {
  import opened Instants
  import opened SessionFamilies
  import opened SessionHistory
  import opened SessionSafety
  import opened SessionRaces
  import opened SessionSerial
  import opened SessionOutcomes

  type Issued = map<Sid, seq<Entry>>

  predicate Rotates(d: Done) {
    d.op.DoRotate? && d.reply == RotateReplied(Rotated)
  }

  /** A committed rotation appends its jti, with the instant its transaction read. */
  function Grown(issued: Issued, d: Done): Issued {
    if Rotates(d) && d.op.sid in issued then issued[d.op.sid := issued[d.op.sid] + [Entry(d.op.new_, d.now)]]
    else issued
  }

  function IssuedAfter(issued: Issued, h: seq<Done>): Issued {
    if h == [] then issued else Grown(IssuedAfter(issued, h[..|h| - 1]), h[|h| - 1])
  }

  /** What the database and its forgotten past are when a schedule has come this far. */
  ghost function Raced(m: Machine, issued: Issued): World {
    World(m.db, IssuedAfter(issued, m.history), m.clock)
  }

  // ---- what is asked of the minted jtis ----

  /** Never issued, or held all along by a family that no request touches. */
  ghost predicate FreshOrTaken(s: Store, issued: Issued, tasks: map<Tid, Op>, jti: Jti) {
    || NeverIssued(issued, jti)
    || exists x :: IsMemberOf(s, x, jti) && forall u | u in tasks :: x !in Targets(s, tasks[u])
  }

  ghost predicate FreshMints(s: Store, issued: Issued, tasks: map<Tid, Op>) {
    && (forall t | t in tasks && tasks[t].DoRotate? :: FreshOrTaken(s, issued, tasks, tasks[t].new_))
    && (forall t, u | t in tasks && u in tasks && tasks[t].DoRotate? && Mints(tasks[u], tasks[t].new_) :: t == u)
  }

  lemma {:induction false} NotIssuedSince(issued: Issued, h: seq<Done>, jti: Jti)
    requires NeverIssued(issued, jti) && NeverMinted(h, 0, jti)
    ensures NeverIssued(IssuedAfter(issued, h), jti)
  {
    if h != [] {
      var n := |h| - 1;
      assert forall i | 0 <= i < n :: h[..n][i] == h[i];
      NotIssuedSince(issued, h[..n], jti);
      NotIssuedByOne(IssuedAfter(issued, h[..n]), h[n], jti);
    }
  }

  lemma NotIssuedByOne(issued: Issued, d: Done, jti: Jti)
    requires NeverIssued(issued, jti) && !Mints(d.op, jti)
    ensures NeverIssued(Grown(issued, d), jti)
  {
  }

  /** A transaction in flight is in no history, so nobody in it minted its jti. */
  lemma NotMintedYet(m: Machine, s: Store, tasks: map<Tid, Op>, issued: Issued, t: Tid)
    requires Reached(m, s, tasks) && FreshMints(s, issued, tasks)
    requires t in tasks && tasks[t].DoRotate? && m.threads[t].pc.Ready?
    ensures NeverMinted(m.history, 0, tasks[t].new_)
  {
    forall i | 0 <= i < |m.history| ensures !Mints(m.history[i].op, tasks[t].new_) {
      assert HasOutcome(m.threads[m.history[i].tid].pc, m.history[i].reply);
      assert m.history[i].op == tasks[m.history[i].tid] && m.history[i].tid != t;
    }
  }

  /** A rotation about to commit mints a jti that was never issued. */
  lemma MintIsNew(m: Machine, s: Store, tasks: map<Tid, Op>, issued: Issued, t: Tid)
    requires Reached(m, s, tasks) && FreshMints(s, issued, tasks)
    requires t in tasks && tasks[t].DoRotate? && m.threads[t].pc.Ready? && tasks[t].new_ !in m.db.members
    ensures NeverIssued(IssuedAfter(issued, m.history), tasks[t].new_)
  {
    var jti := tasks[t].new_;
    NotMintedYet(m, s, tasks, issued, t);
    if NeverIssued(issued, jti) {
      NotIssuedSince(issued, m.history, jti);
    } else {
      var x :| IsMemberOf(s, x, jti) && forall u | u in tasks :: x !in Targets(s, tasks[u]);
      NoTaskTargets(m, s, tasks, x);
      TakenStays(s, m.history, x, jti);
      assert false;
    }
  }

  // ---- the invariant of the machine ----

  predicate Busy(pc: Pc) {
    pc.Held? || pc.Known? || pc.Inserted? || pc.Updated? || pc.Scanning? || pc.Ready?
  }

  /** The instant a transaction read is not in the future, and no earlier than any jti of the family it is to extend. */
  predicate Timed(th: Thread, issued: Issued, clock: Time) {
    Busy(th.pc) ==>
      && th.pc.now <= clock
      && (th.op.DoRotate? && th.op.sid in issued ==> CreatedBy(issued[th.op.sid], th.pc.now))
  }

  /** The jtis rotated out in the history are consumed, were not before, and are all different. */
  ghost predicate ConsumedOnce(issued0: Issued, issued: Issued, h: seq<Done>) {
    && (forall i | 0 <= i < |h| && Rotates(h[i]) :: Consumed(issued, h[i].op.old_) && !Consumed(issued0, h[i].op.old_))
    && (forall i, j | 0 <= i < j < |h| && Rotates(h[i]) && Rotates(h[j]) :: h[i].op.old_ != h[j].op.old_)
  }

  /** Chains only get longer. */
  ghost predicate Longer(issued: Issued, issued': Issued) {
    forall sid | sid in issued :: sid in issued' && issued[sid] <= issued'[sid]
  }

  ghost predicate RacedOk(m: Machine, issued: Issued) {
    && Inv(Raced(m, issued))
    && (forall t | t in m.threads :: Timed(m.threads[t], IssuedAfter(issued, m.history), m.clock))
    && ConsumedOnce(issued, IssuedAfter(issued, m.history), m.history)
    && Longer(issued, IssuedAfter(issued, m.history))
  }

  /** One thread moves on and is not busy any more. */
  ghost predicate Ends(m: Machine, m': Machine, t: Tid) {
    && t in m.threads && m'.threads.Keys == m.threads.Keys && !Busy(m'.threads[t].pc)
    && forall u | u in m.threads && u != t :: m'.threads[u] == m.threads[u]
  }

  lemma InvLater(w: World, clock: Time)
    requires Inv(w) && w.clock <= clock
    ensures Inv(w.(clock := clock))
  {
    OrderedLater(w.issued, w.clock, clock);
  }

  lemma TimesStand(m: Machine, m': Machine, t: Tid, chains: Issued)
    requires forall u | u in m.threads :: Timed(m.threads[u], chains, m.clock)
    requires m.clock <= m'.clock && m'.threads.Keys == m.threads.Keys
    requires forall u | u in m.threads && u != t :: m'.threads[u] == m.threads[u]
    requires t in m.threads ==> Timed(m'.threads[t], chains, m'.clock)
    ensures forall u | u in m'.threads :: Timed(m'.threads[u], chains, m'.clock)
  {
    forall u | u in m'.threads ensures Timed(m'.threads[u], chains, m'.clock) {
      if u != t { assert Timed(m.threads[u], chains, m.clock); }
    }
  }

  /** Nothing is recorded: one thread moves, and perhaps the clock. */
  lemma QuietRaced(m: Machine, m': Machine, t: Tid, issued: Issued)
    requires RacedOk(m, issued) && m'.db == m.db && m'.history == m.history && m.clock <= m'.clock
    requires m'.threads.Keys == m.threads.Keys
    requires forall u | u in m.threads && u != t :: m'.threads[u] == m.threads[u]
    requires t in m.threads ==> Timed(m'.threads[t], IssuedAfter(issued, m.history), m'.clock)
    ensures RacedOk(m', issued)
  {
    TimesStand(m, m', t, IssuedAfter(issued, m.history));
    InvLater(Raced(m, issued), m'.clock);
  }

  lemma NotRecorded(issued: Issued, h: seq<Done>, d: Done)
    requires !Rotates(d)
    ensures IssuedAfter(issued, h + [d]) == IssuedAfter(issued, h)
    ensures ConsumedOnce(issued, IssuedAfter(issued, h), h) ==>
      ConsumedOnce(issued, IssuedAfter(issued, h + [d]), h + [d])
  {
    assert (h + [d])[..|h|] == h;
  }

  /** An answer that rotates nothing, with the tables as they were or without some families. */
  lemma OtherAnswerRaced(m: Machine, m': Machine, t: Tid, d: Done, gone: set<Sid>, issued: Issued)
    requires RacedOk(m, issued) && m'.history == m.history + [d] && !Rotates(d)
    requires m'.db == Drop(m.db, gone) && m.clock <= m'.clock && Ends(m, m', t)
    ensures RacedOk(m', issued)
  {
    NotRecorded(issued, m.history, d);
    TimesStand(m, m', t, IssuedAfter(issued, m.history));
    DropKeepsRows(m.db, IssuedAfter(issued, m.history), gone);
    InvLater(Raced(m, issued).(store := m'.db), m'.clock);
  }

  lemma DropsNothing(s: Store)
    ensures Drop(s, {}) == s
  {
  }

  // ---- every step keeps it ----

  /** The family row is not there: the answer is given at once. */
  predicate FindsNoRow(m: Machine, op: Op) {
    (op.DoRotate? || op.DoRevoke? || op.DoDetect?) && op.sid !in m.db.families
  }

  lemma BeginAnswers(m: Machine, t: Tid, now: Time, issued: Issued)
    requires RacedOk(m, issued) && t in m.threads && FindsNoRow(m, m.threads[t].op) && m.clock <= now
    ensures RacedOk(Begin(m, t, now), issued)
  {
    var op := m.threads[t].op;
    DropsNothing(m.db);
    OtherAnswerRaced(m, Begin(m, t, now), t, Done(t, now, op, NoRowReply(op)), {}, issued);
  }

  lemma BeginMoves(m: Machine, t: Tid, now: Time)
    requires t in m.threads && !FindsNoRow(m, m.threads[t].op) && m.threads[t].pc.Start? && m.clock <= now
    ensures var m' := Begin(m, t, now);
      && m'.db == m.db && m'.history == m.history && m.clock <= m'.clock && m'.threads.Keys == m.threads.Keys
      && (forall u | u in m.threads && u != t :: m'.threads[u] == m.threads[u])
      && m'.threads[t].op == m.threads[t].op
      && (Busy(m'.threads[t].pc) ==> m'.threads[t].pc.now == now == m'.clock)
  {
  }

  lemma BeginRaced(m: Machine, t: Tid, now: Time, issued: Issued)
    requires RacedOk(m, issued) && t in m.threads && m.threads[t].pc.Start? && m.clock <= now
    ensures RacedOk(Begin(m, t, now), issued)
  {
    if FindsNoRow(m, m.threads[t].op) {
      BeginAnswers(m, t, now, issued);
    } else {
      BeginMoves(m, t, now);
      OrderedLater(IssuedAfter(issued, m.history), m.clock, now);
      QuietRaced(m, Begin(m, t, now), t, issued);
    }
  }

  lemma MovedRaced(m: Machine, t: Tid, now: Time, move: Move, issued: Issued)
    requires RacedOk(m, issued) && t in m.threads && Busy(m.threads[t].pc) && now == m.threads[t].pc.now
    requires Busy(move.pc) ==> move.pc.now == now
    requires move.pc.RolledBack? ==> move.pc.reply != RotateReplied(Rotated)
    ensures RacedOk(Moved(m, t, now, move), issued)
  {
    if move.pc.RolledBack? {
      DropsNothing(m.db);
      OtherAnswerRaced(m, Moved(m, t, now, move), t, Done(t, now, m.threads[t].op, move.pc.reply), {}, issued);
    } else {
      QuietRaced(m, Moved(m, t, now, move), t, issued);
    }
  }

  lemma AfterLockRaced(m: Machine, t: Tid, issued: Issued)
    requires RacedOk(m, issued) && t in m.threads && m.threads[t].pc.Held?
    ensures var Thread(op, pc, _) := m.threads[t];
      RacedOk(Moved(m, t, pc.now, AfterLock(m.db, op, pc.now, pc.fam)), issued)
  {
    var Thread(op, pc, _) := m.threads[t];
    MovedRaced(m, t, pc.now, AfterLock(m.db, op, pc.now, pc.fam), issued);
  }

  lemma AfterMemberReadRaced(m: Machine, t: Tid, issued: Issued)
    requires RacedOk(m, issued) && t in m.threads && m.threads[t].pc.Known?
    ensures var Thread(op, pc, _) := m.threads[t];
      RacedOk(Moved(m, t, pc.now, AfterMemberRead(m.db, op, pc.now, pc.fam, pc.member)), issued)
  {
    var Thread(op, pc, _) := m.threads[t];
    MovedRaced(m, t, pc.now, AfterMemberRead(m.db, op, pc.now, pc.fam, pc.member), issued);
  }

  lemma AfterInsertRaced(m: Machine, t: Tid, issued: Issued)
    requires RacedOk(m, issued) && t in m.threads && m.threads[t].pc.Inserted?
    ensures var Thread(op, pc, writes) := m.threads[t];
      RacedOk(Moved(m, t, pc.now, AfterInsert(op, pc.now, pc.fam, writes)), issued)
  {
    var Thread(op, pc, writes) := m.threads[t];
    MovedRaced(m, t, pc.now, AfterInsert(op, pc.now, pc.fam, writes), issued);
  }

  lemma AfterUpdateRaced(m: Machine, t: Tid, issued: Issued)
    requires RacedOk(m, issued) && t in m.threads && m.threads[t].pc.Updated?
    ensures var Thread(op, pc, writes) := m.threads[t];
      RacedOk(Moved(m, t, pc.now, AfterUpdate(m.db, op, pc.now, pc.fam, writes)), issued)
  {
    var Thread(op, pc, writes) := m.threads[t];
    MovedRaced(m, t, pc.now, AfterUpdate(m.db, op, pc.now, pc.fam, writes), issued);
  }

  lemma ScanMoves(m: Machine, t: Tid, pick: Sid)
    requires t in m.threads && m.threads[t].pc.Scanning?
    ensures var m' := Scan(m, t, pick);
      && m'.db == m.db && m'.history == m.history && m.clock == m'.clock && m'.threads.Keys == m.threads.Keys
      && (forall u | u in m.threads && u != t :: m'.threads[u] == m.threads[u])
      && m'.threads[t].op == m.threads[t].op && Busy(m'.threads[t].pc) && m'.threads[t].pc.now == m.threads[t].pc.now
  {
  }

  lemma ScanRaced(m: Machine, t: Tid, pick: Sid, issued: Issued)
    requires RacedOk(m, issued) && t in m.threads && m.threads[t].pc.Scanning?
    ensures RacedOk(Scan(m, t, pick), issued)
  {
    ScanMoves(m, t, pick);
    QuietRaced(m, Scan(m, t, pick), t, issued);
  }

  lemma EndRaced(m: Machine, t: Tid, pc: Pc, issued: Issued)
    requires RacedOk(m, issued) && t in m.threads && !Busy(pc)
    ensures RacedOk(At(m, t, pc, NOTHING).(owner := Released(m, t)), issued)
  {
    QuietRaced(m, At(m, t, pc, NOTHING).(owner := Released(m, t)), t, issued);
  }

  // ---- commits ----

  /** The head of a family has no successor yet. */
  lemma HeadIsNotConsumed(w: World, sid: Sid)
    requires Inv(w) && sid in w.store.families
    ensures !Consumed(w.issued, w.store.families[sid].head)
  {
    assert FamilyOk(w.store, sid, w.issued[sid]);
  }

  lemma AppendingConsumesHead(w: World, sid: Sid, e: Entry)
    requires Inv(w) && sid in w.store.families
    ensures Consumed(w.issued[sid := w.issued[sid] + [e]], w.store.families[sid].head)
  {
    var k := w.store.families[sid].rotations;
    assert FamilyOk(w.store, sid, w.issued[sid]);
    var issued': Issued := w.issued[sid := w.issued[sid] + [e]];
    assert k + 1 < |issued'[sid]| && issued'[sid][k].jti == w.store.families[sid].head;
  }

  lemma ConsumedIsKept(issued: Issued, issued': Issued, jti: Jti)
    requires Longer(issued, issued') && Consumed(issued, jti)
    ensures Consumed(issued', jti)
  {
    var sid, k :| sid in issued && 0 <= k && k + 1 < |issued[sid]| && issued[sid][k].jti == jti;
    assert issued'[sid][k] == issued[sid][k];
  }

  /** The facts of a rotation that commits. */
  ghost predicate Commits(m: Machine, issued: Issued, d: Done) {
    && Rotates(d) && d.op.sid in m.db.families && m.db.families[d.op.sid].head == d.op.old_
    && NeverIssued(IssuedAfter(issued, m.history), d.op.new_)
    && d.now <= m.clock
    && d.op.sid in IssuedAfter(issued, m.history) && CreatedBy(IssuedAfter(issued, m.history)[d.op.sid], d.now)
  }

  lemma CommitGrows(m: Machine, issued: Issued, d: Done)
    requires RacedOk(m, issued) && Commits(m, issued, d)
    ensures var chains := IssuedAfter(issued, m.history);
      IssuedAfter(issued, m.history + [d]) == chains[d.op.sid := chains[d.op.sid] + [Entry(d.op.new_, d.now)]]
    ensures Longer(IssuedAfter(issued, m.history), IssuedAfter(issued, m.history + [d]))
  {
    assert (m.history + [d])[..|m.history|] == m.history;
  }

  lemma CommitKeepsInv(m: Machine, issued: Issued, d: Done)
    requires RacedOk(m, issued) && Commits(m, issued, d)
    ensures var s' := Append(m.db, d.now, d.op.new_, d.op.sid, d.op.ttl);
      Inv(World(s', IssuedAfter(issued, m.history + [d]), m.clock))
  {
    var chains := IssuedAfter(issued, m.history);
    CommitGrows(m, issued, d);
    AppendKeepsRows(m.db, chains, d.now, d.op.new_, d.op.sid, d.op.ttl);
    GrowKeepsChains(chains, m.clock, d.now, d.op.new_, d.op.sid);
  }

  /** The family's head is consumed by the commit, and was not before. */
  lemma CommitConsumesHead(m: Machine, issued: Issued, d: Done)
    requires RacedOk(m, issued) && Commits(m, issued, d)
    ensures !Consumed(IssuedAfter(issued, m.history), d.op.old_)
    ensures Consumed(IssuedAfter(issued, m.history + [d]), d.op.old_) && !Consumed(issued, d.op.old_)
  {
    var w := Raced(m, issued);
    CommitGrows(m, issued, d);
    HeadIsNotConsumed(w, d.op.sid);
    AppendingConsumesHead(w, d.op.sid, Entry(d.op.new_, d.now));
    if Consumed(issued, d.op.old_) { ConsumedIsKept(issued, w.issued, d.op.old_); }
  }

  lemma ConsumedOnceMore(issued0: Issued, issued: Issued, issued': Issued, h: seq<Done>, d: Done)
    requires ConsumedOnce(issued0, issued, h) && Longer(issued, issued') && Rotates(d)
    requires !Consumed(issued0, d.op.old_) && !Consumed(issued, d.op.old_) && Consumed(issued', d.op.old_)
    ensures ConsumedOnce(issued0, issued', h + [d])
  {
    forall i | 0 <= i < |h| && Rotates(h[i]) ensures Consumed(issued', h[i].op.old_) {
      ConsumedIsKept(issued, issued', h[i].op.old_);
    }
  }

  lemma CommitConsumesOnce(m: Machine, issued: Issued, d: Done)
    requires RacedOk(m, issued) && Commits(m, issued, d)
    ensures ConsumedOnce(issued, IssuedAfter(issued, m.history + [d]), m.history + [d])
  {
    CommitGrows(m, issued, d);
    CommitConsumesHead(m, issued, d);
    ConsumedOnceMore(issued, IssuedAfter(issued, m.history), IssuedAfter(issued, m.history + [d]), m.history, d);
  }

  lemma LongerStill(a: Issued, b: Issued, c: Issued)
    requires Longer(a, b) && Longer(b, c)
    ensures Longer(a, c)
  {
  }

  /** No other rotation on its family is under way. */
  ghost predicate AloneOn(m: Machine, t: Tid, sid: Sid) {
    forall u | u in m.threads && u != t && Busy(m.threads[u].pc) && m.threads[u].op.DoRotate? ::
      m.threads[u].op.sid != sid
  }

  lemma CommitKeepsTimes(m: Machine, m': Machine, t: Tid, d: Done, issued: Issued)
    requires Commits(m, issued, d) && Ends(m, m', t) && AloneOn(m, t, d.op.sid) && m'.clock == m.clock
    requires forall u | u in m.threads :: Timed(m.threads[u], IssuedAfter(issued, m.history), m.clock)
    requires var chains := IssuedAfter(issued, m.history);
      IssuedAfter(issued, m'.history) == chains[d.op.sid := chains[d.op.sid] + [Entry(d.op.new_, d.now)]]
    ensures forall u | u in m'.threads :: Timed(m'.threads[u], IssuedAfter(issued, m'.history), m'.clock)
  {
    forall u | u in m'.threads ensures Timed(m'.threads[u], IssuedAfter(issued, m'.history), m'.clock) {
      if u != t { assert Timed(m.threads[u], IssuedAfter(issued, m.history), m.clock); }
    }
  }

  lemma RotationRaced(m: Machine, m': Machine, t: Tid, d: Done, issued: Issued)
    requires RacedOk(m, issued) && Commits(m, issued, d) && Ends(m, m', t) && AloneOn(m, t, d.op.sid)
    requires m'.history == m.history + [d] && m'.clock == m.clock
    requires m'.db == Append(m.db, d.now, d.op.new_, d.op.sid, d.op.ttl)
    ensures RacedOk(m', issued)
  {
    CommitGrows(m, issued, d);
    CommitKeepsInv(m, issued, d);
    CommitConsumesOnce(m, issued, d);
    LongerStill(issued, IssuedAfter(issued, m.history), IssuedAfter(issued, m'.history));
    CommitKeepsTimes(m, m', t, d, issued);
  }

  /** While a rotation is in flight nobody else's is in flight on the same family. */
  lemma OthersElsewhere(m: Machine, s: Store, home: Home, t: Tid, u: Tid)
    requires MachineOk(m, s, home) && t in m.threads && u in m.threads && t != u
    requires m.threads[t].op.DoRotate? && m.threads[u].op.DoRotate? && Busy(m.threads[t].pc) && Busy(m.threads[u].pc)
    ensures m.threads[t].op.sid != m.threads[u].op.sid
  {
    HoldsItsFamily(m, s, home, t);
    HoldsItsFamily(m, s, home, u);
  }

  lemma HoldsItsFamily(m: Machine, s: Store, home: Home, t: Tid)
    requires MachineOk(m, s, home) && t in m.threads && m.threads[t].op.DoRotate? && Busy(m.threads[t].pc)
    ensures m.threads[t].op.sid in LockedBy(m, t)
  {
    assert ThreadOk(m.db, m.threads[t], LockedBy(m, t), home);
  }

  lemma AloneWhileReady(m: Machine, s: Store, home: Home, t: Tid)
    requires MachineOk(m, s, home) && t in m.threads && m.threads[t].op.DoRotate? && m.threads[t].pc.Ready?
    ensures AloneOn(m, t, m.threads[t].op.sid)
  {
    forall u | u in m.threads && u != t && Busy(m.threads[u].pc) && m.threads[u].op.DoRotate?
      ensures m.threads[u].op.sid != m.threads[t].op.sid
    {
      OthersElsewhere(m, s, home, t, u);
    }
  }

  function DoneBy(m: Machine, t: Tid): Done
    requires t in m.threads && m.threads[t].pc.Ready?
  {
    Done(t, m.threads[t].pc.now, m.threads[t].op, m.threads[t].pc.reply)
  }

  function Committed(m: Machine, t: Tid): Machine
    requires t in m.threads && m.threads[t].pc.Ready?
  {
    At(m, t, Finished(m.threads[t].pc.reply), NOTHING).(
      db := Commit(m.db, m.threads[t].writes), owner := Released(m, t), history := m.history + [DoneBy(m, t)])
  }

  /** What is known of a transaction about to commit: what it did in atomic terms, that no other rotation is under way
      on its family, and that the jti it mints was never issued. */
  ghost predicate ReadyOk(m: Machine, t: Tid, issued: Issued)
    requires t in m.threads && m.threads[t].pc.Ready?
  {
    var Thread(op, pc, _) := m.threads[t];
    && Racing(op) && Apply(m.db, pc.now, op) == (Committed(m, t).db, pc.reply)
    && (op.DoRotate? ==> AloneOn(m, t, op.sid))
    && (Rotates(DoneBy(m, t)) ==> NeverIssued(IssuedAfter(issued, m.history), op.new_))
  }

  lemma ReadyMeans(m: Machine, s: Store, home: Home, t: Tid)
    requires MachineOk(m, s, home) && t in m.threads && m.threads[t].pc.Ready?
    ensures Racing(m.threads[t].op)
    ensures Apply(m.db, m.threads[t].pc.now, m.threads[t].op) == (Committed(m, t).db, m.threads[t].pc.reply)
  {
    assert ThreadOk(m.db, m.threads[t], LockedBy(m, t), home);
    CommitEffect(m.db, m.threads[t].pc.now, m.threads[t].op);
  }

  lemma ReadyMintIsNew(m: Machine, s: Store, tasks: map<Tid, Op>, t: Tid, issued: Issued)
    requires Reached(m, s, tasks) && FreshMints(s, issued, tasks)
    requires t in m.threads && m.threads[t].pc.Ready? && Rotates(DoneBy(m, t))
    requires Apply(m.db, m.threads[t].pc.now, m.threads[t].op).1 == m.threads[t].pc.reply
    ensures NeverIssued(IssuedAfter(issued, m.history), m.threads[t].op.new_)
  {
    RotatedMeans(Raced(m, issued), Event(m.threads[t].pc.now, m.threads[t].op));
    MintIsNew(m, s, tasks, issued, t);
  }

  lemma ReadyIsOk(m: Machine, s: Store, home: Home, tasks: map<Tid, Op>, t: Tid, issued: Issued)
    requires MachineOk(m, s, home) && Reached(m, s, tasks) && FreshMints(s, issued, tasks)
    requires t in m.threads && m.threads[t].pc.Ready?
    ensures ReadyOk(m, t, issued)
  {
    ReadyMeans(m, s, home, t);
    if m.threads[t].op.DoRotate? { AloneWhileReady(m, s, home, t); }
    if Rotates(DoneBy(m, t)) { ReadyMintIsNew(m, s, tasks, t, issued); }
  }

  lemma ReadyRotationCommits(m: Machine, t: Tid, issued: Issued)
    requires RacedOk(m, issued) && t in m.threads && m.threads[t].pc.Ready? && ReadyOk(m, t, issued)
    requires Rotates(DoneBy(m, t))
    ensures Commits(m, issued, DoneBy(m, t))
    ensures var Done(_, now, op, _) := DoneBy(m, t); Committed(m, t).db == Append(m.db, now, op.new_, op.sid, op.ttl)
  {
    RotatedMeans(Raced(m, issued), Event(m.threads[t].pc.now, m.threads[t].op));
    assert Timed(m.threads[t], IssuedAfter(issued, m.history), m.clock);
  }

  lemma ReadyOtherRaced(m: Machine, t: Tid, issued: Issued)
    requires RacedOk(m, issued) && t in m.threads && m.threads[t].pc.Ready? && ReadyOk(m, t, issued)
    requires !Rotates(DoneBy(m, t))
    ensures RacedOk(Committed(m, t), issued)
  {
    var w, e := Raced(m, issued), Event(m.threads[t].pc.now, m.threads[t].op);
    OtherStepsOnlyDrop(w, e);
    CommitEnds(m, t);
    OtherAnswerRaced(m, Committed(m, t), t, DoneBy(m, t), Dropped(w, e), issued);
  }

  lemma CommitEnds(m: Machine, t: Tid)
    requires t in m.threads && m.threads[t].pc.Ready?
    ensures var m' := Committed(m, t);
      Ends(m, m', t) && m'.history == m.history + [DoneBy(m, t)] && m'.clock == m.clock
  {
  }

  lemma ReadyRotationRaced(m: Machine, t: Tid, issued: Issued)
    requires RacedOk(m, issued) && t in m.threads && m.threads[t].pc.Ready? && ReadyOk(m, t, issued)
    requires Rotates(DoneBy(m, t))
    ensures RacedOk(Committed(m, t), issued)
  {
    ReadyRotationCommits(m, t, issued);
    CommitEnds(m, t);
    RotationRaced(m, Committed(m, t), t, DoneBy(m, t), issued);
  }

  lemma CommitRaced(m: Machine, t: Tid, issued: Issued)
    requires RacedOk(m, issued) && t in m.threads && m.threads[t].pc.Ready? && ReadyOk(m, t, issued)
    ensures RacedOk(Committed(m, t), issued)
  {
    if Rotates(DoneBy(m, t)) { ReadyRotationRaced(m, t, issued); } else { ReadyOtherRaced(m, t, issued); }
  }

  // ---- whole schedules ----

  lemma AdvanceRaced(m: Machine, t: Tid, c: Choice, issued: Issued)
    requires RacedOk(m, issued) && (t in m.threads && m.threads[t].pc.Ready? ==> ReadyOk(m, t, issued))
    ensures RacedOk(Advance(m, t, c), issued)
  {
    if t in m.threads && !m.threads[t].pc.Finished? && !m.threads[t].pc.Failed? {
      var pc := m.threads[t].pc;
      if pc.RolledBack? {
        EndRaced(m, t, Finished(pc.reply), issued);
      } else if c.fail {
        EndRaced(m, t, Failed, issued);
      } else {
        match pc
        case Start => BeginRaced(m, t, if c.now < m.clock then m.clock else c.now, issued);
        case Held(_, _) => AfterLockRaced(m, t, issued);
        case Known(_, _, _) => AfterMemberReadRaced(m, t, issued);
        case Inserted(_, _) => AfterInsertRaced(m, t, issued);
        case Updated(_, _) => AfterUpdateRaced(m, t, issued);
        case Scanning(_) => ScanRaced(m, t, c.pick, issued);
        case Ready(_, _) => CommitRaced(m, t, issued);
        case _ =>
      }
    }
  }

  lemma ReachedByOk(m: Machine, s: Store, home: Home, tasks: map<Tid, Op>)
    requires MachineOk(m, s, home) && m.threads.Keys == tasks.Keys
    requires forall t | t in tasks :: m.threads[t].op == tasks[t] && Racing(tasks[t])
    ensures Reached(m, s, tasks)
  {
    HistoryRaces(m, tasks);
  }

  lemma {:induction false} ScheduleRaced(
    m: Machine, s: Store, home: Home, tasks: map<Tid, Op>, turns: seq<Turn>, issued: Issued)
    requires MachineOk(m, s, home) && Reached(m, s, tasks) && FreshMints(s, issued, tasks) && RacedOk(m, issued)
    requires forall t | t in tasks :: Racing(tasks[t])
    ensures RacedOk(Schedule(m, turns), issued)
    decreases |turns|
  {
    if turns != [] {
      var t, m' := turns[0].tid, Advance(m, turns[0].tid, turns[0].choice);
      if t in m.threads && m.threads[t].pc.Ready? { ReadyIsOk(m, s, home, tasks, t, issued); }
      AdvanceRaced(m, t, turns[0].choice, issued);
      AdvanceKeepsOk(m, turns[0].tid, turns[0].choice, s, home);
      AdvanceKeepsTasks(m, turns[0].tid, turns[0].choice);
      ReachedByOk(m', s, home, tasks);
      ScheduleRaced(m', s, home, tasks, turns[1..], issued);
    }
  }

  /** Requests that race on the database of a world. */
  ghost predicate MayRace(w: World, tasks: map<Tid, Op>) {
    Inv(w) && Requests(w.store, tasks) && FreshMints(w.store, w.issued, tasks)
  }

  ghost function Launched(w: World, tasks: map<Tid, Op>): Machine {
    Launch(w.store, w.clock, tasks)
  }

  /** The world at any point of a schedule. */
  ghost function AfterRaces(w: World, tasks: map<Tid, Op>, turns: seq<Turn>): World {
    Raced(Schedule(Launched(w, tasks), turns), w.issued)
  }

  lemma StartRaced(w: World, tasks: map<Tid, Op>)
    requires MayRace(w, tasks)
    ensures RacedOk(Launched(w, tasks), w.issued)
  {
    assert IssuedAfter(w.issued, []) == w.issued;
  }

  lemma ScheduleIsRaced(w: World, tasks: map<Tid, Op>, turns: seq<Turn>)
    requires MayRace(w, tasks)
    ensures RacedOk(Schedule(Launched(w, tasks), turns), w.issued)
  {
    var home := HomeExists(w.store, tasks);
    LaunchOk(w.store, w.clock, tasks, [], home);
    StartRaced(w, tasks);
    ReachedByOk(Launched(w, tasks), w.store, home, tasks);
    ScheduleRaced(Launched(w, tasks), w.store, home, tasks, turns, w.issued);
  }

  /** From any state with the invariant, every schedule of racing requests is at every point in a state with the
      invariant: the history so far with each committed rotation appended, no chain cut short. */
  lemma RacesKeepInv(w: World, tasks: map<Tid, Op>, turns: seq<Turn>)
    requires MayRace(w, tasks)
    ensures Inv(AfterRaces(w, tasks, turns)) && Longer(w.issued, AfterRaces(w, tasks, turns).issued)
    ensures AfterRaces(w, tasks, turns).store == Schedule(Launched(w, tasks), turns).db
  {
    ScheduleIsRaced(w, tasks, turns);
  }

  /** Two refreshes of one token, and a refresh of the token that the first of them mints. */
  function Refreshes(sid: Sid, user: int, ttl: int, a: Jti, b: Jti, c: Jti, d: Jti): map<Tid, Op> {
    map[0 := DoRotate(a, b, sid, user, ttl), 1 := DoRotate(a, c, sid, user, ttl), 2 := DoRotate(b, d, sid, user, ttl)]
  }

  /** They may race in any state with the invariant, whatever the token, as soon as the minted jtis are new and
      different. */
  lemma RefreshesMayRace(w: World, sid: Sid, user: int, ttl: int, a: Jti, b: Jti, c: Jti, d: Jti)
    requires Inv(w) && b != c && c != d && d != b
    requires NeverIssued(w.issued, b) && NeverIssued(w.issued, c) && NeverIssued(w.issued, d)
    ensures MayRace(w, Refreshes(sid, user, ttl, a, b, c, d))
  {
  }

  // ---- the atomic results go on from there ----

  /** Reuse detection is exact in every state that races reach. */
  lemma ClassifiedExactlyAfterRaces(w: World, tasks: map<Tid, Op>, turns: seq<Turn>, now: Time, sid: Sid, k: nat)
    requires MayRace(w, tasks)
    requires var v := AfterRaces(w, tasks, turns); Live(v.store, sid, now) && sid in v.issued && k < |v.issued[sid]|
    ensures sid in AfterRaces(w, tasks, turns).store.families
    ensures var v := AfterRaces(w, tasks, turns);
      Detect(v.store, now, v.issued[sid][k].jti, sid).1 == Fate(v.issued[sid], k, now)
  {
    RacesKeepInv(w, tasks, turns);
    ClassificationIsExact(AfterRaces(w, tasks, turns), now, sid, k);
  }

  lemma WonMeansRecorded(w: World, tasks: map<Tid, Op>, turns: seq<Turn>, t: Tid) returns (i: nat)
    requires MayRace(w, tasks) && t in tasks && tasks[t].DoRotate?
    requires Answered(Schedule(Launched(w, tasks), turns), t, RotateReplied(Rotated))
    ensures var h := Schedule(Launched(w, tasks), turns).history; i < |h| && Rotates(h[i]) && h[i].op == tasks[t]
  {
    ScheduleReaches(w.store, w.clock, tasks, turns);
    i := PlaceOf(Schedule(Launched(w, tasks), turns), t);
  }

  /** A token consumed before the races is rotated by none of them. */
  lemma ConsumedBeforeRaces(w: World, tasks: map<Tid, Op>, turns: seq<Turn>, t: Tid)
    requires MayRace(w, tasks) && t in tasks && tasks[t].DoRotate? && Consumed(w.issued, tasks[t].old_)
    ensures !Answered(Schedule(Launched(w, tasks), turns), t, RotateReplied(Rotated))
  {
    ScheduleIsRaced(w, tasks, turns);
    if Answered(Schedule(Launched(w, tasks), turns), t, RotateReplied(Rotated)) {
      var i := WonMeansRecorded(w, tasks, turns, t);
    }
  }

  /** A token rotated in a race is consumed: no later run ever rotates it again. */
  lemma RotatedInRaceIsSpent(w: World, tasks: map<Tid, Op>, turns: seq<Turn>, t: Tid, run: seq<Event>, j: nat)
    requires MayRace(w, tasks) && t in tasks && tasks[t].DoRotate?
    requires Answered(Schedule(Launched(w, tasks), turns), t, RotateReplied(Rotated))
    requires LegalRun(AfterRaces(w, tasks, turns), run)
    requires j < |run| && run[j].op.DoRotate? && run[j].op.old_ == tasks[t].old_
    ensures Replies(AfterRaces(w, tasks, turns), run)[j] != RotateReplied(Rotated)
  {
    RacesKeepInv(w, tasks, turns);
    ScheduleIsRaced(w, tasks, turns);
    var i := WonMeansRecorded(w, tasks, turns, t);
    ConsumedNeverRotatesLater(AfterRaces(w, tasks, turns), run, tasks[t].old_, j);
  }

  /** A session revoked in a race stays ended through every later run. */
  lemma RevokedInRaceStaysEnded(w: World, tasks: map<Tid, Op>, turns: seq<Turn>, t: Tid, sid: Sid, run: seq<Event>)
    requires MayRace(w, tasks) && sid in w.issued
    requires var m := Schedule(Launched(w, tasks), turns);
      t in m.threads && m.threads[t].pc.Finished? && Removes(w.store, m.threads[t].op, m.threads[t].pc.reply, sid)
    requires LegalRun(AfterRaces(w, tasks, turns), run)
    ensures Ended(After(AfterRaces(w, tasks, turns), run), sid) && Inv(After(AfterRaces(w, tasks, turns), run))
  {
    RacesKeepInv(w, tasks, turns);
    RevokedStaysRevoked(w.store, w.clock, tasks, turns, t, sid);
    EndedStaysOverRun(AfterRaces(w, tasks, turns), run, sid);
  }
}
