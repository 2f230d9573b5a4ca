/** What transactions racing for a family cannot do to each other: consequences of their serial order. */
module SessionOutcomes {
  import opened Instants
  import opened SessionFamilies
  import opened SessionHistory
  import opened SessionRaces
  import opened SessionSerial

  // ---- what a reached machine is ----

  ghost predicate AllRacing(h: seq<Done>) {
    forall i | 0 <= i < |h| :: Racing(h[i].op)
  }

  ghost predicate Reached(m: Machine, s: Store, tasks: map<Tid, Op>) {
    && HistoryOk(m) && AllRacing(m.history) && Serial(s, m.history) && Replay(s, m.history) == m.db
    && m.threads.Keys == tasks.Keys && forall t | t in tasks :: m.threads[t].op == tasks[t]
  }

  lemma AtKeepsTasks(m: Machine, t: Tid, pc: Pc, w: Writes)
    requires t in m.threads
    ensures SameTasks(m, At(m, t, pc, w))
  {
  }

  lemma MovedKeepsTasks(m: Machine, t: Tid, now: Time, move: Move)
    requires t in m.threads
    ensures SameTasks(m, Moved(m, t, now, move))
  {
    AtKeepsTasks(m, t, move.pc, move.writes);
  }

  lemma ScanKeepsTasks(m: Machine, t: Tid, pick: Sid)
    requires t in m.threads && m.threads[t].pc.Scanning?
    ensures SameTasks(m, Scan(m, t, pick))
  {
  }

  lemma BeginKeepsTasks(m: Machine, t: Tid, now: Time)
    requires t in m.threads
    ensures SameTasks(m, Begin(m, t, now))
  {
  }

  lemma AdvanceKeepsTasks(m: Machine, t: Tid, c: Choice)
    ensures SameTasks(m, Advance(m, t, c))
  {
    if t in m.threads && !m.threads[t].pc.Finished? && !m.threads[t].pc.Failed? {
      var Thread(op, pc, writes) := m.threads[t];
      if pc.RolledBack? {
        AtKeepsTasks(m, t, Finished(pc.reply), NOTHING);
      } else if c.fail {
        AtKeepsTasks(m, t, Failed, NOTHING);
      } else {
        match pc
        case Start => BeginKeepsTasks(m, t, if c.now < m.clock then m.clock else c.now);
        case Held(now, fam) => MovedKeepsTasks(m, t, now, AfterLock(m.db, op, now, fam));
        case Known(now, fam, member) => MovedKeepsTasks(m, t, now, AfterMemberRead(m.db, op, now, fam, member));
        case Inserted(now, fam) => MovedKeepsTasks(m, t, now, AfterInsert(op, now, fam, writes));
        case Updated(now, fam) => MovedKeepsTasks(m, t, now, AfterUpdate(m.db, op, now, fam, writes));
        case Scanning(_) => ScanKeepsTasks(m, t, c.pick);
        case Ready(_, reply) => AtKeepsTasks(m, t, Finished(reply), NOTHING);
        case _ =>
      }
    }
  }

  lemma {:induction false} ScheduleKeepsTasks(m: Machine, turns: seq<Turn>)
    ensures SameTasks(m, Schedule(m, turns))
    decreases |turns|
  {
    if turns != [] {
      AdvanceKeepsTasks(m, turns[0].tid, turns[0].choice);
      ScheduleKeepsTasks(Advance(m, turns[0].tid, turns[0].choice), turns[1..]);
    }
  }

  lemma HistoryRaces(m: Machine, tasks: map<Tid, Op>)
    requires HistoryOk(m) && m.threads.Keys == tasks.Keys
    requires forall t | t in tasks :: m.threads[t].op == tasks[t] && Racing(tasks[t])
    ensures AllRacing(m.history)
  {
  }

  lemma ScheduleReaches(s: Store, clock: Time, tasks: map<Tid, Op>, turns: seq<Turn>)
    requires Requests(s, tasks)
    ensures Reached(Schedule(Launch(s, clock, tasks), turns), s, tasks)
  {
    var start := Launch(s, clock, tasks);
    EveryScheduleIsSerial(s, clock, tasks, turns);
    ScheduleKeepsTasks(start, turns);
    assert start.threads.Keys == tasks.Keys;
    HistoryRaces(Schedule(start, turns), tasks);
  }

  lemma PlaceOf(m: Machine, t: Tid) returns (i: nat)
    requires HistoryOk(m) && t in m.threads && m.threads[t].pc.Finished?
    ensures i < |m.history| && m.history[i].tid == t
    ensures m.history[i].op == m.threads[t].op && m.history[i].reply == m.threads[t].pc.reply
  {
    i :| 0 <= i < |m.history| && m.history[i].tid == t;
    assert HasOutcome(m.threads[m.history[i].tid].pc, m.history[i].reply);
  }

  /** The transaction is over and its caller has the answer. */
  predicate Answered(m: Machine, t: Tid, reply: Reply) {
    t in m.threads && m.threads[t].pc == Finished(reply)
  }

  // ---- a rotation spends its jti ----

  /** The jti is at most a consumed member of family `x`. */
  ghost predicate Spent(s: Store, x: Sid, jti: Jti) {
    && (jti in s.members ==> s.members[jti].sid == x)
    && (x in s.families ==> s.families[x].head != jti)
  }

  predicate Mints(op: Op, jti: Jti) {
    op.DoRotate? && op.new_ == jti
  }

  /** Minted jtis are fresh: at most one request mints this one, and then it is not stored beforehand. */
  ghost predicate MintedFresh(s: Store, tasks: map<Tid, Op>, jti: Jti) {
    && (forall x, y | x in tasks && y in tasks && Mints(tasks[x], jti) && Mints(tasks[y], jti) :: x == y)
    && (forall x | x in tasks && Mints(tasks[x], jti) :: jti !in s.members)
  }

  /** The same of a history. */
  ghost predicate MintedOnce(s: Store, h: seq<Done>, jti: Jti) {
    && (forall i, j | 0 <= i < j < |h| :: !(Mints(h[i].op, jti) && Mints(h[j].op, jti)))
    && (forall i | 0 <= i < |h| && Mints(h[i].op, jti) :: jti !in s.members)
  }

  ghost predicate NeverMinted(h: seq<Done>, from: nat, jti: Jti) {
    forall i | from <= i < |h| :: !Mints(h[i].op, jti)
  }

  lemma ApplyKeepsSpent(s: Store, now: Time, op: Op, x: Sid, jti: Jti)
    requires Racing(op) && Spent(s, x, jti) && !Mints(op, jti)
    ensures Spent(Apply(s, now, op).0, x, jti)
  {
  }

  lemma {:induction false} SpentStays(s: Store, h: seq<Done>, i: nat, x: Sid, jti: Jti)
    requires AllRacing(h) && i <= |h| && NeverMinted(h, i, jti) && Spent(Replay(s, h[..i]), x, jti)
    ensures Spent(Replay(s, h), x, jti)
  {
    var n := |h| - 1;
    if i < |h| {
      assert h[..n][..i] == h[..i];
      SpentStays(s, h[..n], i, x, jti);
      ApplyKeepsSpent(Replay(s, h[..n]), h[n].now, h[n].op, x, jti);
    } else {
      assert h[..i] == h;
    }
  }

  lemma ApplyKeepsAbsent(s: Store, now: Time, op: Op, jti: Jti)
    requires Racing(op) && jti !in s.members && !Mints(op, jti)
    ensures jti !in Apply(s, now, op).0.members
  {
  }

  lemma {:induction false} AbsentUntilMinted(s: Store, h: seq<Done>, jti: Jti)
    requires AllRacing(h) && NeverMinted(h, 0, jti) && jti !in s.members
    ensures jti !in Replay(s, h).members
  {
    if h != [] {
      var n := |h| - 1;
      AbsentUntilMinted(s, h[..n], jti);
      ApplyKeepsAbsent(Replay(s, h[..n]), h[n].now, h[n].op, jti);
    }
  }

  lemma RotationSpends(s: Store, now: Time, op: Op)
    requires op.DoRotate? && Apply(s, now, op).1 == RotateReplied(Rotated)
    ensures op.old_ in s.members && Spent(Apply(s, now, op).0, op.sid, op.old_)
  {
  }

  lemma SpentCannotRotate(s: Store, now: Time, op: Op, x: Sid)
    requires op.DoRotate? && Spent(s, x, op.old_)
    ensures Apply(s, now, op).1 != RotateReplied(Rotated)
  {
  }

  /** A jti is minted, if at all, before it is first rotated out. */
  lemma MintedBefore(s: Store, h: seq<Done>, i: nat)
    requires AllRacing(h) && Serial(s, h) && i < |h| && h[i].op.DoRotate? && h[i].reply == RotateReplied(Rotated)
    requires MintedOnce(s, h, h[i].op.old_)
    ensures NeverMinted(h, i, h[i].op.old_)
  {
    var jti := h[i].op.old_;
    RotationSpends(Replay(s, h[..i]), h[i].now, h[i].op);
    if m :| i <= m < |h| && Mints(h[m].op, jti) {
      assert forall k | 0 <= k < i :: !Mints(h[..i][k].op, jti);
      AbsentUntilMinted(s, h[..i], jti);
      assert false;
    }
  }

  lemma SpentBy(s: Store, h: seq<Done>, i: nat, j: nat)
    requires AllRacing(h) && Serial(s, h) && i < j <= |h| && h[i].op.DoRotate? && h[i].reply == RotateReplied(Rotated)
    requires NeverMinted(h, i, h[i].op.old_)
    ensures Spent(Replay(s, h[..j]), h[i].op.sid, h[i].op.old_)
  {
    assert h[..i + 1][..i] == h[..i];
    RotationSpends(Replay(s, h[..i]), h[i].now, h[i].op);
    assert h[..j][..i + 1] == h[..i + 1];
    SpentStays(s, h[..j], i + 1, h[i].op.sid, h[i].op.old_);
  }

  lemma SecondRotationFails(s: Store, h: seq<Done>, i: nat, j: nat)
    requires AllRacing(h) && Serial(s, h) && i < j < |h| && h[i].reply == RotateReplied(Rotated)
    requires h[i].op.DoRotate? && h[j].op.DoRotate? && h[i].op.old_ == h[j].op.old_ && MintedOnce(s, h, h[i].op.old_)
    ensures h[j].reply != RotateReplied(Rotated)
  {
    MintedBefore(s, h, i);
    SpentBy(s, h, i, j);
    SpentCannotRotate(Replay(s, h[..j]), h[j].now, h[j].op, h[i].op.sid);
  }

  lemma MintedOnceByTasks(m: Machine, s: Store, tasks: map<Tid, Op>, jti: Jti)
    requires Reached(m, s, tasks) && MintedFresh(s, tasks, jti)
    ensures MintedOnce(s, m.history, jti)
  {
    forall i | 0 <= i < |m.history| ensures m.history[i].tid in tasks && m.history[i].op == tasks[m.history[i].tid] {}
  }

  lemma TwoRefreshes(m: Machine, s: Store, tasks: map<Tid, Op>, t: Tid, u: Tid)
    requires Reached(m, s, tasks) && t in tasks && u in tasks && t != u
    requires tasks[t].DoRotate? && tasks[u].DoRotate? && tasks[t].old_ == tasks[u].old_
    requires MintedFresh(s, tasks, tasks[t].old_)
    ensures !(Answered(m, t, RotateReplied(Rotated)) && Answered(m, u, RotateReplied(Rotated)))
  {
    if Answered(m, t, RotateReplied(Rotated)) && Answered(m, u, RotateReplied(Rotated)) {
      MintedOnceByTasks(m, s, tasks, tasks[t].old_);
      var i := PlaceOf(m, t);
      var j := PlaceOf(m, u);
      if i < j { SecondRotationFails(s, m.history, i, j); } else { SecondRotationFails(s, m.history, j, i); }
    }
  }

  /** Of any number of refreshes of one token in a schedule, under whatever sids, at most one wins; the token may have
      been minted by a rotation of the same schedule. */
  lemma OneRefreshWins(s: Store, clock: Time, tasks: map<Tid, Op>, turns: seq<Turn>, t: Tid, u: Tid)
    requires Requests(s, tasks) && t in tasks && u in tasks && t != u
    requires tasks[t].DoRotate? && tasks[u].DoRotate? && tasks[t].old_ == tasks[u].old_
    requires MintedFresh(s, tasks, tasks[t].old_)
    ensures {t, u} <= Schedule(Launch(s, clock, tasks), turns).threads.Keys
    ensures var m := Schedule(Launch(s, clock, tasks), turns);
      !(Answered(m, t, RotateReplied(Rotated)) && Answered(m, u, RotateReplied(Rotated)))
  {
    ScheduleReaches(s, clock, tasks, turns);
    TwoRefreshes(Schedule(Launch(s, clock, tasks), turns), s, tasks, t, u);
  }

  // ---- a family that is gone stays gone ----

  lemma ApplyShrinks(s: Store, now: Time, op: Op)
    requires Racing(op)
    ensures Shrinks(s, Apply(s, now, op).0)
  {
  }

  lemma {:induction false} GoneStays(s: Store, h: seq<Done>, i: nat, x: Sid)
    requires AllRacing(h) && i <= |h| && x !in Replay(s, h[..i]).families
    ensures x !in Replay(s, h).families
  {
    var n := |h| - 1;
    if i < |h| {
      assert h[..n][..i] == h[..i];
      GoneStays(s, h[..n], i, x);
      ApplyShrinks(Replay(s, h[..n]), h[n].now, h[n].op);
    } else {
      assert h[..i] == h;
    }
  }

  lemma {:induction false} ReplayShrinks(s: Store, h: seq<Done>)
    requires AllRacing(h)
    ensures Shrinks(s, Replay(s, h))
  {
    if h != [] {
      var n := |h| - 1;
      ReplayShrinks(s, h[..n]);
      ApplyShrinks(Replay(s, h[..n]), h[n].now, h[n].op);
    }
  }

  // ---- a minted jti that is taken ----

  lemma TakenStep(s: Store, now: Time, op: Op, x: Sid, jti: Jti)
    requires Racing(op) && IsMemberOf(s, x, jti) && x !in Targets(s, op)
    ensures IsMemberOf(Apply(s, now, op).0, x, jti)
  {
  }

  lemma TargetsShrink(s: Store, s': Store, op: Op)
    requires Shrinks(s, s')
    ensures Targets(s', op) <= Targets(s, op)
  {
  }

  lemma {:induction false} TakenStays(s: Store, h: seq<Done>, x: Sid, jti: Jti)
    requires AllRacing(h) && IsMemberOf(s, x, jti) && forall i | 0 <= i < |h| :: x !in Targets(s, h[i].op)
    ensures IsMemberOf(Replay(s, h), x, jti)
  {
    if h != [] {
      var n := |h| - 1;
      TakenStays(s, h[..n], x, jti);
      ReplayShrinks(s, h[..n]);
      TargetsShrink(s, Replay(s, h[..n]), h[n].op);
      TakenStep(Replay(s, h[..n]), h[n].now, h[n].op, x, jti);
    }
  }

  lemma TakenIsRefused(s: Store, now: Time, op: Op)
    requires op.DoRotate? && op.new_ in s.members
    ensures Apply(s, now, op).1 != RotateReplied(Rotated) && Apply(s, now, op).0 == s
  {
  }

  lemma NoTaskTargets(m: Machine, s: Store, tasks: map<Tid, Op>, x: Sid)
    requires Reached(m, s, tasks) && forall t | t in tasks :: x !in Targets(s, tasks[t])
    ensures forall i | 0 <= i < |m.history| :: x !in Targets(s, m.history[i].op)
  {
    forall i | 0 <= i < |m.history| ensures x !in Targets(s, m.history[i].op) {
      assert m.history[i].op == tasks[m.history[i].tid];
    }
  }

  /** A rotation to a jti that some family no request touches already holds never answers ok, in any schedule. */
  lemma TakenJtiNeverRotates(s: Store, clock: Time, tasks: map<Tid, Op>, turns: seq<Turn>, t: Tid, x: Sid)
    requires Requests(s, tasks) && t in tasks && tasks[t].DoRotate? && IsMemberOf(s, x, tasks[t].new_)
    requires forall u | u in tasks :: x !in Targets(s, tasks[u])
    ensures t in Schedule(Launch(s, clock, tasks), turns).threads.Keys
    ensures !Answered(Schedule(Launch(s, clock, tasks), turns), t, RotateReplied(Rotated))
  {
    var m := Schedule(Launch(s, clock, tasks), turns);
    ScheduleReaches(s, clock, tasks, turns);
    if Answered(m, t, RotateReplied(Rotated)) {
      var i := PlaceOf(m, t);
      NoTaskTargets(m, s, tasks, x);
      TakenStays(s, m.history[..i], x, tasks[t].new_);
      TakenIsRefused(Replay(s, m.history[..i]), m.history[i].now, m.history[i].op);
    }
  }

  /** A transaction that removes a family: nothing of it is left, whatever raced with it. */
  ghost predicate Removes(s: Store, op: Op, reply: Reply, x: Sid) {
    || (op.DoRevoke? && op.sid == x && reply.RevokeReplied? && reply.jtis != [])
    || (op.DoDetect? && op.sid == x && reply.DetectReplied? && reply.detect.Reused?)
    || (op.DoRevokeUser? && x in OfUser(s, op.user) && x !in op.keep)
  }

  lemma RemovesAtOnce(s: Store, s': Store, now: Time, op: Op, reply: Reply, x: Sid)
    requires Racing(op) && Removes(s, op, reply, x) && reply == Apply(s', now, op).1
    requires op.DoRevokeUser? ==> Shrinks(s, s')
    ensures x !in Apply(s', now, op).0.families
  {
  }

  lemma RemovedAt(s: Store, h: seq<Done>, i: nat, x: Sid)
    requires AllRacing(h) && Serial(s, h) && i < |h| && Removes(s, h[i].op, h[i].reply, x)
    ensures x !in Replay(s, h[..i + 1]).families
  {
    assert h[..i + 1][..i] == h[..i];
    if h[i].op.DoRevokeUser? { ReplayShrinks(s, h[..i]); }
    RemovesAtOnce(s, Replay(s, h[..i]), h[i].now, h[i].op, h[i].reply, x);
  }

  /** Once a revoke, a user-wide revoke or a reuse detection has answered, the family is gone for good: no rotation
      racing with it leaves a live successor. */
  lemma RevokedStaysRevoked(s: Store, clock: Time, tasks: map<Tid, Op>, turns: seq<Turn>, t: Tid, x: Sid)
    requires Requests(s, tasks)
    requires var m := Schedule(Launch(s, clock, tasks), turns);
      t in m.threads && m.threads[t].pc.Finished? && Removes(s, m.threads[t].op, m.threads[t].pc.reply, x)
    ensures x !in Schedule(Launch(s, clock, tasks), turns).db.families
  {
    var m := Schedule(Launch(s, clock, tasks), turns);
    ScheduleReaches(s, clock, tasks, turns);
    var i := PlaceOf(m, t);
    RemovedAt(s, m.history, i, x);
    GoneStays(s, m.history, i + 1, x);
  }

  lemma DetectOnGone(s: Store, now: Time, op: Op)
    requires op.DoDetect? && op.sid !in s.families
    ensures Apply(s, now, op).1 == DetectReplied(Unknown)
  {
  }

  lemma SecondDetectionFindsNothing(s: Store, h: seq<Done>, i: nat, j: nat, n: int)
    requires AllRacing(h) && Serial(s, h) && i < j < |h|
    requires h[i].op.DoDetect? && h[j].op.DoDetect? && h[i].op.sid == h[j].op.sid
    requires h[i].reply == DetectReplied(Reused(n))
    ensures h[j].reply == DetectReplied(Unknown)
  {
    RemovedAt(s, h, i, h[i].op.sid);
    assert h[..j][..i + 1] == h[..i + 1];
    assert AllRacing(h[..j]);
    GoneStays(s, h[..j], i + 1, h[i].op.sid);
    DetectOnGone(Replay(s, h[..j]), h[j].now, h[j].op);
  }

  lemma TwoDetections(m: Machine, s: Store, tasks: map<Tid, Op>, t: Tid, u: Tid, n: int, k: int)
    requires Reached(m, s, tasks) && t in tasks && u in tasks && t != u
    requires tasks[t].DoDetect? && tasks[u].DoDetect? && tasks[t].sid == tasks[u].sid
    ensures !(Answered(m, t, DetectReplied(Reused(n))) && Answered(m, u, DetectReplied(Reused(k))))
  {
    if Answered(m, t, DetectReplied(Reused(n))) && Answered(m, u, DetectReplied(Reused(k))) {
      var i := PlaceOf(m, t);
      var j := PlaceOf(m, u);
      if i < j { SecondDetectionFindsNothing(s, m.history, i, j, n); }
      else { SecondDetectionFindsNothing(s, m.history, j, i, k); }
    }
  }

  /** Of any number of concurrent detections on one family, at most one reports (and audits) reuse. */
  lemma OneDetectionReports(s: Store, clock: Time, tasks: map<Tid, Op>, turns: seq<Turn>, t: Tid, u: Tid, n: int,
        k: int)
    requires Requests(s, tasks) && t in tasks && u in tasks && t != u
    requires tasks[t].DoDetect? && tasks[u].DoDetect? && tasks[t].sid == tasks[u].sid
    ensures {t, u} <= Schedule(Launch(s, clock, tasks), turns).threads.Keys
    ensures var m := Schedule(Launch(s, clock, tasks), turns);
      !(Answered(m, t, DetectReplied(Reused(n))) && Answered(m, u, DetectReplied(Reused(k))))
  {
    ScheduleReaches(s, clock, tasks, turns);
    TwoDetections(Schedule(Launch(s, clock, tasks), turns), s, tasks, t, u, n, k);
  }
}
