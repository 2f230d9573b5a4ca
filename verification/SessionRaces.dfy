/**
 Rotations, revokes, user-wide revokes and reuse detections running at once, at the grain of row locks, single
 statements, commit and rollback. A family row is locked before anything else of that family is read, and a
 transaction's writes reach the tables when it commits. Every schedule gives the answers and the tables of some
 serial order of the transactions that did not fail.
 */
module SessionRaces {
  import opened Instants
  import opened StringOrder
  import opened SessionFamilies
  import opened SessionHistory

  type Tid = nat

  /** Rows a transaction wrote and has not committed. */
  datatype Writes = Writes(
    families: map<Sid, Family>,
    goneFamilies: set<Sid>,
    members: map<Jti, Member>,
    goneMembers: set<Jti>
  )

  const NOTHING := Writes(map[], {}, map[], {})

  function Commit(s: Store, w: Writes): Store {
    Store((s.families - w.goneFamilies) + w.families, (s.members - w.goneMembers) + w.members)
  }

  datatype Pc =
    | Start
    | Held(now: Time, fam: Family)                  // family row locked and read
    | Known(now: Time, fam: Family, member: bool)   // member row read
    | Inserted(now: Time, fam: Family)              // new member written
    | Updated(now: Time, fam: Family)               // family row written
    | Scanning(now: Time)                           // locking the user's family rows one by one
    | Ready(now: Time, reply: Reply)                // only the commit is left
    | RolledBack(reply: Reply)                      // undone, locks still held
    | Finished(reply: Reply)
    | Failed                                        // database error: rolled back, nothing answered

  datatype Thread = Thread(op: Op, pc: Pc, writes: Writes)

  /** A transaction that took effect, at its place in the serial order. */
  datatype Done = Done(tid: Tid, now: Time, op: Op, reply: Reply)

  datatype Machine = Machine(
    db: Store,
    owner: map<Sid, Tid>,
    threads: map<Tid, Thread>,
    clock: Time,
    history: seq<Done>
  )

  /** What the scheduler decides for one step: the clock, which row a scan tries next, and whether it fails. */
  datatype Choice = Choice(now: Time, pick: Sid, fail: bool)

  predicate Racing(op: Op) {
    op.DoRotate? || op.DoRevoke? || op.DoDetect? || op.DoRevokeUser?
  }

  function LockedBy(m: Machine, t: Tid): set<Sid> {
    set x | x in m.owner && m.owner[x] == t
  }

  function Released(m: Machine, t: Tid): map<Sid, Tid> {
    map x | x in m.owner && m.owner[x] != t :: m.owner[x]
  }

  function At(m: Machine, t: Tid, pc: Pc, writes: Writes): Machine
    requires t in m.threads
  {
    m.(threads := m.threads[t := Thread(m.threads[t].op, pc, writes)])
  }

  function DeleteWrites(s: Store, sids: set<Sid>): Writes {
    Writes(map[], set x | x in sids && x in s.families, map[], set j | j in s.members && s.members[j].sid in sids)
  }

  function OfUser(s: Store, user: int): set<Sid> {
    set x | x in s.families && s.families[x].user == user
  }

  function NoRowReply(op: Op): Reply {
    match op
    case DoRotate(_, _, _, _, _) => RotateReplied(SessionRevoked)
    case DoRevoke(_) => RevokeReplied([])
    case _ => DetectReplied(Unknown)
  }

  /** The same transactions, each at some point of its run. */
  ghost predicate SameTasks(m: Machine, m': Machine) {
    m'.threads.Keys == m.threads.Keys && forall t | t in m.threads :: m'.threads[t].op == m.threads[t].op
  }

  function Pruned(s: Store, sid: Sid, top: int): set<Jti> {
    set j | j in s.members && s.members[j].sid == sid && s.members[j].number <= top
  }

  /** Where one step of a transaction goes, and all it has written by then. */
  datatype Move = Move(pc: Pc, writes: Writes)

  /** The family row is locked and read; read the member row, or decide without it. */
  function AfterLock(s: Store, op: Op, now: Time, fam: Family): Move {
    match op
    case DoRotate(old_, new_, sid, user, ttl) =>
      if fam.expires <= now || fam.user != user then Move(Ready(now, RotateReplied(SessionRevoked)), NOTHING)
      else Move(Known(now, fam, IsMemberOf(s, sid, old_)), NOTHING)
    case DoRevoke(sid) =>
      if fam.expires <= now then Move(Ready(now, RevokeReplied([])), NOTHING)
      else Move(Ready(now, RevokeReplied(Sorted(MembersOf(s, sid)))), DeleteWrites(s, {sid}))
    case DoDetect(jti, sid) =>
      if fam.expires <= now then Move(Ready(now, DetectReplied(Unknown)), NOTHING)
      else if fam.head == jti then Move(Ready(now, DetectReplied(LiveHead)), NOTHING)
      else Move(Known(now, fam, IsMemberOf(s, sid, jti)), NOTHING)
    case _ => Move(Held(now, fam), NOTHING)
  }

  function AfterMemberRead(s: Store, op: Op, now: Time, fam: Family, member: bool): Move {
    match op
    case DoRotate(old_, new_, sid, user, ttl) =>
      if !member then Move(Ready(now, RotateReplied(SessionRevoked)), NOTHING)
      else if fam.head != old_ then Move(Ready(now, RotateReplied(AlreadyRotated)), NOTHING)
      else if new_ in s.members then Move(RolledBack(RotateReplied(JtiCollision)), NOTHING)
      else if NumberTaken(s, sid, fam.rotations + 1) then Move(RolledBack(RotateReplied(ForkedFamily)), NOTHING)
      else Move(Inserted(now, fam), NOTHING.(members := map[new_ := Member(sid, fam.rotations + 1, now)]))
    case DoDetect(jti, sid) =>
      if !member && fam.rotations < KEEP_MEMBERS then Move(Ready(now, DetectReplied(Unknown)), NOTHING)
      else if Graced(s, jti, now) then Move(Ready(now, DetectReplied(InGrace)), NOTHING)
      else Move(Ready(now, DetectReplied(Reused(fam.rotations + 1))), DeleteWrites(s, {sid}))
    case _ => Move(Known(now, fam, member), NOTHING)
  }

  /** UPDATE of the family row. */
  function AfterInsert(op: Op, now: Time, fam: Family, writes: Writes): Move {
    match op
    case DoRotate(old_, new_, sid, user, ttl) =>
      Move(Updated(now, fam),
          writes.(families := map[sid := Family(fam.user, new_, fam.rotations + 1, now + ttl * SECOND)]))
    case _ => Move(Inserted(now, fam), writes)
  }

  /** The pruning DELETE. */
  function AfterUpdate(s: Store, op: Op, now: Time, fam: Family, writes: Writes): Move {
    match op
    case DoRotate(old_, new_, sid, user, ttl) =>
      Move(Ready(now, RotateReplied(Rotated)),
           writes.(goneMembers := Pruned(s, sid, fam.rotations + 1 - KEEP_MEMBERS)))
    case _ => Move(Updated(now, fam), writes)
  }

  /** A thread makes its move; a rollback on a duplicate key has its answer from here on. */
  function Moved(m: Machine, t: Tid, now: Time, move: Move): Machine
    requires t in m.threads
  {
    var m' := At(m, t, move.pc, move.writes);
    if move.pc.RolledBack? then m'.(history := m.history + [Done(t, now, m.threads[t].op, move.pc.reply)]) else m'
  }

  function Scan(m: Machine, t: Tid, pick: Sid): Machine
    requires t in m.threads && m.threads[t].pc.Scanning?
  {
    var now := m.threads[t].pc.now;
    match m.threads[t].op
    case DoRevokeUser(user, keep) =>
      if OfUser(m.db, user) <= LockedBy(m, t) then
        var gone := set x | x in OfUser(m.db, user) && x !in keep;
        At(m, t, Ready(now, RevokeUserReplied(|gone|)), DeleteWrites(m.db, gone))
      else if pick in OfUser(m.db, user) && pick !in m.owner then m.(owner := m.owner[pick := t])
      else m
    case _ => m
  }

  function Begin(m: Machine, t: Tid, now: Time): Machine
    requires t in m.threads
  {
    var op := m.threads[t].op;
    var m1 := m.(clock := now);
    if op.DoRevokeUser? then At(m1, t, Scanning(now), NOTHING)
    else if op.DoRotate? || op.DoRevoke? || op.DoDetect? then
      if op.sid !in m.db.families then
        At(m1, t, Finished(NoRowReply(op)), NOTHING).(history := m.history + [Done(t, now, op, NoRowReply(op))])
      else if op.sid in m.owner then m
      else At(m1, t, Held(now, m.db.families[op.sid]), NOTHING).(owner := m.owner[op.sid := t])
    else m
  }

  /** One step of thread `t`; a step that has to wait changes nothing. */
  ghost function Advance(m: Machine, t: Tid, c: Choice): Machine
  {
    if t !in m.threads then m
    else
      var Thread(op, pc, writes) := m.threads[t];
      if pc.Finished? || pc.Failed? then m
      else if pc.RolledBack? then At(m, t, Finished(pc.reply), NOTHING).(owner := Released(m, t))
      else if c.fail then At(m, t, Failed, NOTHING).(owner := Released(m, t))
      else match pc
        case Start => Begin(m, t, if c.now < m.clock then m.clock else c.now)
        case Held(now, fam) => Moved(m, t, now, AfterLock(m.db, op, now, fam))
        case Known(now, fam, member) => Moved(m, t, now, AfterMemberRead(m.db, op, now, fam, member))
        case Inserted(now, fam) => Moved(m, t, now, AfterInsert(op, now, fam, writes))
        case Updated(now, fam) => Moved(m, t, now, AfterUpdate(m.db, op, now, fam, writes))
        case Scanning(_) => Scan(m, t, c.pick)
        case Ready(now, reply) =>
          At(m, t, Finished(reply), NOTHING).(
            db := Commit(m.db, writes), owner := Released(m, t), history := m.history + [Done(t, now, op, reply)])
        case _ => m
  }

  datatype Turn = Turn(tid: Tid, choice: Choice)

  ghost function Schedule(m: Machine, turns: seq<Turn>): Machine
    decreases |turns|
  {
    if turns == [] then m else Schedule(Advance(m, turns[0].tid, turns[0].choice), turns[1..])
  }

  // ---- the serial order ----

  ghost function Replay(s: Store, h: seq<Done>): Store {
    if h == [] then s else Apply(Replay(s, h[..|h| - 1]), h[|h| - 1].now, h[|h| - 1].op).0
  }

  ghost predicate Serial(s: Store, h: seq<Done>) {
    forall i | 0 <= i < |h| :: h[i].reply == Apply(Replay(s, h[..i]), h[i].now, h[i].op).1
  }

  // ---- effects, and the rows they depend on ----

  function RotationWrites(op: Op, now: Time, f: Family, pruned: set<Jti>): Writes
    requires op.DoRotate?
  {
    Writes(map[op.sid := Family(f.user, op.new_, f.rotations + 1, now + op.ttl * SECOND)], {},
           map[op.new_ := Member(op.sid, f.rotations + 1, now)], pruned)
  }

  /** What an atomic transaction writes. */
  function Effect(s: Store, now: Time, op: Op): Writes {
    match op
    case DoRotate(old_, new_, sid, user, ttl) =>
      if Rotate(s, now, old_, new_, sid, user, ttl).1.Rotated? then
        RotationWrites(op, now, s.families[sid], Pruned(s, sid, s.families[sid].rotations + 1 - KEEP_MEMBERS))
      else NOTHING
    case DoRevoke(sid) => if Live(s, sid, now) then DeleteWrites(s, {sid}) else NOTHING
    case DoDetect(jti, sid) => if Detect(s, now, jti, sid).1.Reused? then DeleteWrites(s, {sid}) else NOTHING
    case DoRevokeUser(user, keep) => DeleteWrites(s, FamiliesToRevoke(s, user, keep))
    case _ => NOTHING
  }

  lemma CommitDelete(s: Store, sids: set<Sid>)
    ensures Commit(s, DeleteWrites(s, sids)) == Drop(s, sids)
  {
  }

  lemma CommitNothing(s: Store)
    ensures Commit(s, NOTHING) == s
  {
  }

  lemma CommitRotation(s: Store, now: Time, op: Op)
    requires op.DoRotate? && Rotate(s, now, op.old_, op.new_, op.sid, op.user, op.ttl).1.Rotated?
    ensures Commit(s, Effect(s, now, op)) == Append(s, now, op.new_, op.sid, op.ttl)
  {
  }

  lemma CommitEffect(s: Store, now: Time, op: Op)
    requires Racing(op)
    ensures Commit(s, Effect(s, now, op)) == Apply(s, now, op).0
  {
    CommitNothing(s);
    match op
    case DoRotate(old_, new_, sid, user, ttl) =>
      if Rotate(s, now, old_, new_, sid, user, ttl).1.Rotated? { CommitRotation(s, now, op); }
    case DoRevoke(sid) => CommitDelete(s, {sid});
    case DoDetect(jti, sid) => CommitDelete(s, {sid});
    case DoRevokeUser(user, keep) => CommitDelete(s, FamiliesToRevoke(s, user, keep));
    case _ =>
  }
}
