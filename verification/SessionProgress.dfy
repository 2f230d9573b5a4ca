/**
 What racing transactions get done. One that finds its families unlocked runs to the answer of its atomic form, in any
 order they may take effect, and nobody waits for ever.
 */
module SessionProgress {
  import opened Instants
  import opened SessionFamilies
  import opened SessionHistory
  import opened SessionSafety
  import opened SessionAnswers
  import opened SessionRaces
  import opened SessionSerial
  import opened SessionOutcomes
  import opened SessionRacedStates

  /** Turns of one thread, none of which fails. */
  predicate OwnTurns(turns: seq<Turn>, t: Tid) {
    forall i | 0 <= i < |turns| :: turns[i].tid == t && !turns[i].choice.fail
  }

  /** Nobody else holds a row the transaction locks. */
  ghost predicate Unobstructed(m: Machine, t: Tid)
    requires t in m.threads
  {
    forall x | x in Targets(m.db, m.threads[t].op) && x in m.owner :: m.owner[x] == t
  }

  /** The transaction is under way with this reading of the clock, or may begin with it. */
  predicate Reads(m: Machine, t: Tid, now: Time)
    requires t in m.threads
  {
    var pc := m.threads[t].pc;
    if pc.Start? then m.clock <= now else Busy(pc) && pc.now == now
  }

  function ClockAfter(m: Machine, t: Tid, now: Time): Time
    requires t in m.threads
  {
    if m.threads[t].pc.Start? then now else m.clock
  }

  /** The transaction has run: the tables and the answer are those of its atomic form, its locks are gone, and nothing
      else has changed. */
  ghost predicate Completed(m: Machine, m': Machine, t: Tid, now: Time)
    requires t in m.threads
  {
    var op := m.threads[t].op;
    var r := Apply(m.db, now, op);
    && m'.db == r.0
    && m'.threads == m.threads[t := Thread(op, Finished(r.1), NOTHING)]
    && m'.owner == Released(m, t)
    && m'.history == m.history + [Done(t, now, op, r.1)]
    && m'.clock == ClockAfter(m, t, now)
  }

  /** One turn on the way there. */
  ghost predicate Nearer(m: Machine, m': Machine, t: Tid, now: Time)
    requires t in m.threads
  {
    && m'.db == m.db && m'.history == m.history && m'.clock == ClockAfter(m, t, now)
    && t in m'.threads && m'.threads[t].op == m.threads[t].op && m'.threads == m.threads[t := m'.threads[t]]
    && Released(m', t) == Released(m, t)
    && Unobstructed(m', t) && Reads(m', t, now) && !m'.threads[t].pc.Start?
  }

  lemma NearerThenDone(m: Machine, m1: Machine, m': Machine, t: Tid, now: Time)
    requires t in m.threads && Nearer(m, m1, t, now) && Completed(m1, m', t, now)
    ensures Completed(m, m', t, now)
  {
  }

  // ---- one turn ----

  function Stage(pc: Pc): nat {
    match pc
    case Start => 6
    case Held(_, _) => 5
    case Scanning(_) => 5
    case Known(_, _, _) => 4
    case Inserted(_, _) => 3
    case Updated(_, _) => 2
    case Ready(_, _) => 1
    case RolledBack(_) => 1
    case Finished(_) => 0
    case Failed => 0
  }

  function ToLock(m: Machine, t: Tid): set<Sid>
    requires t in m.threads
  {
    Targets(m.db, m.threads[t].op) - LockedBy(m, t)
  }

  lemma StayingIsNearer(m: Machine, t: Tid, now: Time, move: Move)
    requires t in m.threads && Unobstructed(m, t) && Busy(m.threads[t].pc) && m.threads[t].pc.now == now
    requires Busy(move.pc) && move.pc.now == now
    ensures Nearer(m, Moved(m, t, now, move), t, now)
  {
    var m' := Moved(m, t, now, move);
    assert m'.owner == m.owner;
  }

  lemma BeginsScan(m: Machine, t: Tid, now: Time)
    requires t in m.threads && m.threads[t].pc.Start? && m.threads[t].op.DoRevokeUser?
    requires Unobstructed(m, t) && m.clock <= now
    ensures Nearer(m, Begin(m, t, now), t, now) && Begin(m, t, now).threads[t].pc.Scanning?
  {
    assert Begin(m, t, now).owner == m.owner;
  }

  lemma TakingIsNearer(m: Machine, m': Machine, t: Tid, now: Time, x: Sid)
    requires t in m.threads && Unobstructed(m, t) && x !in m.owner && m'.owner == m.owner[x := t]
    requires m'.db == m.db && m'.history == m.history && m'.clock == ClockAfter(m, t, now)
    requires t in m'.threads && m'.threads[t].op == m.threads[t].op && m'.threads == m.threads[t := m'.threads[t]]
    requires Busy(m'.threads[t].pc) && m'.threads[t].pc.now == now
    ensures Nearer(m, m', t, now)
  {
  }

  /** A thread for one family only. */
  predicate ForOne(op: Op) {
    op.DoRotate? || op.DoRevoke? || op.DoDetect?
  }

  lemma BeginsHolding(m: Machine, t: Tid, now: Time)
    requires t in m.threads && m.threads[t].pc.Start? && ForOne(m.threads[t].op)
    requires m.threads[t].op.sid in m.db.families && m.threads[t].op.sid !in m.owner
    requires Unobstructed(m, t) && m.clock <= now
    ensures Nearer(m, Begin(m, t, now), t, now) && Begin(m, t, now).threads[t].pc.Held?
  {
    TakingIsNearer(m, Begin(m, t, now), t, now, m.threads[t].op.sid);
  }

  lemma ScansOn(m: Machine, t: Tid, now: Time) returns (pick: Sid)
    requires t in m.threads && m.threads[t].pc.Scanning? && m.threads[t].pc.now == now && m.threads[t].op.DoRevokeUser?
    requires Unobstructed(m, t) && m.threads[t].writes == NOTHING
    ensures var m' := Scan(m, t, pick);
      && Nearer(m, m', t, now)
      && (m'.threads[t].pc.Ready? || (m'.threads[t].pc.Scanning? && ToLock(m', t) < ToLock(m, t)))
  {
    if OfUser(m.db, m.threads[t].op.user) <= LockedBy(m, t) {
      pick := "";
      ScanEnds(m, t, now, pick);
    } else {
      pick :| pick in OfUser(m.db, m.threads[t].op.user) && pick !in LockedBy(m, t);
      ScanLocks(m, t, now, pick);
    }
  }

  lemma ScanEnds(m: Machine, t: Tid, now: Time, pick: Sid)
    requires t in m.threads && m.threads[t].pc.Scanning? && m.threads[t].pc.now == now && m.threads[t].op.DoRevokeUser?
    requires Unobstructed(m, t) && OfUser(m.db, m.threads[t].op.user) <= LockedBy(m, t)
    ensures Nearer(m, Scan(m, t, pick), t, now) && Scan(m, t, pick).threads[t].pc.Ready?
  {
    assert Scan(m, t, pick).owner == m.owner;
  }

  lemma ScanLocks(m: Machine, t: Tid, now: Time, pick: Sid)
    requires t in m.threads && m.threads[t].pc.Scanning? && m.threads[t].pc.now == now && m.threads[t].op.DoRevokeUser?
    requires Unobstructed(m, t) && pick in OfUser(m.db, m.threads[t].op.user) && pick !in LockedBy(m, t)
    ensures var m' := Scan(m, t, pick);
      Nearer(m, m', t, now) && m'.threads[t].pc.Scanning? && ToLock(m', t) < ToLock(m, t)
  {
    var m' := m.(owner := m.owner[pick := t]);
    assert pick !in m.owner;
    TakingIsNearer(m, m', t, now, pick);
    LocksAfterTaking(m, m', t, pick);
    assert pick in ToLock(m, t) && pick !in ToLock(m', t);
  }

  // ---- the last turns ----

  lemma AnswersAtOnce(m: Machine, t: Tid, now: Time)
    requires t in m.threads && m.threads[t].pc.Start? && FindsNoRow(m, m.threads[t].op)
    requires m.threads[t].writes == NOTHING && LockedBy(m, t) == {} && m.clock <= now
    ensures Completed(m, Begin(m, t, now), t, now)
  {
    NoRowAnswer(m.db, now, m.threads[t].op);
    assert forall x | x in m.owner :: x !in LockedBy(m, t);
    assert Released(m, t) == m.owner;
  }

  lemma CommitCompletes(m: Machine, t: Tid)
    requires t in m.threads && m.threads[t].pc.Ready?
    requires Apply(m.db, m.threads[t].pc.now, m.threads[t].op) == (Committed(m, t).db, m.threads[t].pc.reply)
    ensures Completed(m, Committed(m, t), t, m.threads[t].pc.now)
  {
  }

  function RolledBackTo(m: Machine, t: Tid, now: Time, reply: Reply): Machine
    requires t in m.threads
  {
    Moved(m, t, now, Move(RolledBack(reply), NOTHING))
  }

  lemma RollbackCompletes(m: Machine, t: Tid, now: Time, reply: Reply, c: Choice)
    requires t in m.threads && !m.threads[t].pc.Start? && Apply(m.db, now, m.threads[t].op) == (m.db, reply)
    ensures Completed(m, Advance(RolledBackTo(m, t, now, reply), t, c), t, now)
  {
    assert Released(RolledBackTo(m, t, now, reply), t) == Released(m, t);
  }

  // ---- a thread runs to its end ----

  lemma FirstTurn(m: Machine, turn: Turn, turns: seq<Turn>)
    ensures Schedule(m, [turn] + turns) == Schedule(Advance(m, turn.tid, turn.choice), turns)
  {
    assert ([turn] + turns)[1..] == turns;
  }

  /** The next turn gives the answer. */
  ghost predicate Last(m: Machine, t: Tid)
    requires t in m.threads
  {
    var Thread(op, pc, _) := m.threads[t];
    || pc.Ready?
    || (pc.Start? && FindsNoRow(m, op))
    || (pc.Known? && AfterMemberRead(m.db, op, pc.now, pc.fam, pc.member).pc.RolledBack?)
  }

  /** What is known of a thread from its own locks. */
  predicate Prepared(m: Machine, t: Tid)
    requires t in m.threads
  {
    var Thread(op, pc, writes) := m.threads[t];
    match pc
    case Start =>
      writes == NOTHING && LockedBy(m, t) == {} && (op.DoRevokeUser? || ForOne(op))
    case Held(_, _) => ForOne(op)
    case Known(_, _, _) => op.DoRotate? || op.DoDetect?
    case Inserted(_, _) => op.DoRotate?
    case Updated(_, _) => op.DoRotate?
    case Scanning(_) => op.DoRevokeUser? && writes == NOTHING
    case _ => true
  }

  lemma IsPrepared(m: Machine, t: Tid, s: Store, home: Home)
    requires MachineOk(m, s, home) && t in m.threads
    ensures Prepared(m, t)
  {
    assert ThreadOk(m.db, m.threads[t], LockedBy(m, t), home);
  }

  ghost predicate Shorter(m: Machine, m': Machine, t: Tid)
    requires t in m.threads && t in m'.threads
  {
    || Stage(m'.threads[t].pc) < Stage(m.threads[t].pc)
    || (Stage(m'.threads[t].pc) == Stage(m.threads[t].pc) && ToLock(m', t) < ToLock(m, t))
  }

  /** A turn that leaves the thread under way, if there is one. */
  lemma NextTurn(m: Machine, t: Tid, now: Time) returns (c: Choice)
    requires t in m.threads && Prepared(m, t) && Unobstructed(m, t) && Reads(m, t, now) && !Last(m, t)
    ensures !c.fail && Nearer(m, Advance(m, t, c), t, now) && Shorter(m, Advance(m, t, c), t)
  {
    c := Choice(now, "", false);
    if m.threads[t].pc.Start? {
      Begins(m, t, now);
    } else if m.threads[t].pc.Scanning? {
      var pick := ScansOn(m, t, now);
      c := Choice(now, pick, false);
    } else if m.threads[t].pc.Held? {
      LockedMovesOn(m, t, now, c);
    } else if m.threads[t].pc.Known? {
      ReadMovesOn(m, t, now, c);
    } else {
      WritingMovesOn(m, t, now, c);
    }
  }

  lemma Begins(m: Machine, t: Tid, now: Time)
    requires t in m.threads && m.threads[t].pc.Start? && Prepared(m, t) && Unobstructed(m, t) && m.clock <= now
    requires !FindsNoRow(m, m.threads[t].op)
    ensures Nearer(m, Begin(m, t, now), t, now) && Stage(Begin(m, t, now).threads[t].pc) == 5
  {
    if m.threads[t].op.DoRevokeUser? {
      BeginsScan(m, t, now);
    } else {
      assert forall x | x in m.owner :: x !in LockedBy(m, t);
      BeginsHolding(m, t, now);
    }
  }

  lemma LockedMovesOn(m: Machine, t: Tid, now: Time, c: Choice)
    requires t in m.threads && m.threads[t].pc.Held? && m.threads[t].pc.now == now
    requires ForOne(m.threads[t].op) && Unobstructed(m, t) && !c.fail
    ensures Nearer(m, Advance(m, t, c), t, now) && Stage(Advance(m, t, c).threads[t].pc) < 5
  {
    var Thread(op, pc, _) := m.threads[t];
    StayingIsNearer(m, t, now, AfterLock(m.db, op, now, pc.fam));
  }

  lemma ReadMovesOn(m: Machine, t: Tid, now: Time, c: Choice)
    requires t in m.threads && m.threads[t].pc.Known? && m.threads[t].pc.now == now
    requires (m.threads[t].op.DoRotate? || m.threads[t].op.DoDetect?) && Unobstructed(m, t) && !c.fail && !Last(m, t)
    ensures Nearer(m, Advance(m, t, c), t, now) && Stage(Advance(m, t, c).threads[t].pc) < 4
  {
    var Thread(op, pc, _) := m.threads[t];
    StayingIsNearer(m, t, now, AfterMemberRead(m.db, op, now, pc.fam, pc.member));
  }

  lemma WritingMovesOn(m: Machine, t: Tid, now: Time, c: Choice)
    requires t in m.threads && (m.threads[t].pc.Inserted? || m.threads[t].pc.Updated?) && m.threads[t].pc.now == now
    requires m.threads[t].op.DoRotate? && Unobstructed(m, t) && !c.fail
    ensures Nearer(m, Advance(m, t, c), t, now)
    ensures Stage(Advance(m, t, c).threads[t].pc) < Stage(m.threads[t].pc)
  {
    var Thread(op, pc, writes) := m.threads[t];
    if pc.Inserted? { StayingIsNearer(m, t, now, AfterInsert(op, now, pc.fam, writes)); }
    else { StayingIsNearer(m, t, now, AfterUpdate(m.db, op, now, pc.fam, writes)); }
  }

  lemma RollbackEnding(m: Machine, t: Tid, now: Time, s: Store, home: Home, c: Choice)
    requires MachineOk(m, s, home) && t in m.threads && m.threads[t].pc.Known? && m.threads[t].pc.now == now
    requires Last(m, t) && !c.fail
    ensures Completed(m, Advance(Advance(m, t, c), t, c), t, now)
  {
    var Thread(op, pc, _) := m.threads[t];
    assert ThreadOk(m.db, m.threads[t], LockedBy(m, t), home);
    RollbackAnswer(m.db, op, now, pc.fam, pc.member, LockedBy(m, t), home);
    RollbackCompletes(m, t, now, AfterMemberRead(m.db, op, now, pc.fam, pc.member).pc.reply, c);
  }

  lemma OneTurnEnding(m: Machine, t: Tid, now: Time, s: Store, home: Home, c: Choice)
    requires MachineOk(m, s, home) && t in m.threads && Reads(m, t, now) && Last(m, t) && !m.threads[t].pc.Known?
    requires !c.fail && c.now == now
    ensures Completed(m, Advance(m, t, c), t, now)
  {
    IsPrepared(m, t, s, home);
    if m.threads[t].pc.Ready? {
      ReadyMeans(m, s, home, t);
      CommitCompletes(m, t);
    } else {
      AnswersAtOnce(m, t, now);
    }
  }

  lemma OneTurn(m: Machine, turn: Turn)
    ensures Schedule(m, [turn]) == Advance(m, turn.tid, turn.choice)
  {
    FirstTurn(m, turn, []);
    assert [turn] + [] == [turn];
  }

  lemma TwoTurns(m: Machine, turn: Turn)
    ensures Schedule(m, [turn, turn]) == Advance(Advance(m, turn.tid, turn.choice), turn.tid, turn.choice)
  {
    FirstTurn(m, turn, [turn]);
    OneTurn(Advance(m, turn.tid, turn.choice), turn);
    assert [turn] + [turn] == [turn, turn];
  }

  lemma Ending(m: Machine, t: Tid, now: Time, s: Store, home: Home) returns (turns: seq<Turn>)
    requires MachineOk(m, s, home) && t in m.threads && Reads(m, t, now) && Last(m, t)
    ensures OwnTurns(turns, t) && Completed(m, Schedule(m, turns), t, now)
  {
    var turn := Turn(t, Choice(now, "", false));
    if m.threads[t].pc.Known? {
      turns := [turn, turn];
      RollbackEnding(m, t, now, s, home, turn.choice);
      TwoTurns(m, turn);
    } else {
      turns := [turn];
      OneTurnEnding(m, t, now, s, home, turn.choice);
      OneTurn(m, turn);
    }
  }

  /** From any state a schedule reaches, a transaction that finds its families unlocked by others runs, by itself, to
      the answer and the tables of its atomic form. */
  lemma {:induction false} Completes(m: Machine, t: Tid, now: Time, s: Store, home: Home) returns (turns: seq<Turn>)
    requires MachineOk(m, s, home) && t in m.threads && Unobstructed(m, t) && Reads(m, t, now)
    ensures OwnTurns(turns, t) && Completed(m, Schedule(m, turns), t, now)
    decreases Stage(m.threads[t].pc), ToLock(m, t)
  {
    if Last(m, t) {
      turns := Ending(m, t, now, s, home);
    } else {
      IsPrepared(m, t, s, home);
      var c := NextTurn(m, t, now);
      var m1 := Advance(m, t, c);
      AdvanceKeepsOk(m, t, c, s, home);
      var others := Completes(m1, t, now, s, home);
      turns := [Turn(t, c)] + others;
      FirstTurn(m, Turn(t, c), others);
      NearerThenDone(m, m1, Schedule(m1, others), t, now);
    }
  }

  /** A rolled-back one only has to give its locks back and its answer. */
  lemma RollbackIsAnswered(m: Machine, t: Tid, c: Choice)
    requires t in m.threads && m.threads[t].pc.RolledBack?
    ensures Advance(m, t, c) == At(m, t, Finished(m.threads[t].pc.reply), NOTHING).(owner := Released(m, t))
  {
  }

  // ---- every serial order is the history of some schedule ----

  datatype Call = Call(tid: Tid, now: Time)

  /** The transactions one at a time, with the answers of their atomic forms. */
  ghost function SerialHistory(s: Store, tasks: map<Tid, Op>, order: seq<Call>): seq<Done>
    requires forall c | c in order :: c.tid in tasks
    decreases |order|
  {
    if order == [] then []
    else
      var op := tasks[order[0].tid];
      var r := Apply(s, order[0].now, op);
      [Done(order[0].tid, order[0].now, op, r.1)] + SerialHistory(r.0, tasks, order[1..])
  }

  /** The tables after them. */
  ghost function SerialStore(s: Store, tasks: map<Tid, Op>, order: seq<Call>): Store
    requires forall c | c in order :: c.tid in tasks
    decreases |order|
  {
    if order == [] then s
    else SerialStore(Apply(s, order[0].now, tasks[order[0].tid]).0, tasks, order[1..])
  }

  /** Each at most once, on a clock that does not go back. */
  ghost predicate InTurn(clock: Time, order: seq<Call>) {
    && (forall i, j | 0 <= i < j < |order| :: order[i].tid != order[j].tid && order[i].now <= order[j].now)
    && (forall i | 0 <= i < |order| :: clock <= order[i].now)
  }

  /** The transactions of `order` have not begun, and no row is locked. */
  ghost predicate Idle(m: Machine, tasks: map<Tid, Op>, order: seq<Call>) {
    && m.owner == map[]
    && forall c | c in order ::
      c.tid in tasks && c.tid in m.threads && m.threads[c.tid] == Thread(tasks[c.tid], Start, NOTHING)
  }

  predicate NoneFails(turns: seq<Turn>) {
    forall i | 0 <= i < |turns| :: !turns[i].choice.fail
  }

  /** All of `order` have answered, as recorded; the other threads are where they were. */
  ghost predicate AllAnswered(m: Machine, m': Machine, h: seq<Done>) {
    && m'.owner == map[] && m'.threads.Keys == m.threads.Keys
    && (forall d | d in h :: d.tid in m'.threads && m'.threads[d.tid] == Thread(d.op, Finished(d.reply), NOTHING))
    && (forall t | t in m.threads && (forall d | d in h :: d.tid != t) :: m'.threads[t] == m.threads[t])
  }

  lemma {:induction false} ScheduleOn(m: Machine, a: seq<Turn>, b: seq<Turn>)
    ensures Schedule(m, a + b) == Schedule(Schedule(m, a), b)
    decreases |a|
  {
    if a == [] {
      assert a + b == b;
    } else {
      ScheduleOn(Advance(m, a[0].tid, a[0].choice), a[1..], b);
      assert (a + b)[1..] == a[1..] + b;
    }
  }

  lemma {:induction false} OrderIsRecorded(s: Store, tasks: map<Tid, Op>, order: seq<Call>)
    requires forall c | c in order :: c.tid in tasks
    ensures |SerialHistory(s, tasks, order)| == |order|
    ensures forall i | 0 <= i < |order| :: SerialHistory(s, tasks, order)[i].tid == order[i].tid
    decreases |order|
  {
    if order != [] { OrderIsRecorded(Apply(s, order[0].now, tasks[order[0].tid]).0, tasks, order[1..]); }
  }

  lemma FirstOfOrder(m: Machine, m1: Machine, tasks: map<Tid, Op>, order: seq<Call>)
    requires order != [] && InTurn(m.clock, order) && Idle(m, tasks, order)
    requires Completed(m, m1, order[0].tid, order[0].now)
    ensures InTurn(m1.clock, order[1..]) && Idle(m1, tasks, order[1..])
  {
    forall c | c in order[1..] ensures c.tid != order[0].tid && m1.threads[c.tid] == m.threads[c.tid] {
      var i :| 1 <= i < |order| && order[i] == c;
    }
  }

  lemma AnsweredFirst(m: Machine, m1: Machine, m': Machine, t: Tid, now: Time, rest: seq<Done>)
    requires t in m.threads && Completed(m, m1, t, now) && AllAnswered(m1, m', rest)
    requires forall d | d in rest :: d.tid != t
    ensures AllAnswered(m, m', [Done(t, now, m.threads[t].op, Apply(m.db, now, m.threads[t].op).1)] + rest)
  {
    var d := Done(t, now, m.threads[t].op, Apply(m.db, now, m.threads[t].op).1);
    assert m'.threads[t] == m1.threads[t];
    forall u | u in m.threads && (forall d' | d' in [d] + rest :: d'.tid != u) ensures m'.threads[u] == m.threads[u] {
      assert d in [d] + rest;
      assert forall d' | d' in rest :: d' in [d] + rest;
    }
  }

  /** What a schedule that runs `order` gets to. */
  ghost predicate RanInOrder(m: Machine, m': Machine, tasks: map<Tid, Op>, order: seq<Call>)
    requires forall c | c in order :: c.tid in tasks
  {
    var h := SerialHistory(m.db, tasks, order);
    m'.history == m.history + h && AllAnswered(m, m', h) && m'.db == SerialStore(m.db, tasks, order)
  }

  lemma OrderGoesOn(m: Machine, m1: Machine, m': Machine, tasks: map<Tid, Op>, order: seq<Call>)
    requires order != [] && InTurn(m.clock, order) && Idle(m, tasks, order)
    requires Completed(m, m1, order[0].tid, order[0].now) && RanInOrder(m1, m', tasks, order[1..])
    ensures RanInOrder(m, m', tasks, order)
  {
    var t, now, rest := order[0].tid, order[0].now, SerialHistory(m1.db, tasks, order[1..]);
    var d := Done(t, now, tasks[t], Apply(m.db, now, tasks[t]).1);
    OneCall(m.db, tasks, order);
    OthersFollow(m1.db, tasks, order);
    AnsweredFirst(m, m1, m', t, now, rest);
    RecordedFirst(m.history, m1.history, m'.history, d, rest);
  }

  lemma RecordedFirst(h: seq<Done>, h1: seq<Done>, h': seq<Done>, d: Done, rest: seq<Done>)
    requires h1 == h + [d] && h' == h1 + rest
    ensures h' == h + ([d] + rest)
  {
  }

  lemma OneCall(s: Store, tasks: map<Tid, Op>, order: seq<Call>)
    requires order != [] && forall c | c in order :: c.tid in tasks
    ensures var Call(t, now) := order[0]; var r := Apply(s, now, tasks[t]);
      && SerialHistory(s, tasks, order) == [Done(t, now, tasks[t], r.1)] + SerialHistory(r.0, tasks, order[1..])
      && SerialStore(s, tasks, order) == SerialStore(r.0, tasks, order[1..])
  {
  }

  lemma OthersFollow(s: Store, tasks: map<Tid, Op>, order: seq<Call>)
    requires order != [] && (forall c | c in order :: c.tid in tasks)
    requires forall j | 0 < j < |order| :: order[0].tid != order[j].tid
    ensures forall d | d in SerialHistory(s, tasks, order[1..]) :: d.tid != order[0].tid
  {
    OrderIsRecorded(s, tasks, order[1..]);
  }

  /** Whatever order the requests are to take effect in, and at whatever instants, some schedule without failures has
      exactly that history, and answers each what its atomic form answers there. */
  lemma {:induction false} EveryOrderHappens(m: Machine, tasks: map<Tid, Op>, order: seq<Call>, s: Store, home: Home)
    returns (turns: seq<Turn>)
    requires MachineOk(m, s, home) && Idle(m, tasks, order) && InTurn(m.clock, order)
    ensures NoneFails(turns) && RanInOrder(m, Schedule(m, turns), tasks, order)
    decreases |order|
  {
    if order == [] {
      turns := [];
    } else {
      var first := Completes(m, order[0].tid, order[0].now, s, home);
      var m1 := Schedule(m, first);
      ScheduleKeepsOk(m, first, s, home);
      FirstOfOrder(m, m1, tasks, order);
      var others := EveryOrderHappens(m1, tasks, order[1..], s, home);
      turns := first + others;
      ScheduleOn(m, first, others);
      OrderGoesOn(m, m1, Schedule(m1, others), tasks, order);
    }
  }

  // ---- a race, run to its end ----

  lemma ChainEndsInHead(w: World, sid: Sid)
    requires Inv(w) && sid in w.store.families
    ensures sid in w.issued && w.issued[sid] != []
    ensures w.issued[sid][|w.issued[sid]| - 1].jti == w.store.families[sid].head
  {
    assert FamilyOk(w.store, sid, w.issued[sid]);
  }

  ghost predicate HasHead(w: World, sid: Sid, user: int, head: Jti) {
    Inv(w) && Live(w.store, sid, w.clock) && w.store.families[sid].user == user && w.store.families[sid].head == head
  }

  function Refresh(now: Time, sid: Sid, user: int, ttl: int, old_: Jti, new_: Jti): Event {
    Event(now, DoRotate(old_, new_, sid, user, ttl))
  }

  /** A rotation of a live head to a new jti, in atomic terms. */
  lemma HeadRotates(w: World, sid: Sid, user: int, ttl: int, head: Jti, new_: Jti)
    requires HasHead(w, sid, user, head) && NeverIssued(w.issued, new_) && ttl > 0
    ensures var e := Refresh(w.clock, sid, user, ttl, head, new_);
      && ReplyTo(w, e) == RotateReplied(Rotated) && HasHead(Next(w, e), sid, user, new_) && sid in w.issued
      && Next(w, e).issued == w.issued[sid := w.issued[sid] + [Entry(new_, w.clock)]]
  {
    var e := Refresh(w.clock, sid, user, ttl, head, new_);
    ChainEndsInHead(w, sid);
    RotationIsExact(w, w.clock, sid, |w.issued[sid]| - 1, new_, user, ttl);
    NeverIssuedIsNoMember(w.store, w.issued, new_);
    RotatedMeans(w, e);
    RotateKeepsInv(w, e);
    NewHead(w.store, w.clock, new_, sid, ttl);
  }

  /** Right after a head was rotated out, another rotation of it is told so. */
  lemma RotatedOutIsTold(w: World, sid: Sid, user: int, ttl: int, head: Jti, new_: Jti, other: Jti)
    requires HasHead(w, sid, user, head) && NeverIssued(w.issued, new_) && ttl > 0
    ensures var s' := Next(w, Refresh(w.clock, sid, user, ttl, head, new_)).store;
      Apply(s', w.clock, DoRotate(head, other, sid, user, ttl)) == (s', RotateReplied(AlreadyRotated))
  {
    ChainEndsInHead(w, sid);
    HeadRotates(w, sid, user, ttl, head, new_);
    var w' := Next(w, Refresh(w.clock, sid, user, ttl, head, new_));
    RotationIsExact(w', w.clock, sid, |w.issued[sid]| - 1, other, user, ttl);
  }

  lemma StillNew(issued: Issued, sid: Sid, e: Entry, jti: Jti)
    requires sid in issued && NeverIssued(issued, jti) && e.jti != jti
    ensures NeverIssued(issued[sid := issued[sid] + [e]], jti)
  {
  }

  lemma RaceReplies(w: World, sid: Sid, user: int, ttl: int, a: Jti, b: Jti, c: Jti, d: Jti)
    requires HasHead(w, sid, user, a) && b != d && ttl > 0 && NeverIssued(w.issued, b) && NeverIssued(w.issued, d)
    ensures var w1 := Next(w, Refresh(w.clock, sid, user, ttl, a, b));
      && ReplyTo(w, Refresh(w.clock, sid, user, ttl, a, b)) == RotateReplied(Rotated)
      && Apply(w1.store, w.clock, DoRotate(a, c, sid, user, ttl)) == (w1.store, RotateReplied(AlreadyRotated))
      && ReplyTo(w1, Refresh(w.clock, sid, user, ttl, b, d)) == RotateReplied(Rotated)
      && HasHead(Next(w1, Refresh(w.clock, sid, user, ttl, b, d)), sid, user, d)
  {
    HeadRotates(w, sid, user, ttl, a, b);
    RotatedOutIsTold(w, sid, user, ttl, a, b, c);
    StillNew(w.issued, sid, Entry(b, w.clock), d);
    HeadRotates(Next(w, Refresh(w.clock, sid, user, ttl, a, b)), sid, user, ttl, b, d);
  }

  lemma ThreeCalls(s: Store, tasks: map<Tid, Op>, now: Time)
    requires 0 in tasks && 1 in tasks && 2 in tasks
    ensures var s1 := Apply(s, now, tasks[0]);
      var s2 := Apply(s1.0, now, tasks[1]);
      var s3 := Apply(s2.0, now, tasks[2]);
      var order := [Call(0, now), Call(1, now), Call(2, now)];
      && SerialHistory(s, tasks, order) ==
         [Done(0, now, tasks[0], s1.1), Done(1, now, tasks[1], s2.1), Done(2, now, tasks[2], s3.1)]
      && SerialStore(s, tasks, order) == s3.0
  {
    var order := [Call(0, now), Call(1, now), Call(2, now)];
    var s1 := Apply(s, now, tasks[0]).0;
    assert order[1..] == [Call(1, now), Call(2, now)];
    OneCall(s, tasks, order);
    OneCall(s1, tasks, order[1..]);
    assert order[1..][1..] == [Call(2, now)];
    OneCall(Apply(s1, now, tasks[1]).0, tasks, [Call(2, now)]);
  }

  lemma AreRequests(w: World, sid: Sid, user: int, ttl: int, a: Jti, b: Jti, c: Jti, d: Jti)
    ensures var tasks := Refreshes(sid, user, ttl, a, b, c, d); Requests(w.store, tasks) && tasks.Keys == {0, 1, 2}
  {
  }

  /** Of two refreshes of a live head and a refresh of what the first mints, some schedule answers the first ok, the
      second that the token was already rotated, and the third ok. */
  lemma RaceIsRun(w: World, sid: Sid, user: int, ttl: int, a: Jti, b: Jti, c: Jti, d: Jti) returns (turns: seq<Turn>)
    requires HasHead(w, sid, user, a) && ttl > 0 && b != c && c != d && d != b
    requires NeverIssued(w.issued, b) && NeverIssued(w.issued, c) && NeverIssued(w.issued, d)
    ensures NoneFails(turns)
    ensures var m := Schedule(Launched(w, Refreshes(sid, user, ttl, a, b, c, d)), turns);
      && Answered(m, 0, RotateReplied(Rotated))
      && Answered(m, 1, RotateReplied(AlreadyRotated))
      && Answered(m, 2, RotateReplied(Rotated))
      && Live(m.db, sid, w.clock) && m.db.families[sid].head == d
  {
    var tasks := Refreshes(sid, user, ttl, a, b, c, d);
    AreRequests(w, sid, user, ttl, a, b, c, d);
    turns := AnyThree(w.store, w.clock, tasks);
    RaceReplies(w, sid, user, ttl, a, b, c, d);
  }

  /** Three requests, one after the other. */
  lemma AnyThree(s: Store, now: Time, tasks: map<Tid, Op>) returns (turns: seq<Turn>)
    requires Requests(s, tasks) && tasks.Keys == {0, 1, 2}
    ensures NoneFails(turns)
    ensures var s1 := Apply(s, now, tasks[0]);
      var s2 := Apply(s1.0, now, tasks[1]);
      var s3 := Apply(s2.0, now, tasks[2]);
      var m := Schedule(Launch(s, now, tasks), turns);
      Answered(m, 0, s1.1) && Answered(m, 1, s2.1) && Answered(m, 2, s3.1) && m.db == s3.0
  {
    var home := HomeExists(s, tasks);
    LaunchOk(s, now, tasks, [], home);
    var order := [Call(0, now), Call(1, now), Call(2, now)];
    turns := EveryOrderHappens(Launch(s, now, tasks), tasks, order, s, home);
    ThreeCalls(s, tasks, now);
    var h := SerialHistory(s, tasks, order);
    assert h[0] in h && h[1] in h && h[2] in h;
  }

  // ---- nobody waits for ever ----

  predicate IsOver(pc: Pc) {
    pc.Finished? || pc.Failed?
  }

  /** Whoever holds a row that somebody waits for can go on, unless it is itself locking a user's rows one by one. */
  lemma HolderGoesOn(m: Machine, t: Tid, s: Store, home: Home) returns (u: Tid)
    requires MachineOk(m, s, home) && t in m.threads && !Unobstructed(m, t)
    ensures u in m.threads && !IsOver(m.threads[u].pc) && (Unobstructed(m, u) || m.threads[u].pc.Scanning?)
  {
    var x :| x in Targets(m.db, m.threads[t].op) && x in m.owner && m.owner[x] != t;
    u := m.owner[x];
    assert x in LockedBy(m, u);
    assert ThreadOk(m.db, m.threads[u], LockedBy(m, u), home);
    LocksAreTargets(m, u, home);
  }

  lemma LocksAreTargets(m: Machine, u: Tid, home: Home)
    requires u in m.threads && ThreadOk(m.db, m.threads[u], LockedBy(m, u), home) && LockedBy(m, u) != {}
    ensures !IsOver(m.threads[u].pc) && !m.threads[u].pc.Start?
    ensures !m.threads[u].pc.Scanning? ==> Unobstructed(m, u)
  {
    if !m.threads[u].pc.Scanning? {
      assert LockedBy(m, u) == Targets(m.db, m.threads[u].op);
    }
  }

  /** Only thread `t` has moved, and it is over. */
  ghost predicate OneIsOver(m: Machine, m': Machine, t: Tid) {
    && t in m.threads && !IsOver(m.threads[t].pc)
    && m'.threads.Keys == m.threads.Keys && m'.threads[t].op == m.threads[t].op && IsOver(m'.threads[t].pc)
    && (forall u | u in m.threads && u != t :: m'.threads[u] == m.threads[u])
    && (m'.threads[t].pc.Failed? ==> m.threads[t].op.DoRevokeUser?)
  }

  lemma RunToItsEnd(m: Machine, t: Tid, s: Store, home: Home) returns (turns: seq<Turn>)
    requires MachineOk(m, s, home) && t in m.threads && !IsOver(m.threads[t].pc) && Unobstructed(m, t)
    ensures OneIsOver(m, Schedule(m, turns), t)
  {
    if m.threads[t].pc.RolledBack? {
      var turn := Turn(t, Choice(m.clock, "", false));
      turns := [turn];
      OneTurn(m, turn);
      RollbackIsAnswered(m, t, turn.choice);
    } else {
      turns := Completes(m, t, if m.threads[t].pc.Start? then m.clock else m.threads[t].pc.now, s, home);
    }
  }

  /** A transaction that fails before it has taken effect leaves no trace and frees its rows. */
  lemma FailureLeavesNoTrace(m: Machine, t: Tid, c: Choice)
    requires t in m.threads && !IsOver(m.threads[t].pc) && !m.threads[t].pc.RolledBack? && c.fail
    ensures var m' := Advance(m, t, c);
      && m'.db == m.db && m'.history == m.history && m'.clock == m.clock && LockedBy(m', t) == {}
      && m'.threads == m.threads[t := Thread(m.threads[t].op, Failed, NOTHING)]
      && forall u | u != t :: LockedBy(m', u) == LockedBy(m, u)
  {
    LocksAfterRelease(m, t, Failed);
    forall u | u != t ensures LockedBy(Advance(m, t, c), u) == LockedBy(m, u) {
      assert forall x :: x in LockedBy(Advance(m, t, c), u) <==> x in LockedBy(m, u);
    }
  }

  lemma GivesUp(m: Machine, t: Tid) returns (turns: seq<Turn>)
    requires t in m.threads && m.threads[t].pc.Scanning? && m.threads[t].op.DoRevokeUser?
    ensures OneIsOver(m, Schedule(m, turns), t)
  {
    var turn := Turn(t, Choice(m.clock, "", true));
    turns := [turn];
    OneTurn(m, turn);
    FailureLeavesNoTrace(m, t, turn.choice);
  }

  lemma OneMoreIsOver(m: Machine, t: Tid, s: Store, home: Home) returns (turns: seq<Turn>, u: Tid)
    requires MachineOk(m, s, home) && t in m.threads && !IsOver(m.threads[t].pc)
    ensures OneIsOver(m, Schedule(m, turns), u)
  {
    u := t;
    if !Unobstructed(m, t) { u := HolderGoesOn(m, t, s, home); }
    if Unobstructed(m, u) {
      turns := RunToItsEnd(m, u, s, home);
    } else {
      assert ThreadOk(m.db, m.threads[u], LockedBy(m, u), home);
      turns := GivesUp(m, u);
    }
  }

  function StillRunning(m: Machine): set<Tid> {
    set t | t in m.threads && !IsOver(m.threads[t].pc)
  }

  lemma OneFewer(m: Machine, m1: Machine, u: Tid)
    requires OneIsOver(m, m1, u)
    ensures StillRunning(m1) == StillRunning(m) - {u} && u in StillRunning(m)
  {
  }

  /** Everybody is over, and only a transaction that locks a user's rows one by one has failed since. */
  ghost predicate AllOver(m: Machine, m': Machine) {
    && StillRunning(m') == {} && m'.threads.Keys == m.threads.Keys
    && (forall t | t in m.threads :: m'.threads[t].op == m.threads[t].op)
    && (forall t | t in m.threads && m'.threads[t].pc.Failed? ::
      m.threads[t].pc.Failed? || m.threads[t].op.DoRevokeUser?)
  }

  lemma OverInTwo(m: Machine, m1: Machine, m': Machine, u: Tid)
    requires OneIsOver(m, m1, u) && AllOver(m1, m')
    ensures AllOver(m, m')
  {
  }

  /** From any state a schedule reaches everybody can be brought to an end: rotations, revocations and detections to an
      answer, and only user-wide revocations, which lock one row after the other and so may wait for each other, to a
      failure. */
  lemma {:induction false} EveryoneEnds(m: Machine, s: Store, home: Home) returns (turns: seq<Turn>)
    requires MachineOk(m, s, home)
    ensures AllOver(m, Schedule(m, turns))
    decreases |StillRunning(m)|
  {
    if StillRunning(m) == {} {
      turns := [];
    } else {
      var t :| t in StillRunning(m);
      var first, u := OneMoreIsOver(m, t, s, home);
      var m1 := Schedule(m, first);
      OneFewer(m, m1, u);
      ScheduleKeepsOk(m, first, s, home);
      var others := EveryoneEnds(m1, s, home);
      turns := first + others;
      ScheduleOn(m, first, others);
      OverInTwo(m, m1, Schedule(m1, others), u);
    }
  }

  // ---- the same, from any point of any schedule of requests ----

  lemma ReachedIsOk(s: Store, clock: Time, tasks: map<Tid, Op>, turns: seq<Turn>) returns (home: Home)
    requires Requests(s, tasks)
    ensures MachineOk(Schedule(Launch(s, clock, tasks), turns), s, home)
  {
    home := HomeExists(s, tasks);
    LaunchOk(s, clock, tasks, turns, home);
  }

  /** At any point of any schedule, a transaction that has not ended and finds its families unlocked by others gets, by
      turns of its own, to the answer and the tables of its atomic form at the instant it read. */
  lemma AnswersLikeAtomic(s: Store, clock: Time, tasks: map<Tid, Op>, turns: seq<Turn>, t: Tid, now: Time)
    returns (more: seq<Turn>)
    requires Requests(s, tasks) && t in Schedule(Launch(s, clock, tasks), turns).threads
    requires var m := Schedule(Launch(s, clock, tasks), turns); Unobstructed(m, t) && Reads(m, t, now)
    ensures OwnTurns(more, t)
    ensures var m := Schedule(Launch(s, clock, tasks), turns);
      Completed(m, Schedule(Launch(s, clock, tasks), turns + more), t, now)
  {
    var home := ReachedIsOk(s, clock, tasks, turns);
    more := Completes(Schedule(Launch(s, clock, tasks), turns), t, now, s, home);
    ScheduleOn(Launch(s, clock, tasks), turns, more);
  }

  /** And everybody can be answered, but for user-wide revocations that wait for each other. */
  lemma EveryoneCanEnd(s: Store, clock: Time, tasks: map<Tid, Op>, turns: seq<Turn>) returns (more: seq<Turn>)
    requires Requests(s, tasks)
    ensures AllOver(Schedule(Launch(s, clock, tasks), turns), Schedule(Launch(s, clock, tasks), turns + more))
  {
    var home := ReachedIsOk(s, clock, tasks, turns);
    more := EveryoneEnds(Schedule(Launch(s, clock, tasks), turns), s, home);
    ScheduleOn(Launch(s, clock, tasks), turns, more);
  }
}
