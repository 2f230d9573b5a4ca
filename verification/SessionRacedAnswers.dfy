/** What racing refreshes are answered: what the history of the family says at their place in the serial order. */
module SessionRacedAnswers {
  import opened Instants
  import opened SessionFamilies
  import opened SessionHistory
  import opened SessionSafety
  import opened SessionRaces
  import opened SessionSerial
  import opened SessionOutcomes
  import opened SessionRacedStates

  // ---- every beginning of the history is the whole history of some point of the schedule ----

  lemma AdvanceRecordsOne(m: Machine, t: Tid, c: Choice)
    ensures m.history <= Advance(m, t, c).history && |Advance(m, t, c).history| <= |m.history| + 1
  {
  }

  lemma {:induction false} HistoryOnlyGrows(m: Machine, turns: seq<Turn>)
    ensures m.history <= Schedule(m, turns).history
    decreases |turns|
  {
    if turns != [] {
      AdvanceRecordsOne(m, turns[0].tid, turns[0].choice);
      HistoryOnlyGrows(Advance(m, turns[0].tid, turns[0].choice), turns[1..]);
    }
  }

  lemma {:induction false} PointOf(m: Machine, turns: seq<Turn>, j: nat) returns (k: nat)
    requires |m.history| <= j <= |Schedule(m, turns).history|
    ensures k <= |turns| && Schedule(m, turns[..k]).history == Schedule(m, turns).history[..j]
    decreases |turns|
  {
    HistoryOnlyGrows(m, turns);
    if |m.history| == j {
      k := 0;
    } else {
      var m1 := Advance(m, turns[0].tid, turns[0].choice);
      AdvanceRecordsOne(m, turns[0].tid, turns[0].choice);
      var rest := PointOf(m1, turns[1..], j);
      k := rest + 1;
      assert turns[..k][0] == turns[0] && turns[..k][1..] == turns[1..][..rest];
    }
  }

  /** The world that the j-th transaction of the history finds. */
  ghost function Before(w: World, h: seq<Done>, j: nat, clock: Time): World
    requires j <= |h|
  {
    World(Replay(w.store, h[..j]), IssuedAfter(w.issued, h[..j]), clock)
  }

  lemma FoundInGoodOrder(w: World, tasks: map<Tid, Op>, turns: seq<Turn>, j: nat) returns (clock: Time)
    requires MayRace(w, tasks) && j <= |Schedule(Launched(w, tasks), turns).history|
    ensures Inv(Before(w, Schedule(Launched(w, tasks), turns).history, j, clock))
  {
    var k := PointOf(Launched(w, tasks), turns, j);
    RacesKeepInv(w, tasks, turns[..k]);
    EveryScheduleIsSerial(w.store, w.clock, tasks, turns[..k]);
    clock := Schedule(Launched(w, tasks), turns[..k]).clock;
  }

  // ---- each answer, from the chain it finds ----

  /** A racing rotation answers exactly what its jti's place among all those issued to the family by then says. */
  lemma RacedRotationIsExact(w: World, tasks: map<Tid, Op>, turns: seq<Turn>, j: nat, k: nat)
    requires MayRace(w, tasks)
    requires j < |Schedule(Launched(w, tasks), turns).history|
    requires Schedule(Launched(w, tasks), turns).history[j].op.DoRotate?
    requires var h := Schedule(Launched(w, tasks), turns).history;
      var chain := ChainOf(IssuedAfter(w.issued, h[..j]), h[j].op.sid);
      k < |chain| && chain[k].jti == h[j].op.old_
    ensures var h := Schedule(Launched(w, tasks), turns).history; var found := Before(w, h, j, w.clock);
      var Done(_, now, op, reply) := h[j];
      reply == RotateReplied(
        if Live(found.store, op.sid, now) && found.store.families[op.sid].user == op.user
        then RotationFate(|ChainOf(found.issued, op.sid)|, k, op.new_ in found.store.members)
        else SessionRevoked)
  {
    var clock := FoundInGoodOrder(w, tasks, turns, j);
    EveryScheduleIsSerial(w.store, w.clock, tasks, turns);
    var h := Schedule(Launched(w, tasks), turns).history;
    var op := h[j].op;
    RotationIsExact(Before(w, h, j, clock), h[j].now, op.sid, k, op.new_, op.user, op.ttl);
  }

  // ---- the one that loses ----

  lemma StoredIsNotMintedLater(s: Store, h: seq<Done>, j: nat, jti: Jti)
    requires AllRacing(h) && j <= |h| && MintedOnce(s, h, jti) && jti in Replay(s, h[..j]).members
    ensures NeverMinted(h, j, jti)
  {
    if m :| j <= m < |h| && Mints(h[m].op, jti) {
      assert forall k | 0 <= k < j :: !Mints(h[..j][k].op, jti);
      AbsentUntilMinted(s, h[..j], jti);
      assert false;
    }
  }

  /** What is stored and no longer head cannot be rotated out later. */
  lemma SpentCannotWin(s: Store, h: seq<Done>, j: nat, i: nat, x: Sid)
    requires AllRacing(h) && Serial(s, h) && j < i < |h| && h[i].op.DoRotate? && MintedOnce(s, h, h[i].op.old_)
    requires h[i].op.old_ in Replay(s, h[..j]).members && Spent(Replay(s, h[..j]), x, h[i].op.old_)
    ensures h[i].reply != RotateReplied(Rotated)
  {
    var jti := h[i].op.old_;
    StoredIsNotMintedLater(s, h, j, jti);
    assert h[..i][..j] == h[..j];
    SpentStays(s, h[..i], j, x, jti);
    SpentCannotRotate(Replay(s, h[..i]), h[i].now, h[i].op, x);
  }

  lemma ApplyKeepsUsers(s: Store, now: Time, op: Op, x: Sid)
    requires Racing(op) && x in Apply(s, now, op).0.families
    ensures x in s.families && Apply(s, now, op).0.families[x].user == s.families[x].user
  {
  }

  lemma {:induction false} UsersStay(s: Store, h: seq<Done>, x: Sid)
    requires AllRacing(h) && x in Replay(s, h).families
    ensures x in s.families && Replay(s, h).families[x].user == s.families[x].user
  {
    if h != [] {
      var n := |h| - 1;
      ApplyKeepsUsers(Replay(s, h[..n]), h[n].now, h[n].op, x);
      UsersStay(s, h[..n], x);
    }
  }

  /** The two places in a history: of the refresh that won, and of another one of the same jti. */
  ghost predicate Lost(s: Store, h: seq<Done>, i: nat, j: nat) {
    && AllRacing(h) && Serial(s, h) && i < |h| && j < |h| && i != j && h[i].op.DoRotate? && h[j].op.DoRotate?
    && h[i].op.old_ == h[j].op.old_ && h[i].op.sid == h[j].op.sid && h[i].op.user == h[j].op.user
    && h[i].reply == RotateReplied(Rotated) && MintedOnce(s, h, h[i].op.old_)
  }

  lemma SameUserAsWinner(s: Store, h: seq<Done>, i: nat, j: nat)
    requires Lost(s, h, i, j) && h[j].op.sid in Replay(s, h[..j]).families
    ensures Replay(s, h[..j]).families[h[j].op.sid].user == h[j].op.user
  {
    assert h[i].op.sid in Replay(s, h[..i]).families;
    UsersStay(s, h[..i], h[i].op.sid);
    UsersStay(s, h[..j], h[j].op.sid);
  }

  /** Before the winner the jti is the head, if it is stored at all; after it, it is not. */
  lemma HeadUntilWon(s: Store, h: seq<Done>, i: nat, j: nat)
    requires Lost(s, h, i, j) && h[j].op.sid in Replay(s, h[..j]).families
    requires IsMemberOf(Replay(s, h[..j]), h[j].op.sid, h[j].op.old_)
    ensures Replay(s, h[..j]).families[h[j].op.sid].head == h[j].op.old_ <==> j < i
  {
    if i < j {
      MintedBefore(s, h, i);
      SpentBy(s, h, i, j);
    } else if Replay(s, h[..j]).families[h[j].op.sid].head != h[j].op.old_ {
      SpentCannotWin(s, h, j, i, h[j].op.sid);
    }
  }

  lemma LoserIsNotOk(s: Store, h: seq<Done>, i: nat, j: nat)
    requires Lost(s, h, i, j)
    ensures h[j].reply != RotateReplied(Rotated)
  {
    if h[j].reply == RotateReplied(Rotated) {
      if i < j { SecondRotationFails(s, h, i, j); } else { SecondRotationFails(s, h, j, i); }
    }
  }

  /** What the refresh at place `j` is told when the one at place `i` won. */
  ghost function Told(s: Store, h: seq<Done>, i: nat, j: nat): Reply
    requires j < |h| && h[j].op.DoRotate?
  {
    var found := Replay(s, h[..j]);
    RotateReplied(
      if !Live(found, h[j].op.sid, h[j].now) || !IsMemberOf(found, h[j].op.sid, h[j].op.old_) then SessionRevoked
      else if i < j then AlreadyRotated
      else JtiCollision)
  }

  ghost predicate SuccessorFree(s: Store, sid: Sid) {
    sid in s.families ==> !NumberTaken(s, sid, s.families[sid].rotations + 1)
  }

  lemma LoserInHistory(s: Store, h: seq<Done>, i: nat, j: nat)
    requires Lost(s, h, i, j) && SuccessorFree(Replay(s, h[..j]), h[j].op.sid)
    ensures h[j].reply == Told(s, h, i, j)
  {
    LoserIsNotOk(s, h, i, j);
    var found := Replay(s, h[..j]);
    if h[j].op.sid in found.families {
      SameUserAsWinner(s, h, i, j);
      if IsMemberOf(found, h[j].op.sid, h[j].op.old_) { HeadUntilWon(s, h, i, j); }
    }
  }

  lemma SuccessorIsFree(w: World, tasks: map<Tid, Op>, turns: seq<Turn>, j: nat, sid: Sid)
    requires MayRace(w, tasks) && j <= |Schedule(Launched(w, tasks), turns).history|
    ensures SuccessorFree(Replay(w.store, Schedule(Launched(w, tasks), turns).history[..j]), sid)
  {
    var clock := FoundInGoodOrder(w, tasks, turns, j);
    var found := Before(w, Schedule(Launched(w, tasks), turns).history, j, clock);
    if sid in found.store.families { SuccessorNumberIsFree(found.store, found.issued, sid); }
  }

  /** Two refreshes of one token for one session. */
  predicate SameRefresh(a: Op, b: Op) {
    a.DoRotate? && b.DoRotate? && a.old_ == b.old_ && a.sid == b.sid && a.user == b.user
  }

  lemma PlacesOf(m: Machine, s: Store, tasks: map<Tid, Op>, t: Tid, u: Tid) returns (i: nat, j: nat)
    requires Reached(m, s, tasks) && t in tasks && u in tasks && t != u && SameRefresh(tasks[t], tasks[u])
    requires MintedFresh(s, tasks, tasks[t].old_)
    requires Answered(m, t, RotateReplied(Rotated)) && m.threads[u].pc.Finished?
    ensures Lost(s, m.history, i, j)
    ensures m.history[i].tid == t && m.history[j].tid == u && m.history[j].op == tasks[u]
    ensures m.history[j].reply == m.threads[u].pc.reply
  {
    i := PlaceOf(m, t);
    j := PlaceOf(m, u);
    MintedOnceByTasks(m, s, tasks, tasks[t].old_);
  }

  /** Of two answered refreshes of one token for one session, when the first is answered ok: at its place in the serial
      order the other finds the session gone or expired, or the token not stored, and is told the session is revoked; or
      it comes later and is told the token was rotated already; or it came earlier and its new jti was taken. */
  lemma LoserIsTold(w: World, tasks: map<Tid, Op>, turns: seq<Turn>, t: Tid, u: Tid) returns (i: nat, j: nat)
    requires MayRace(w, tasks) && t in tasks && u in tasks && t != u && SameRefresh(tasks[t], tasks[u])
    requires MintedFresh(w.store, tasks, tasks[t].old_)
    requires u in Schedule(Launched(w, tasks), turns).threads
    requires var m := Schedule(Launched(w, tasks), turns);
      Answered(m, t, RotateReplied(Rotated)) && m.threads[u].pc.Finished?
    ensures i < |Schedule(Launched(w, tasks), turns).history| && j < |Schedule(Launched(w, tasks), turns).history|
    ensures var m := Schedule(Launched(w, tasks), turns);
      && m.history[i].tid == t && m.history[j].tid == u && m.history[j].op == tasks[u]
      && m.threads[u].pc.reply == Told(w.store, m.history, i, j)
  {
    var m := Schedule(Launched(w, tasks), turns);
    ScheduleReaches(w.store, w.clock, tasks, turns);
    i, j := PlacesOf(m, w.store, tasks, t, u);
    SuccessorIsFree(w, tasks, turns, j, tasks[u].sid);
    LoserInHistory(w.store, m.history, i, j);
  }
}
