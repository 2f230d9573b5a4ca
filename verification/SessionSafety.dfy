/** What the session store promises over whole runs: exact reuse detection, single rotation, final revocation. */
module SessionSafety {
  import opened Instants
  import opened SessionFamilies
  import opened SessionHistory

  // ---- reuse detection is exact ----

  /** What became of the k-th jti ever issued to a live family. A jti pruned after 1000 rotations counts as
      reuse even inside its grace window. */
  ghost function Fate(chain: seq<Entry>, k: nat, now: Time): ReuseReply
    requires k < |chain|
  {
    if k == |chain| - 1 then LiveHead
    else if |chain| - 1 - k >= KEEP_MEMBERS || chain[k + 1].created <= now - GRACE_TTL then Reused(|chain|)
    else InGrace
  }

  lemma IssuedMeans(w: World, sid: Sid, k: nat)
    requires Inv(w) && sid in w.store.families && k < |w.issued[sid]|
    ensures var chain := w.issued[sid]; var s := w.store;
      && (IsMemberOf(s, sid, chain[k].jti) <==> |chain| - 1 - k < KEEP_MEMBERS)
      && (chain[k].jti in s.members ==> s.members[chain[k].jti] == Member(sid, k, chain[k].created))
      && (s.families[sid].head == chain[k].jti <==> k == |chain| - 1)
  {
    var chain, s := w.issued[sid], w.store;
    var jti := chain[k].jti;
    assert FamilyOk(s, sid, chain);
    if jti in s.members { assert MemberOk(s, w.issued, jti); }
    if Kept(s.families[sid].rotations, k) { assert s.members[jti] == Member(sid, k, chain[k].created); }
  }

  lemma GracedMeans(w: World, now: Time, sid: Sid, k: nat)
    requires Inv(w) && sid in w.store.families && k < |w.issued[sid]|
    ensures var chain := w.issued[sid];
      Graced(w.store, chain[k].jti, now) <==>
        k < |chain| - 1 && |chain| - 1 - k < KEEP_MEMBERS && chain[k + 1].created > now - GRACE_TTL
  {
    var chain, s := w.issued[sid], w.store;
    var jti := chain[k].jti;
    IssuedMeans(w, sid, k);
    assert FamilyOk(s, sid, chain);
    if Graced(s, jti, now) {
      var next :| next in s.members && s.members[next].sid == sid && s.members[next].number == k + 1
                  && s.members[next].created > now - GRACE_TTL;
      assert MemberOk(s, w.issued, next);
    }
    if k < |chain| - 1 && |chain| - 1 - k < KEEP_MEMBERS {
      IssuedMeans(w, sid, k + 1);
    }
  }

  /** Detection, validation and grace agree with the full history of the family, for every jti it ever
      issued; and a successor that grace hands out is itself valid. */
  lemma ClassificationIsExact(w: World, now: Time, sid: Sid, k: nat)
    requires Inv(w) && Live(w.store, sid, now) && k < |w.issued[sid]|
    ensures var chain := w.issued[sid]; var user := w.store.families[sid].user; var jti := chain[k].jti;
      && Detect(w.store, now, jti, sid).1 == Fate(chain, k, now)
      && Validate(w.store, now, jti) == (if Fate(chain, k, now).LiveHead? then Session(user, sid) else NoSession)
      && Grace(w.store, now, jti) ==
         (if Fate(chain, k, now).InGrace? then Graceful(user, sid, chain[|chain| - 1].jti) else NoGrace)
      && Validate(w.store, now, chain[|chain| - 1].jti) == Session(user, sid)
  {
    var chain := w.issued[sid];
    assert FamilyOk(w.store, sid, chain);
    IssuedMeans(w, sid, k);
    GracedMeans(w, now, sid, k);
    IssuedMeans(w, sid, |chain| - 1);
  }

  /** A jti the family never issued is unknown below 1000 rotations; from 1000 on it cannot be told from a
      pruned one and revokes the family, unless it is some other family's graced jti. */
  lemma ForeignJti(w: World, now: Time, sid: Sid, jti: Jti)
    requires Inv(w) && Live(w.store, sid, now)
    requires forall k | 0 <= k < |w.issued[sid]| :: w.issued[sid][k].jti != jti
    ensures !IsMemberOf(w.store, sid, jti)
    ensures Detect(w.store, now, jti, sid).1 ==
      if |w.issued[sid]| <= KEEP_MEMBERS then Unknown
      else if Graced(w.store, jti, now) then InGrace else Reused(|w.issued[sid]|)
  {
    assert FamilyOk(w.store, sid, w.issued[sid]);
    if jti in w.store.members { assert MemberOk(w.store, w.issued, jti); }
  }

  lemma BelowThousandMembersAreAllIssued(w: World, sid: Sid, jti: Jti)
    requires Inv(w) && sid in w.store.families && w.store.families[sid].rotations < KEEP_MEMBERS
    ensures IsMemberOf(w.store, sid, jti) <==> exists k :: 0 <= k < |w.issued[sid]| && w.issued[sid][k].jti == jti
  {
    var chain := w.issued[sid];
    assert FamilyOk(w.store, sid, chain);
    if IsMemberOf(w.store, sid, jti) {
      assert MemberOk(w.store, w.issued, jti);
      assert chain[w.store.members[jti].number].jti == jti;
    }
    if k :| 0 <= k < |chain| && chain[k].jti == jti {
      IssuedMeans(w, sid, k);
    }
  }

  // ---- which answer a rotation gives ----

  /** What a rotation out of the k-th jti ever issued to the caller's own live family answers: only the last one can be
      rotated out, and a jti pruned after 1000 rotations is not told from one that was never issued. */
  function RotationFate(length: nat, k: nat, taken: bool): RotateReply
    requires k < length
  {
    if k == length - 1 then (if taken then JtiCollision else Rotated)
    else if length - 1 - k < KEEP_MEMBERS then AlreadyRotated
    else SessionRevoked
  }

  lemma RotationIsExact(w: World, now: Time, sid: Sid, k: nat, new_: Jti, user: int, ttl: int)
    requires Inv(w) && sid in w.issued && k < |w.issued[sid]|
    ensures var chain := w.issued[sid];
      Rotate(w.store, now, chain[k].jti, new_, sid, user, ttl).1 ==
        if Live(w.store, sid, now) && w.store.families[sid].user == user
        then RotationFate(|chain|, k, new_ in w.store.members)
        else SessionRevoked
  {
    if sid in w.store.families {
      IssuedMeans(w, sid, k);
      SuccessorNumberIsFree(w.store, w.issued, sid);
    }
  }

  /** A jti that was never issued to the sid it comes with. */
  lemma StrangerIsRevoked(w: World, now: Time, sid: Sid, jti: Jti, new_: Jti, user: int, ttl: int)
    requires Inv(w) && forall k | sid in w.issued && 0 <= k < |w.issued[sid]| :: w.issued[sid][k].jti != jti
    ensures Rotate(w.store, now, jti, new_, sid, user, ttl) == (w.store, SessionRevoked)
  {
  }

  // ---- ended sessions stay ended ----

  ghost predicate Ended(w: World, sid: Sid) {
    sid in w.issued && !Live(w.store, sid, w.clock)
  }

  /** The steps that end a session: revoke, revoke of its user, eviction, detected reuse, and its expiry passing. */
  ghost predicate Ends(w: World, e: Event, sid: Sid) {
    sid in w.issued &&
    match e.op
    case DoRevoke(x) => x == sid
    case DoRevokeUser(user, keep) => sid in FamiliesToRevoke(w.store, user, keep)
    case DoIssue(_, _, _, _, order) => ReplyTo(w, e) == IssueReplied(Issued) && sid in Evicted(order)
    case DoDetect(jti, x) => x == sid && exists n :: ReplyTo(w, e) == DetectReplied(Reused(n))
    case _ => sid in w.store.families && w.store.families[sid].expires <= e.now
  }

  lemma EndsMeansEnded(w: World, e: Event, sid: Sid)
    requires Legal(w, e) && Ends(w, e, sid)
    ensures Ended(Next(w, e), sid)
  {
    if !Appends(w, e) {
      OtherStepsOnlyDrop(w, e);
    } else if e.op.DoRotate? {
      RotatedMeans(w, e);
    }
  }

  lemma EndedStays(w: World, e: Event, sid: Sid)
    requires Inv(w) && Legal(w, e) && Ended(w, sid)
    ensures Ended(Next(w, e), sid) && Next(w, e).issued[sid] == w.issued[sid]
  {
    if !Appends(w, e) {
      EndedStaysOnDrop(w, e, sid);
    } else if e.op.DoRotate? {
      EndedStaysOnRotate(w, e, sid);
    } else {
      EndedStaysOnIssue(w, e, sid);
    }
  }

  lemma EndedStaysOnDrop(w: World, e: Event, sid: Sid)
    requires Legal(w, e) && Ended(w, sid) && !Appends(w, e)
    ensures Ended(Next(w, e), sid) && Next(w, e).issued == w.issued
  {
    OtherStepsOnlyDrop(w, e);
  }

  lemma EndedStaysOnRotate(w: World, e: Event, sid: Sid)
    requires Legal(w, e) && Ended(w, sid) && e.op.DoRotate? && ReplyTo(w, e) == RotateReplied(Rotated)
    ensures Ended(Next(w, e), sid) && Next(w, e).issued[sid] == w.issued[sid]
  {
    RotatedMeans(w, e);
  }

  lemma EndedStaysOnIssue(w: World, e: Event, sid: Sid)
    requires Legal(w, e) && Ended(w, sid) && e.op.DoIssue? && ReplyTo(w, e) == IssueReplied(Issued)
    ensures Ended(Next(w, e), sid) && Next(w, e).issued[sid] == w.issued[sid]
  {
  }

  lemma {:induction false} EndedStaysOverRun(w: World, run: seq<Event>, sid: Sid)
    requires Inv(w) && LegalRun(w, run) && Ended(w, sid)
    ensures Ended(After(w, run), sid) && After(w, run).issued[sid] == w.issued[sid] && Inv(After(w, run))
    decreases |run|
  {
    if run != [] {
      StepKeepsInv(w, run[0]);
      EndedStays(w, run[0], sid);
      EndedStaysOverRun(Next(w, run[0]), run[1..], sid);
    }
  }

  lemma EndedAnswersNo(w: World, now: Time, sid: Sid, k: nat, new_: Jti, anySid: Sid, user: int, ttl: int)
    requires Inv(w) && Ended(w, sid) && w.clock <= now && k < |w.issued[sid]|
    ensures var jti := w.issued[sid][k].jti;
      && Validate(w.store, now, jti) == NoSession
      && Grace(w.store, now, jti) == NoGrace
      && !FamilyExists(w.store, now, sid)
      && !FamilyMember(w.store, now, anySid, jti)
      && Rotate(w.store, now, jti, new_, anySid, user, ttl) == (w.store, SessionRevoked)
      && Detect(w.store, now, jti, sid) == (w.store, Unknown)
  {
    var jti := w.issued[sid][k].jti;
    if jti in w.store.members { assert MemberOk(w.store, w.issued, jti); }
  }

  /** After any step that ends a session, whatever happens next, no jti of it is ever accepted again. */
  lemma EndIsFinal(w: World, e: Event, run: seq<Event>, now: Time, sid: Sid, k: nat, new_: Jti, anySid: Sid,
        user: int, ttl: int)
    requires Inv(w) && LegalRun(w, [e] + run) && Ends(w, e, sid)
    requires var end := After(Next(w, e), run); end.clock <= now && (sid in end.issued ==> k < |end.issued[sid]|)
    ensures sid in After(Next(w, e), run).issued
    ensures var end := After(Next(w, e), run); var jti := end.issued[sid][k].jti;
      && Validate(end.store, now, jti) == NoSession
      && Grace(end.store, now, jti) == NoGrace
      && !FamilyExists(end.store, now, sid)
      && !FamilyMember(end.store, now, anySid, jti)
      && Rotate(end.store, now, jti, new_, anySid, user, ttl) == (end.store, SessionRevoked)
      && Detect(end.store, now, jti, sid) == (end.store, Unknown)
  {
    assert ([e] + run)[1..] == run;
    EndsMeansEnded(w, e, sid);
    StepKeepsInv(w, e);
    EndedStaysOverRun(Next(w, e), run, sid);
    EndedAnswersNo(After(Next(w, e), run), now, sid, k, new_, anySid, user, ttl);
  }

  // ---- at most one success ----

  ghost predicate Consumed(issued: map<Sid, seq<Entry>>, jti: Jti) {
    exists sid, k :: sid in issued && 0 <= k && k + 1 < |issued[sid]| && issued[sid][k].jti == jti
  }

  lemma ChainsOnlyGrow(w: World, e: Event, sid: Sid)
    requires Legal(w, e) && sid in w.issued
    ensures sid in Next(w, e).issued && w.issued[sid] <= Next(w, e).issued[sid]
  {
  }

  lemma ConsumedStays(w: World, e: Event, jti: Jti)
    requires Legal(w, e) && Consumed(w.issued, jti)
    ensures Consumed(Next(w, e).issued, jti)
  {
    var sid, k :| sid in w.issued && 0 <= k && k + 1 < |w.issued[sid]| && w.issued[sid][k].jti == jti;
    ChainsOnlyGrow(w, e, sid);
  }

  lemma RotationConsumes(w: World, e: Event)
    requires Inv(w) && Legal(w, e) && e.op.DoRotate? && ReplyTo(w, e) == RotateReplied(Rotated)
    ensures Consumed(Next(w, e).issued, e.op.old_)
  {
    RotatedMeans(w, e);
    var sid := e.op.sid;
    assert FamilyOk(w.store, sid, w.issued[sid]);
    var chain := Next(w, e).issued[sid];
    var k := w.store.families[sid].rotations;
    assert k + 1 < |chain| && chain[k].jti == e.op.old_;
  }

  lemma ConsumedCannotRotate(w: World, e: Event)
    requires Inv(w) && Legal(w, e) && e.op.DoRotate? && Consumed(w.issued, e.op.old_)
    ensures ReplyTo(w, e) != RotateReplied(Rotated)
  {
    if e.op.sid in w.store.families {
      assert FamilyOk(w.store, e.op.sid, w.issued[e.op.sid]);
      assert w.store.families[e.op.sid].head != e.op.old_;
    }
  }

  lemma {:induction false} ConsumedNeverRotatesLater(w: World, run: seq<Event>, jti: Jti, j: nat)
    requires Inv(w) && LegalRun(w, run) && Consumed(w.issued, jti)
    requires j < |run| && run[j].op.DoRotate? && run[j].op.old_ == jti
    ensures Replies(w, run)[j] != RotateReplied(Rotated)
    decreases |run|
  {
    if j == 0 {
      ConsumedCannotRotate(w, run[0]);
    } else {
      StepKeepsInv(w, run[0]);
      ConsumedStays(w, run[0], jti);
      ConsumedNeverRotatesLater(Next(w, run[0]), run[1..], jti, j - 1);
    }
  }

  lemma LaterReply(w: World, run: seq<Event>, i: nat)
    requires 0 < i < |run| && LegalRun(w, run)
    ensures Legal(w, run[0]) && LegalRun(Next(w, run[0]), run[1..])
    ensures run[1..][i - 1] == run[i] && Replies(w, run)[i] == Replies(Next(w, run[0]), run[1..])[i - 1]
  {
  }

  lemma RotatedFirst(w: World, run: seq<Event>, j: nat)
    requires Inv(w) && LegalRun(w, run) && 0 < j < |run|
    requires run[0].op.DoRotate? && run[j].op.DoRotate? && run[0].op.old_ == run[j].op.old_
    requires ReplyTo(w, run[0]) == RotateReplied(Rotated)
    ensures Replies(Next(w, run[0]), run[1..])[j - 1] != RotateReplied(Rotated)
  {
    StepKeepsInv(w, run[0]);
    RotationConsumes(w, run[0]);
    ConsumedNeverRotatesLater(Next(w, run[0]), run[1..], run[0].op.old_, j - 1);
  }

  /** Over a whole run, at most one rotation out of a given jti succeeds. */
  lemma {:induction false} AtMostOneRotation(w: World, run: seq<Event>, i: nat, j: nat)
    requires Inv(w) && LegalRun(w, run)
    requires i < j < |run| && run[i].op.DoRotate? && run[j].op.DoRotate? && run[i].op.old_ == run[j].op.old_
    requires Replies(w, run)[i] == RotateReplied(Rotated)
    ensures Replies(w, run)[j] != RotateReplied(Rotated)
    decreases |run|
  {
    LaterReply(w, run, j);
    if i == 0 {
      RotatedFirst(w, run, j);
    } else {
      LaterReply(w, run, i);
      StepKeepsInv(w, run[0]);
      AtMostOneRotation(Next(w, run[0]), run[1..], i - 1, j - 1);
    }
  }

  lemma {:induction false} EndedIsNeverReusedLater(w: World, run: seq<Event>, sid: Sid, j: nat)
    requires Inv(w) && LegalRun(w, run) && Ended(w, sid)
    requires j < |run| && run[j].op.DoDetect? && run[j].op.sid == sid
    ensures Replies(w, run)[j] == DetectReplied(Unknown)
    decreases |run|
  {
    if j > 0 {
      StepKeepsInv(w, run[0]);
      EndedStays(w, run[0], sid);
      EndedIsNeverReusedLater(Next(w, run[0]), run[1..], sid, j - 1);
    }
  }

  lemma EndsByReuse(w: World, e: Event, n: int)
    requires Inv(w) && Legal(w, e) && e.op.DoDetect? && ReplyTo(w, e) == DetectReplied(Reused(n))
    ensures Ended(Next(w, e), e.op.sid)
  {
    EndsMeansEnded(w, e, e.op.sid);
  }

  lemma ReusedFirst(w: World, run: seq<Event>, j: nat, n: int)
    requires Inv(w) && LegalRun(w, run) && 0 < j < |run|
    requires run[0].op.DoDetect? && run[j].op.DoDetect? && run[0].op.sid == run[j].op.sid
    requires ReplyTo(w, run[0]) == DetectReplied(Reused(n))
    ensures Replies(Next(w, run[0]), run[1..])[j - 1] == DetectReplied(Unknown)
  {
    StepKeepsInv(w, run[0]);
    EndsByReuse(w, run[0], n);
    EndedIsNeverReusedLater(Next(w, run[0]), run[1..], run[0].op.sid, j - 1);
  }

  /** Over a whole run, a family is reported reused (and so audited) at most once. */
  lemma {:induction false} AtMostOneReuse(w: World, run: seq<Event>, i: nat, j: nat, n: int)
    requires Inv(w) && LegalRun(w, run)
    requires i < j < |run| && run[i].op.DoDetect? && run[j].op.DoDetect? && run[i].op.sid == run[j].op.sid
    requires Replies(w, run)[i] == DetectReplied(Reused(n))
    ensures Replies(w, run)[j] == DetectReplied(Unknown)
    decreases |run|
  {
    LaterReply(w, run, j);
    if i == 0 {
      ReusedFirst(w, run, j, n);
    } else {
      LaterReply(w, run, i);
      StepKeepsInv(w, run[0]);
      AtMostOneReuse(Next(w, run[0]), run[1..], i - 1, j - 1, n);
    }
  }
}
