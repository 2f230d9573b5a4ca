/** What each transaction changes, told by what the reads answer afterwards. */
module SessionAnswers {
  import opened Instants
  import opened Options
  import opened StringOrder
  import opened SessionFamilies
  import opened SessionHistory
  import opened SessionSafety

  /** Nothing a jti or sid outside the given families is asked about has changed. */
  ghost predicate OthersAnswerTheSame(s: Store, s': Store, sids: set<Sid>) {
    && (forall x, t | x !in sids :: FamilyExists(s', t, x) == FamilyExists(s, t, x))
    && (forall j, x, t | x !in sids :: FamilyMember(s', t, x, j) == FamilyMember(s, t, x, j))
    && (forall j, t | j in s.members && s.members[j].sid !in sids :: Validate(s', t, j) == Validate(s, t, j))
    && (forall j, t | j in s.members && s.members[j].sid !in sids :: Grace(s', t, j) == Grace(s, t, j))
  }

  ghost predicate SameRowsOutside(s: Store, s': Store, sids: set<Sid>) {
    && (forall x | x !in sids ::
      (x in s.families <==> x in s'.families) && (x in s.families ==> s'.families[x] == s.families[x]))
    && (forall j | j in s.members && s.members[j].sid !in sids :: j in s'.members && s'.members[j] == s.members[j])
    && (forall j | j in s'.members && s'.members[j].sid !in sids :: j in s.members && s.members[j] == s'.members[j])
  }

  lemma SameFresh(s: Store, s': Store, sids: set<Sid>, x: Sid, number: int, since: Time)
    requires SameRowsOutside(s, s', sids) && x !in sids
    ensures FreshMember(s, x, number, since) == FreshMember(s', x, number, since)
  {
    if FreshMember(s, x, number, since) {
      var j :| j in s.members && s.members[j].sid == x && s.members[j].number == number && s.members[j].created > since;
      assert j in s'.members;
    }
    if FreshMember(s', x, number, since) {
      var j :| j in s'.members && s'.members[j].sid == x && s'.members[j].number == number
               && s'.members[j].created > since;
      assert j in s.members;
    }
  }

  lemma SameRowsAnswerTheSame(s: Store, s': Store, sids: set<Sid>)
    requires SameRowsOutside(s, s', sids)
    ensures OthersAnswerTheSame(s, s', sids)
  {
    forall j, t | j in s.members && s.members[j].sid !in sids ensures Grace(s', t, j) == Grace(s, t, j) {
      SameFresh(s, s', sids, s.members[j].sid, s.members[j].number + 1, t - GRACE_TTL);
    }
  }

  // ---- rotation ----

  lemma AppendChangesOne(s: Store, now: Time, jti: Jti, sid: Sid, ttl: int)
    requires sid in s.families && jti !in s.members
    ensures SameRowsOutside(s, Append(s, now, jti, sid, ttl), {sid})
  {
  }

  lemma NewHead(s: Store, now: Time, jti: Jti, sid: Sid, ttl: int)
    requires sid in s.families && jti !in s.members
    ensures var s' := Append(s, now, jti, sid, ttl); var f := s.families[sid];
      && sid in s'.families && s'.families[sid] == Family(f.user, jti, f.rotations + 1, now + ttl * SECOND)
      && jti in s'.members && s'.members[jti] == Member(sid, f.rotations + 1, now)
  {
  }

  lemma OldHeadStays(w: World, e: Event)
    requires Inv(w) && e.op.DoRotate? && ReplyTo(w, e) == RotateReplied(Rotated)
    ensures var s' := Next(w, e).store; var f := w.store.families[e.op.sid];
      e.op.old_ in s'.members && s'.members[e.op.old_].sid == e.op.sid && s'.members[e.op.old_].number == f.rotations
  {
    RotatedMeans(w, e);
    assert FamilyOk(w.store, e.op.sid, w.issued[e.op.sid]);
    assert Kept(w.store.families[e.op.sid].rotations, w.store.families[e.op.sid].rotations);
  }

  /** After a rotation the new jti is valid until the new expiry, the old one is not, but for 30 seconds it is answered
      with the new one; and every other session answers as before. */
  lemma RotationHandsOver(w: World, e: Event, later: Time)
    requires Inv(w) && Legal(w, e) && e.op.DoRotate? && ReplyTo(w, e) == RotateReplied(Rotated)
    ensures var s' := Next(w, e).store; var DoRotate(old_, new_, sid, user, ttl) := e.op;
      && Validate(s', later, new_) == (if later < e.now + ttl * SECOND then Session(user, sid) else NoSession)
      && Validate(s', later, old_) == NoSession
      && Grace(s', later, old_) ==
         (if later < e.now + ttl * SECOND && later < e.now + GRACE_TTL then Graceful(user, sid, new_) else NoGrace)
      && OthersAnswerTheSame(w.store, s', {sid})
  {
    var DoRotate(old_, new_, sid, user, ttl) := e.op;
    RotatedMeans(w, e);
    RotateKeepsInv(w, e);
    OldHeadStays(w, e);
    NewHead(w.store, e.now, new_, sid, ttl);
    AppendChangesOne(w.store, e.now, new_, sid, ttl);
    SameRowsAnswerTheSame(w.store, Next(w, e).store, {sid});
    OldHeadsGrace(w, e, later);
  }

  lemma OldHeadsGrace(w: World, e: Event, later: Time)
    requires Inv(w) && Inv(Next(w, e)) && e.op.DoRotate? && ReplyTo(w, e) == RotateReplied(Rotated)
    ensures FreshMember(Next(w, e).store, e.op.sid, w.store.families[e.op.sid].rotations + 1, later - GRACE_TTL)
      <==> later < e.now + GRACE_TTL
  {
    RotatedMeans(w, e);
    var s' := Next(w, e).store;
    NewHead(w.store, e.now, e.op.new_, e.op.sid, e.op.ttl);
    var number := w.store.families[e.op.sid].rotations + 1;
    forall j | j in s'.members && s'.members[j].sid == e.op.sid && s'.members[j].number == number
      ensures j == e.op.new_
    {
      assert MemberOk(s', Next(w, e).issued, j);
      assert MemberOk(s', Next(w, e).issued, e.op.new_);
    }
  }

  /** Grace does not slide: a rotation extends no older jti's grace, and shortens it only by pruning the jti. */
  lemma GraceDoesNotSlide(w: World, e: Event, jti: Jti, later: Time)
    requires Inv(w) && Legal(w, e) && e.op.DoRotate? && ReplyTo(w, e) == RotateReplied(Rotated)
    requires jti in w.store.members && jti != e.op.old_
    ensures var s' := Next(w, e).store; var k := w.store.members[jti].number;
      && (jti in s'.members <==>
        w.store.members[jti].sid != e.op.sid || k > w.store.families[e.op.sid].rotations + 1 - KEEP_MEMBERS)
      && (jti in s'.members ==> (Graced(s', jti, later) <==> Graced(w.store, jti, later)))
  {
    if w.store.members[jti].sid != e.op.sid {
      ElsewhereNothingMoves(w, e, jti, later);
    } else {
      KeptExactly(w, e, jti);
      if jti in Next(w, e).store.members { GraceUnmoved(w, e, jti, later); }
    }
  }

  lemma ElsewhereNothingMoves(w: World, e: Event, jti: Jti, later: Time)
    requires e.op.DoRotate? && ReplyTo(w, e) == RotateReplied(Rotated)
    requires jti in w.store.members && w.store.members[jti].sid != e.op.sid
    ensures jti in Next(w, e).store.members && (Graced(Next(w, e).store, jti, later) <==> Graced(w.store, jti, later))
  {
    RotatedMeans(w, e);
    AppendChangesOne(w.store, e.now, e.op.new_, e.op.sid, e.op.ttl);
    var m := w.store.members[jti];
    SameFresh(w.store, Next(w, e).store, {e.op.sid}, m.sid, m.number + 1, later - GRACE_TTL);
  }

  lemma KeptExactly(w: World, e: Event, jti: Jti)
    requires e.op.DoRotate? && ReplyTo(w, e) == RotateReplied(Rotated)
    requires IsMemberOf(w.store, e.op.sid, jti)
    ensures var s' := Next(w, e).store; var k := w.store.members[jti].number;
      && (jti in s'.members <==> k > w.store.families[e.op.sid].rotations + 1 - KEEP_MEMBERS)
      && (jti in s'.members ==> s'.members[jti] == w.store.members[jti])
  {
    RotatedMeans(w, e);
  }

  lemma GraceUnmoved(w: World, e: Event, jti: Jti, later: Time)
    requires Inv(w) && e.op.DoRotate? && ReplyTo(w, e) == RotateReplied(Rotated)
    requires IsMemberOf(w.store, e.op.sid, jti) && jti != e.op.old_ && jti in Next(w, e).store.members
    ensures Graced(Next(w, e).store, jti, later) <==> Graced(w.store, jti, later)
  {
    RotatedMeans(w, e);
    KeptExactly(w, e, jti);
    NewHead(w.store, e.now, e.op.new_, e.op.sid, e.op.ttl);
    assert MemberOk(w.store, w.issued, jti);
    assert FamilyOk(w.store, e.op.sid, w.issued[e.op.sid]);
    SuccessorUnchanged(w, e, w.store.members[jti].number + 1, later - GRACE_TTL);
  }

  /** Below the new number, appending changes only what it prunes. */
  lemma SuccessorUnchanged(w: World, e: Event, number: int, since: Time)
    requires e.op.DoRotate? && ReplyTo(w, e) == RotateReplied(Rotated)
    requires w.store.families[e.op.sid].rotations + 1 - KEEP_MEMBERS < number <= w.store.families[e.op.sid].rotations
    ensures FreshMember(w.store, e.op.sid, number, since) <==> FreshMember(Next(w, e).store, e.op.sid, number, since)
  {
    RotatedMeans(w, e);
    var s, s' := w.store, Next(w, e).store;
    var x := e.op.sid;
    if FreshMember(s, x, number, since) {
      var j :| j in s.members && s.members[j].sid == x && s.members[j].number == number && s.members[j].created > since;
      assert j in s'.members;
    }
    if FreshMember(s', x, number, since) {
      var j :| j in s'.members && s'.members[j].sid == x && s'.members[j].number == number
               && s'.members[j].created > since;
      assert j in s.members;
    }
  }

  // ---- issue ----

  /** A new session is valid until its expiry, has no grace, and takes no other session with it but the evicted. */
  lemma IssueOpensOne(w: World, e: Event, later: Time)
    requires Inv(w) && Legal(w, e) && e.op.DoIssue? && ReplyTo(w, e) == IssueReplied(Issued)
    ensures var s' := Next(w, e).store; var DoIssue(jti, sid, user, ttl, order) := e.op;
      && Validate(s', later, jti) == (if later < e.now + ttl * SECOND then Session(user, sid) else NoSession)
      && Grace(s', later, jti) == NoGrace
      && OthersAnswerTheSame(w.store, s', Evicted(order) + {sid})
      && forall x | x in Evicted(order) :: !FamilyExists(s', later, x)
  {
    var DoIssue(jti, sid, user, ttl, order) := e.op;
    assert sid !in Evicted(order);
    InsertChangesOne(w.store, e.now, jti, sid, user, ttl, Evicted(order));
    SameRowsAnswerTheSame(w.store, Next(w, e).store, Evicted(order) + {sid});
    NewSessionAnswers(w.store, e.now, jti, sid, user, ttl, Evicted(order), later);
  }

  lemma InsertChangesOne(s: Store, now: Time, jti: Jti, sid: Sid, user: int, ttl: int, gone: set<Sid>)
    requires sid !in s.families && jti !in s.members
    ensures SameRowsOutside(s, Drop(Insert(s, now, jti, sid, user, ttl), gone), gone + {sid})
  {
  }

  lemma NewSessionAnswers(s: Store, now: Time, jti: Jti, sid: Sid, user: int, ttl: int, gone: set<Sid>, later: Time)
    requires sid !in gone
    ensures var s' := Drop(Insert(s, now, jti, sid, user, ttl), gone);
      && Validate(s', later, jti) == (if later < now + ttl * SECOND then Session(user, sid) else NoSession)
      && Grace(s', later, jti) == NoGrace
      && forall x | x in gone :: !FamilyExists(s', later, x)
  {
  }

  // ---- revocation ----

  lemma DropChangesOnly(s: Store, sids: set<Sid>)
    ensures SameRowsOutside(s, Drop(s, sids), sids) && OthersAnswerTheSame(s, Drop(s, sids), sids)
    ensures forall x, t | x in sids :: !FamilyExists(Drop(s, sids), t, x)
  {
    SameRowsAnswerTheSame(s, Drop(s, sids), sids);
  }

  /** Revoking a live family lists, in order, the last thousand jtis issued to it, and touches no other session. */
  lemma RevokeListsTheLastThousand(w: World, now: Time, sid: Sid, k: nat)
    requires Inv(w) && Live(w.store, sid, now) && k < |w.issued[sid]|
    ensures var r := Revoke(w.store, now, sid); var chain := w.issued[sid];
      && Ascending(r.1)
      && (chain[k].jti in r.1 <==> |chain| - 1 - k < KEEP_MEMBERS)
      && (forall j | j in r.1 :: exists i :: 0 <= i < |chain| && chain[i].jti == j)
      && OthersAnswerTheSame(w.store, r.0, {sid}) && (forall t :: !FamilyExists(r.0, t, sid))
  {
    var r, chain := Revoke(w.store, now, sid), w.issued[sid];
    IssuedMeans(w, sid, k);
    DropChangesOnly(w.store, {sid});
    forall j | j in r.1 ensures exists i :: 0 <= i < |chain| && chain[i].jti == j {
      assert MemberOk(w.store, w.issued, j);
      assert chain[w.store.members[j].number].jti == j;
    }
  }

  /** Revoking a user's sessions ends exactly those not kept. */
  lemma RevokeUserIsExact(s: Store, user: int, keep: set<Sid>, x: Sid, t: Time)
    ensures var r := RevokeUser(s, user, keep);
      && (FamilyExists(r.0, t, x) <==> FamilyExists(s, t, x) && (s.families[x].user != user || x in keep))
      && OthersAnswerTheSame(s, r.0, FamiliesToRevoke(s, user, keep))
      && r.1 == |s.families| - |r.0.families|
  {
    var gone := FamiliesToRevoke(s, user, keep);
    DropChangesOnly(s, gone);
    var left := Drop(s, gone).families;
    assert s.families.Keys == left.Keys + gone && left.Keys !! gone;
  }

  // ---- when a session exists ----

  /** The expiry that the last sign-in or rotation of a sid set, unless the session was ended since. */
  ghost function LastExpiry(w: World, run: seq<Event>, sid: Sid, last: Option<Time>): Option<Time>
    decreases |run|
  {
    if run == [] then last else LastExpiry(Next(w, run[0]), run[1..], sid, NewExpiry(w, run[0], sid, last))
  }

  ghost function NewExpiry(w: World, e: Event, sid: Sid, last: Option<Time>): Option<Time> {
    if e.op.DoIssue? && e.op.sid == sid && ReplyTo(w, e) == IssueReplied(Issued) then Some(e.now + e.op.ttl * SECOND)
    else if e.op.DoRotate? && e.op.sid == sid && ReplyTo(w, e) == RotateReplied(Rotated) then
      Some(e.now + e.op.ttl * SECOND)
    else if Ends(w, e, sid) then None
    else last
  }

  /** The row agrees with the expiry remembered, as far as the future goes. */
  predicate ExpiryAgrees(w: World, sid: Sid, last: Option<Time>) {
    if last.Some? && last.value > w.clock then sid in w.store.families && w.store.families[sid].expires == last.value
    else !Live(w.store, sid, w.clock)
  }

  lemma StepAgrees(w: World, e: Event, sid: Sid, last: Option<Time>)
    requires Inv(w) && Legal(w, e) && ExpiryAgrees(w, sid, last)
    ensures ExpiryAgrees(Next(w, e), sid, NewExpiry(w, e, sid, last))
  {
    if Appends(w, e) {
      if e.op.DoIssue? { IssueAgrees(w, e, sid, last); } else { RotateAgrees(w, e, sid, last); }
    } else {
      OtherStepsOnlyDrop(w, e);
      if Ends(w, e, sid) { EndsMeansEnded(w, e, sid); }
    }
  }

  lemma IssueAgrees(w: World, e: Event, sid: Sid, last: Option<Time>)
    requires Inv(w) && Legal(w, e) && ExpiryAgrees(w, sid, last)
    requires e.op.DoIssue? && ReplyTo(w, e) == IssueReplied(Issued)
    ensures ExpiryAgrees(Next(w, e), sid, NewExpiry(w, e, sid, last))
  {
    assert e.op.sid !in Evicted(e.op.order);
  }

  lemma RotateAgrees(w: World, e: Event, sid: Sid, last: Option<Time>)
    requires Inv(w) && Legal(w, e) && ExpiryAgrees(w, sid, last)
    requires e.op.DoRotate? && ReplyTo(w, e) == RotateReplied(Rotated)
    ensures ExpiryAgrees(Next(w, e), sid, NewExpiry(w, e, sid, last))
  {
    RotatedMeans(w, e);
  }

  lemma {:induction false} RunAgrees(w: World, run: seq<Event>, sid: Sid, last: Option<Time>)
    requires Inv(w) && LegalRun(w, run) && ExpiryAgrees(w, sid, last)
    ensures ExpiryAgrees(After(w, run), sid, LastExpiry(w, run, sid, last))
    decreases |run|
  {
    if run != [] {
      StepAgrees(w, run[0], sid, last);
      StepKeepsInv(w, run[0]);
      RunAgrees(Next(w, run[0]), run[1..], sid, NewExpiry(w, run[0], sid, last));
    }
  }

  ghost predicate AmongTheLastThousand(chain: seq<Entry>, jti: Jti) {
    exists k :: 0 <= k < |chain| && |chain| - 1 - k < KEEP_MEMBERS && chain[k].jti == jti
  }

  /** After any run a session exists exactly until the expiry that its last sign-in or rotation set, unless something
      ended it since; and its members are then exactly the last thousand jtis issued to it. */
  lemma ExistsExactly(run: seq<Event>, now: Time, sid: Sid, jti: Jti)
    requires LegalRun(GENESIS, run) && After(GENESIS, run).clock <= now
    ensures var w := After(GENESIS, run); var expiry := LastExpiry(GENESIS, run, sid, None);
      && (FamilyExists(w.store, now, sid) <==> expiry.Some? && now < expiry.value)
      && (FamilyMember(w.store, now, sid, jti) <==>
        expiry.Some? && now < expiry.value && sid in w.issued && AmongTheLastThousand(w.issued[sid], jti))
  {
    RunKeepsInv(GENESIS, run);
    RunAgrees(GENESIS, run, sid, None);
    MembersAreTheLastThousand(After(GENESIS, run), sid, jti);
  }

  lemma MembersAreTheLastThousand(w: World, sid: Sid, jti: Jti)
    requires Inv(w)
    ensures sid in w.store.families ==> sid in w.issued
    ensures sid in w.store.families ==>
      (IsMemberOf(w.store, sid, jti) <==> AmongTheLastThousand(w.issued[sid], jti))
  {
    if sid in w.store.families {
      var chain := w.issued[sid];
      assert FamilyOk(w.store, sid, chain);
      if IsMemberOf(w.store, sid, jti) {
        assert MemberOk(w.store, w.issued, jti);
        var k := w.store.members[jti].number;
        assert chain[k].jti == jti;
      }
      if k :| 0 <= k < |chain| && |chain| - 1 - k < KEEP_MEMBERS && chain[k].jti == jti { IssuedMeans(w, sid, k); }
    }
  }
}
