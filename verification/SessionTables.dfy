/**
 The session transactions as the program runs them: statement after statement on the two tables. Each
 method is proved equal to its function in SessionFamilies.
 */
module SessionTables {
  import opened Instants
  import opened StringOrder
  import opened SessionFamilies

  datatype LockedRow = NoRow | Row(user: int, head: Jti, rotations: int, live: bool)
  datatype Numbered = NotMember | NumberOf(number: int)

  class Tables {
    var families: map<Sid, Family>
    var members: map<Jti, Member>

    function Rows(): Store
      reads this
    {
      Store(families, members)
    }

    constructor ()
      ensures Rows() == EMPTY
    {
      families, members := map[], map[];
    }

    method LockFamily(now: Time, sid: Sid) returns (row: LockedRow)
      ensures row == if sid in families
        then Row(families[sid].user, families[sid].head, families[sid].rotations, Live(Rows(), sid, now)) else NoRow
    {
      if sid in families {
        row := Row(families[sid].user, families[sid].head, families[sid].rotations, families[sid].expires > now);
      } else {
        row := NoRow;
      }
    }

    method MemberNumber(sid: Sid, jti: Jti) returns (n: Numbered)
      ensures n == if IsMemberOf(Rows(), sid, jti) then NumberOf(members[jti].number) else NotMember
    {
      if jti in members && members[jti].sid == sid {
        n := NumberOf(members[jti].number);
      } else {
        n := NotMember;
      }
    }

    method DropFamilies(sids: set<Sid>)
      modifies this
      ensures Rows() == Drop(old(Rows()), sids)
    {
      members := map jti | jti in members && members[jti].sid !in sids :: members[jti];
      families := families - sids;
    }

    /** `_delete_family`: the jtis come back sorted. */
    method DeleteFamily(sid: Sid) returns (jtis: seq<Jti>)
      modifies this
      ensures Rows() == Drop(old(Rows()), {sid})
      ensures jtis == Sorted(old(MembersOf(Rows(), sid)))
    {
      jtis := Sorted(MembersOf(Rows(), sid));
      members := map jti | jti in members && members[jti].sid != sid :: members[jti];
      families := families - {sid};
    }

    method Issue(now: Time, jti: Jti, sid: Sid, user: int, ttl: int, order: seq<Sid>) returns (reply: IssueReply)
      modifies this
      ensures (Rows(), reply) == SessionFamilies.Issue(old(Rows()), now, jti, sid, user, ttl, order)
    {
      if sid in families {
        return DuplicateKey;
      }
      if jti in members {
        return DuplicateKey;
      }
      families := families[sid := Family(user, jti, 0, now + ttl * SECOND)];
      members := members[jti := Member(sid, 0, now)];
      var evict := Evicted(order);
      DropFamilies(evict);
      return Issued;
    }

    method Rotate(now: Time, old_: Jti, new_: Jti, sid: Sid, user: int, ttl: int) returns (reply: RotateReply)
      modifies this
      ensures (Rows(), reply) == SessionFamilies.Rotate(old(Rows()), now, old_, new_, sid, user, ttl)
      ensures reply != Rotated ==> Rows() == old(Rows())
    {
      var fam := LockFamily(now, sid);
      if fam.NoRow? || !fam.live || fam.user != user {
        return SessionRevoked;
      }
      var number := MemberNumber(sid, old_);
      if number.NotMember? {
        return SessionRevoked;
      }
      if fam.head != old_ {
        return AlreadyRotated;
      }
      if new_ in members {
        return JtiCollision;
      }
      if NumberTaken(Rows(), sid, fam.rotations + 1) {
        return ForkedFamily;
      }
      members := members[new_ := Member(sid, fam.rotations + 1, now)];
      families := families[sid := Family(families[sid].user, new_, families[sid].rotations + 1, now + ttl * SECOND)];
      members := map m | m in members
        && !(members[m].sid == sid && members[m].number <= fam.rotations + 1 - KEEP_MEMBERS) :: members[m];
      return Rotated;
    }

    method RevokeFamily(now: Time, sid: Sid) returns (jtis: seq<Jti>)
      modifies this
      ensures (Rows(), jtis) == Revoke(old(Rows()), now, sid)
    {
      var fam := LockFamily(now, sid);
      if fam.NoRow? || !fam.live {
        return [];
      }
      jtis := DeleteFamily(sid);
    }

    method RevokeUser(user: int, keep: set<Sid>) returns (count: int)
      modifies this
      ensures (Rows(), count) == SessionFamilies.RevokeUser(old(Rows()), user, keep)
    {
      var sids := FamiliesToRevoke(Rows(), user, keep);
      if sids != {} {
        DropFamilies(sids);
      } else {
        assert Drop(Rows(), {}) == Rows();
      }
      return |sids|;
    }

    method DetectReuseAndRevoke(now: Time, jti: Jti, sid: Sid) returns (reply: ReuseReply)
      modifies this
      ensures (Rows(), reply) == Detect(old(Rows()), now, jti, sid)
      ensures !reply.Reused? ==> Rows() == old(Rows())
    {
      var fam := LockFamily(now, sid);
      if fam.NoRow? || !fam.live {
        return Unknown;
      }
      if fam.head == jti {
        return LiveHead;
      }
      var number := MemberNumber(sid, jti);
      if number.NotMember? && fam.rotations < KEEP_MEMBERS {
        return Unknown;
      }
      if Graced(Rows(), jti, now) {
        return InGrace;
      }
      var _ := DeleteFamily(sid);
      return Reused(fam.rotations + 1);
    }

    method PurgeFamilies(now: Time, stale: set<Sid>)
      requires Purgeable(Rows(), now, stale)
      modifies this
      ensures Rows() == Drop(old(Rows()), stale)
      ensures forall sid :: Live(Rows(), sid, now) <==> Live(old(Rows()), sid, now)
    {
      if stale != {} {
        DropFamilies(stale);
      } else {
        assert Drop(Rows(), {}) == Rows();
      }
    }
  }
}
