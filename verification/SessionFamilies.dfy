/**
 The refresh-session tables and what one transaction does to them: every write of
 backend/app/state_db.py as a function from the rows before to the rows after.
 A transaction reads the database clock once, as `now`, in microseconds.
 */
module SessionFamilies {
  import opened Instants
  import opened StringOrder

  type Sid = string
  type Jti = string

  const GRACE_TTL: Time := 30 * SECOND
  const KEEP_MEMBERS := 1000
  const MAX_FAMILIES_PER_USER := 50
  const EVICT_BATCH := 20
  const PURGE_MARGIN: Time := 60 * SECOND
  const PURGE_BATCH := 20

  /** A row of auth_session_families, keyed by sid. */
  datatype Family = Family(user: int, head: Jti, rotations: nat, expires: Time)

  /** A row of auth_session_members, keyed by jti; `number` is the column seq. */
  datatype Member = Member(sid: Sid, number: int, created: Time)

  datatype Store = Store(families: map<Sid, Family>, members: map<Jti, Member>)

  const EMPTY := Store(map[], map[])

  datatype Lookup = NoSession | Session(user: int, sid: Sid)
  datatype GraceLookup = NoGrace | Graceful(user: int, sid: Sid, successor: Jti)

  datatype IssueReply = Issued | DuplicateKey
  datatype RotateReply = Rotated | SessionRevoked | AlreadyRotated | JtiCollision | ForkedFamily
  datatype ReuseReply = LiveHead | InGrace | Unknown | Reused(count: int)

  // ---- rows ----

  predicate Live(s: Store, sid: Sid, now: Time) {
    sid in s.families && s.families[sid].expires > now
  }

  predicate IsMemberOf(s: Store, sid: Sid, jti: Jti) {
    jti in s.members && s.members[jti].sid == sid
  }

  function MembersOf(s: Store, sid: Sid): set<Jti> {
    set jti | jti in s.members && s.members[jti].sid == sid
  }

  predicate NumberTaken(s: Store, sid: Sid, number: int) {
    exists jti :: jti in s.members && s.members[jti].sid == sid && s.members[jti].number == number
  }

  predicate FreshMember(s: Store, sid: Sid, number: int, since: Time) {
    exists jti :: jti in s.members && s.members[jti].sid == sid && s.members[jti].number == number
                  && s.members[jti].created > since
  }

  /** The rotated-out jti's successor row was created inside the grace window. */
  predicate Graced(s: Store, jti: Jti, now: Time) {
    && jti in s.members
    && s.members[jti].sid in s.families
    && jti != s.families[s.members[jti].sid].head
    && FreshMember(s, s.members[jti].sid, s.members[jti].number + 1, now - GRACE_TTL)
  }

  function Drop(s: Store, sids: set<Sid>): Store {
    Store(s.families - sids, map jti | jti in s.members && s.members[jti].sid !in sids :: s.members[jti])
  }

  // ---- reads ----

  function Validate(s: Store, now: Time, jti: Jti): Lookup {
    if jti in s.members && Live(s, s.members[jti].sid, now) && s.families[s.members[jti].sid].head == jti
    then Session(s.families[s.members[jti].sid].user, s.members[jti].sid)
    else NoSession
  }

  function Grace(s: Store, now: Time, jti: Jti): GraceLookup {
    if jti in s.members && Live(s, s.members[jti].sid, now) && Graced(s, jti, now)
    then Graceful(s.families[s.members[jti].sid].user, s.members[jti].sid, s.families[s.members[jti].sid].head)
    else NoGrace
  }

  predicate FamilyExists(s: Store, now: Time, sid: Sid) {
    Live(s, sid, now)
  }

  predicate FamilyMember(s: Store, now: Time, sid: Sid, jti: Jti) {
    IsMemberOf(s, sid, jti) && Live(s, sid, now)
  }

  // ---- issue, with eviction ----

  function Insert(s: Store, now: Time, jti: Jti, sid: Sid, user: int, ttl: int): Store {
    Store(s.families[sid := Family(user, jti, 0, now + ttl * SECOND)], s.members[jti := Member(sid, 0, now)])
  }

  function OthersOf(s: Store, user: int, sid: Sid): set<Sid> {
    set other | other in s.families && s.families[other].user == user && other != sid
  }

  /** An answer the eviction query may give before its offset and limit: some of the user's other
      families (the locked ones are skipped), latest expiry first. */
  ghost predicate ByExpiry(s: Store, user: int, sid: Sid, order: seq<Sid>) {
    && (forall i | 0 <= i < |order| :: order[i] in OthersOf(s, user, sid))
    && (forall i, j | 0 <= i < j < |order| :: order[i] != order[j])
    && (forall i, j | 0 <= i < j < |order| && order[i] in s.families && order[j] in s.families ::
          s.families[order[i]].expires >= s.families[order[j]].expires)
  }

  /** OFFSET 49 LIMIT 20. */
  function Evicted(order: seq<Sid>): set<Sid> {
    set i | MAX_FAMILIES_PER_USER - 1 <= i < |order| && i < MAX_FAMILIES_PER_USER - 1 + EVICT_BATCH :: order[i]
  }

  function Issue(s: Store, now: Time, jti: Jti, sid: Sid, user: int, ttl: int, order: seq<Sid>): (Store, IssueReply) {
    if sid in s.families || jti in s.members then (s, DuplicateKey)
    else (Drop(Insert(s, now, jti, sid, user, ttl), Evicted(order)), Issued)
  }

  // ---- rotate ----

  function Append(s: Store, now: Time, jti: Jti, sid: Sid, ttl: int): Store
    requires sid in s.families
  {
    var f := s.families[sid];
    var members, top := s.members[jti := Member(sid, f.rotations + 1, now)], f.rotations + 1 - KEEP_MEMBERS;
    Store(
      s.families[sid := Family(f.user, jti, f.rotations + 1, now + ttl * SECOND)],
      map m | m in members && !(members[m].sid == sid && members[m].number <= top) :: members[m])
  }

  function Rotate(s: Store, now: Time, old_: Jti, new_: Jti, sid: Sid, user: int, ttl: int): (Store, RotateReply) {
    if !Live(s, sid, now) || s.families[sid].user != user then (s, SessionRevoked)
    else if !IsMemberOf(s, sid, old_) then (s, SessionRevoked)
    else if s.families[sid].head != old_ then (s, AlreadyRotated)
    else if new_ in s.members then (s, JtiCollision)
    else if NumberTaken(s, sid, s.families[sid].rotations + 1) then (s, ForkedFamily)
    else (Append(s, now, new_, sid, ttl), Rotated)
  }

  // ---- revoke, revoke all of a user, detect reuse, purge ----

  function Revoke(s: Store, now: Time, sid: Sid): (Store, seq<Jti>) {
    if !Live(s, sid, now) then (s, []) else (Drop(s, {sid}), Sorted(MembersOf(s, sid)))
  }

  function FamiliesToRevoke(s: Store, user: int, keep: set<Sid>): set<Sid> {
    set sid | sid in s.families && s.families[sid].user == user && sid !in keep
  }

  function RevokeUser(s: Store, user: int, keep: set<Sid>): (Store, int) {
    var gone := FamiliesToRevoke(s, user, keep);
    (Drop(s, gone), |gone|)
  }

  function Detect(s: Store, now: Time, jti: Jti, sid: Sid): (Store, ReuseReply) {
    if !Live(s, sid, now) then (s, Unknown)
    else if s.families[sid].head == jti then (s, LiveHead)
    else if !IsMemberOf(s, sid, jti) && s.families[sid].rotations < KEEP_MEMBERS then (s, Unknown)
    else if Graced(s, jti, now) then (s, InGrace)
    else (Drop(s, {sid}), Reused(s.families[sid].rotations + 1))
  }

  /** What one purge may pick: at most 20 families that expired over a minute ago (locked ones are skipped). */
  predicate Purgeable(s: Store, now: Time, stale: set<Sid>) {
    |stale| <= PURGE_BATCH
    && forall sid | sid in stale :: sid in s.families && s.families[sid].expires < now - PURGE_MARGIN
  }
}
