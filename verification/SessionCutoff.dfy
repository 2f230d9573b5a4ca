/**
 The session cutoff: what a credential change writes to the two columns of a user, which access and agent tokens it
 ends, and the waits that keep a locked token from being ended by a change just made.
 */
module SessionCutoff {
  import opened Instants
  import opened Options

  const MAX_CUTOFF_WAIT: Time := 2 * SECOND

  /** `datetime.min` in UTC, before every token. */
  const DATETIME_MIN: Time := -62_135_596_800 * SECOND

  function SecondOf(t: Time): int {
    t / SECOND
  }

  /** `replace(microsecond=0)`. */
  function Floor(t: Time): Time {
    SecondOf(t) * SECOND
  }

  predicate Whole(t: Time) {
    t % SECOND == 0
  }

  function Max(a: Time, b: Time): Time {
    if a >= b then a else b
  }

  // ---- writing the columns ----

  /** The start of the next whole second. */
  function NextSecond(now: Time): Time {
    Floor(now) + SECOND
  }

  datatype Columns = Columns(passwordChangedAt: Option<Time>, sessionsInvalidatedAt: Option<Time>)

  const NEVER := Columns(None, None)

  /** The later of the columns that are set. */
  function CutoffOf(c: Columns): Time {
    if c.passwordChangedAt.None? && c.sessionsInvalidatedAt.None? then DATETIME_MIN
    else if c.passwordChangedAt.None? then c.sessionsInvalidatedAt.value
    else if c.sessionsInvalidatedAt.None? then c.passwordChangedAt.value
    else Max(c.passwordChangedAt.value, c.sessionsInvalidatedAt.value)
  }

  datatype Which = Password | Sessions | Both

  /** A credential change, or a removed member accepting a new invitation. */
  datatype Event = Change(at: Time, which: Which) | Rejoin(at: Time)

  function Write(c: Columns, e: Event): Columns {
    match e
    case Change(at, Password) => c.(passwordChangedAt := Some(NextSecond(at)))
    case Change(at, Sessions) => c.(sessionsInvalidatedAt := Some(NextSecond(at)))
    case Change(at, Both) => Columns(Some(NextSecond(at)), Some(NextSecond(at)))
    case Rejoin(at) =>
      var cutoff := Max(Floor(at), CutoffOf(c));
      Columns(Some(cutoff), Some(cutoff))
  }

  function After(events: seq<Event>): Columns {
    if events == [] then NEVER else Write(After(events[..|events| - 1]), events[|events| - 1])
  }

  /** One clock that does not run backwards. */
  ghost predicate Ordered(events: seq<Event>) {
    forall i, j | 0 <= i < j < |events| :: events[i].at <= events[j].at
  }

  // ---- which tokens die ----

  /** `iat` of an access token minted now, in whole seconds. */
  function MintIat(now: Time): int {
    SecondOf(now)
  }

  /** The validators; a token without `iat` is not compared. */
  predicate Rejected(iat: Option<int>, cutoff: Time) {
    iat.Some? && iat.value * SECOND < cutoff
  }

  /** Agent tokens and grants carry a floored `created_at`, and die at the cutoff itself. */
  predicate AgentRejected(created: Time, cutoff: Time) {
    created <= cutoff
  }

  /** The least instant the event lets tokens start at. */
  function Bar(e: Event): Time {
    match e
    case Change(at, _) => NextSecond(at)
    case Rejoin(at) => Floor(at)
  }

  /** The part of an ordered run that came first. */
  lemma OrderedPrefix(events: seq<Event>, more: seq<Event>)
    requires Ordered(events + more)
    ensures Ordered(events)
  {
    forall i, j | 0 <= i < j < |events| ensures events[i].at <= events[j].at {
      assert (events + more)[i].at <= (events + more)[j].at;
    }
  }

  ghost predicate Bounds(c: Columns, limit: Time) {
    && (c.passwordChangedAt.Some? ==> c.passwordChangedAt.value <= limit)
    && (c.sessionsInvalidatedAt.Some? ==> c.sessionsInvalidatedAt.value <= limit)
  }

  lemma FloorIsMonotone(a: Time, b: Time)
    requires a <= b
    ensures SecondOf(a) <= SecondOf(b) && Floor(a) <= Floor(b) && Floor(b) <= b < NextSecond(b)
  {
  }

  lemma BoundsRise(c: Columns, a: Time, b: Time)
    requires Bounds(c, NextSecond(a)) && a <= b
    ensures Bounds(c, NextSecond(b))
  {
    FloorIsMonotone(a, b);
  }

  lemma WriteRaises(c: Columns, e: Event)
    requires Bounds(c, NextSecond(e.at)) && e.at >= 0
    ensures Bounds(Write(c, e), NextSecond(e.at))
    ensures CutoffOf(Write(c, e)) == Max(CutoffOf(c), Bar(e))
  {
  }

  ghost predicate NoneNegative(events: seq<Event>) {
    forall e | e in events :: e.at >= 0
  }

  /** The last write of a run raises the cutoff to its bar, or leaves it: no column is later than the second after
      it. */
  lemma {:induction false} LastWriteRaises(events: seq<Event>)
    requires Ordered(events) && NoneNegative(events) && events != []
    ensures var n := |events| - 1;
      && Bounds(After(events), NextSecond(events[n].at))
      && CutoffOf(After(events)) == Max(CutoffOf(After(events[..n])), Bar(events[n]))
  {
    var n := |events| - 1;
    if n > 0 {
      Shorter(events);
      LastWriteRaises(events[..n]);
      BoundsRise(After(events[..n]), events[n - 1].at, events[n].at);
    }
    WriteRaises(After(events[..n]), events[n]);
  }

  lemma Shorter(events: seq<Event>)
    requires Ordered(events) && NoneNegative(events) && events != []
    ensures var n := |events| - 1;
      Ordered(events[..n]) && NoneNegative(events[..n]) && events[n].at >= 0 && events == events[..n] + [events[n]]
  {
  }

  /** The highest of the bars, or the beginning of time when there is none. */
  ghost predicate HighestBar(events: seq<Event>, cutoff: Time) {
    && (if events == [] then cutoff == DATETIME_MIN else exists e :: e in events && cutoff == Bar(e))
    && forall e | e in events :: Bar(e) <= cutoff
  }

  lemma HighestOfMore(before: seq<Event>, last: Event, cutoff: Time)
    requires HighestBar(before, cutoff) && last.at >= 0
    ensures HighestBar(before + [last], Max(cutoff, Bar(last)))
  {
    assert last in before + [last];
    if before != [] {
      var e :| e in before && cutoff == Bar(e);
      assert e in before + [last];
    }
  }

  /** Along a run the cutoff is the highest bar so far, although each write forgets the column's old value. */
  lemma {:induction false} CutoffIsHighestBar(events: seq<Event>)
    requires Ordered(events) && NoneNegative(events)
    ensures HighestBar(events, CutoffOf(After(events)))
  {
    if events != [] {
      var n := |events| - 1;
      Shorter(events);
      LastWriteRaises(events);
      CutoffIsHighestBar(events[..n]);
      HighestOfMore(events[..n], events[n], CutoffOf(After(events[..n])));
    }
  }

  /** The event ends a token minted at `m`: a change, up to the end of its own second; a rejoin, before its second. */
  predicate Ends(e: Event, m: Time) {
    match e
    case Change(at, _) => SecondOf(m) <= SecondOf(at)
    case Rejoin(at) => SecondOf(m) < SecondOf(at)
  }

  lemma EndsMeans(e: Event, m: Time)
    ensures Ends(e, m) <==> MintIat(m) * SECOND < Bar(e)
  {
  }

  /** After any run, an access token is rejected exactly when some event of the run ends it. */
  lemma RejectedExactly(events: seq<Event>, m: Time)
    requires Ordered(events) && (forall e | e in events :: e.at >= 0) && m >= 0
    ensures Rejected(Some(MintIat(m)), CutoffOf(After(events))) <==> exists e :: e in events && Ends(e, m)
  {
    CutoffIsHighestBar(events);
    var cutoff := CutoffOf(After(events));
    if Rejected(Some(MintIat(m)), cutoff) {
      if events != [] {
        var e :| e in events && cutoff == Bar(e);
        EndsMeans(e, m);
      }
    }
    if exists e :: e in events && Ends(e, m) {
      var e :| e in events && Ends(e, m);
      EndsMeans(e, m);
    }
  }

  /** With changes alone: rejected exactly when minted in or before the second of the latest change. */
  lemma RejectedThroughTheLatestSecond(events: seq<Event>, m: Time)
    requires Ordered(events) && (forall e | e in events :: e.at >= 0 && e.Change?) && m >= 0
    ensures Rejected(Some(MintIat(m)), CutoffOf(After(events))) <==>
      events != [] && SecondOf(m) <= SecondOf(events[|events| - 1].at)
  {
    RejectedExactly(events, m);
    if exists e :: e in events && Ends(e, m) {
      var e :| e in events && Ends(e, m);
      var i :| 0 <= i < |events| && events[i] == e;
      if i < |events| - 1 { FloorIsMonotone(events[i].at, events[|events| - 1].at); }
    }
    if events != [] { assert events[|events| - 1] in events; }
  }

  /** The same for agent tokens, one second later. */
  lemma AgentRejectedExactly(events: seq<Event>, m: Time)
    requires Ordered(events) && (forall e | e in events :: e.at >= 0) && m >= 0
    ensures AgentRejected(Floor(m), CutoffOf(After(events))) <==>
      exists e :: e in events && SecondOf(m) <= SecondOf(e.at) + (if e.Change? then 1 else 0)
  {
    CutoffIsHighestBar(events);
    if AgentRejected(Floor(m), CutoffOf(After(events))) && events != [] {
      var e :| e in events && CutoffOf(After(events)) == Bar(e);
    }
  }

  /** A token once rejected stays rejected: no later change or rejoin revives it. */
  lemma RejectionIsFinal(events: seq<Event>, more: seq<Event>, m: Time)
    requires Ordered(events + more) && (forall e | e in events + more :: e.at >= 0) && m >= 0
    requires Rejected(Some(MintIat(m)), CutoffOf(After(events)))
    ensures Rejected(Some(MintIat(m)), CutoffOf(After(events + more)))
  {
    OrderedPrefix(events, more);
    RejectedExactly(events, m);
    var e :| e in events && Ends(e, m);
    assert e in events + more;
    RejectedExactly(events + more, m);
  }

  // ---- whole-second columns ----

  /** What a DATETIME column without fraction does with an instant: MySQL rounds, others cut. */
  datatype Storage = Nearest | Down

  function Stored(t: Time, s: Storage): Time {
    match s
    case Nearest => Floor(t + SECOND / 2)
    case Down => Floor(t)
  }

  function StoredOption(t: Option<Time>, s: Storage): Option<Time> {
    if t.None? then None else Some(Stored(t.value, s))
  }

  function StoredColumns(c: Columns, s: Storage): Columns {
    Columns(StoredOption(c.passwordChangedAt, s), StoredOption(c.sessionsInvalidatedAt, s))
  }

  function AfterStored(events: seq<Event>, s: Storage): Columns {
    if events == [] then NEVER
    else StoredColumns(Write(AfterStored(events[..|events| - 1], s), events[|events| - 1]), s)
  }

  ghost predicate WholeColumns(c: Columns) {
    && (c.passwordChangedAt.Some? ==> Whole(c.passwordChangedAt.value))
    && (c.sessionsInvalidatedAt.Some? ==> Whole(c.sessionsInvalidatedAt.value))
  }

  lemma FloorIsWhole(t: Time)
    ensures Whole(Floor(t)) && Whole(NextSecond(t))
  {
  }

  lemma WriteIsWhole(c: Columns, e: Event)
    requires WholeColumns(c)
    ensures WholeColumns(Write(c, e))
  {
    FloorIsWhole(e.at);
    assert Whole(DATETIME_MIN);
  }

  lemma WholeIsStored(c: Columns, s: Storage)
    requires WholeColumns(c)
    ensures StoredColumns(c, s) == c
  {
  }

  /** Storage never moves a cutoff: every run leaves the columns it would leave with full precision, all whole
      seconds. */
  lemma {:induction false} StorageIsTransparent(events: seq<Event>, s: Storage)
    ensures AfterStored(events, s) == After(events) && WholeColumns(After(events))
  {
    if events != [] {
      var before, last := events[..|events| - 1], events[|events| - 1];
      StorageIsTransparent(before, s);
      WriteIsWhole(After(before), last);
      WholeIsStored(Write(After(before), last), s);
    }
  }

  lemma CutoffIsWhole(events: seq<Event>)
    ensures Whole(CutoffOf(After(events)))
  {
    StorageIsTransparent(events, Down);
    assert Whole(DATETIME_MIN);
  }

  /** Writing the instant itself would let a token from before the change live: exactly one of the same second, when
      storage takes the fraction away. */
  lemma RawCutoffLeaks(now: Time, m: Time, s: Storage)
    requires 0 <= m <= now
    ensures !Rejected(Some(MintIat(m)), Stored(now, s)) <==>
      SecondOf(m) == SecondOf(now) && (s.Down? || now % SECOND < SECOND / 2)
  {
    FloorIsMonotone(m, now);
  }

  // ---- waiting ----

  /** When `_sleep_until` returns: after the wait, capped, and however late the loop wakes it. */
  function WakeTime(now: Time, instant: Time, late: nat): Time {
    var delay := if instant - now <= MAX_CUTOFF_WAIT then instant - now else MAX_CUTOFF_WAIT;
    if delay > 0 then now + delay + late else now
  }

  class Clock {
    var now: Time

    method SleepUntil(instant: Time, late: nat)
      modifies this
      ensures now == WakeTime(old(now), instant, late)
    {
      var delay := instant - now;
      if MAX_CUTOFF_WAIT < delay {
        delay := MAX_CUTOFF_WAIT;
      }
      if delay > 0 {
        now := now + delay + late;
      }
    }

    method WaitOutCutoff(user: User, late: nat)
      modifies this
      ensures now == WakeTime(old(now), CutoffOf(user.Values()), late)
    {
      var cutoff := user.TokenCutoff();
      SleepUntil(cutoff, late);
    }

    method WaitOutCutoffSecond(cutoff: Time, late: nat)
      modifies this
      ensures now == WakeTime(old(now), cutoff + SECOND, late)
    {
      SleepUntil(cutoff + SECOND, late);
    }
  }

  class User {
    var passwordChangedAt: Option<Time>
    var sessionsInvalidatedAt: Option<Time>

    function Values(): Columns
      reads this
    {
      Columns(passwordChangedAt, sessionsInvalidatedAt)
    }

    constructor ()
      ensures Values() == NEVER
    {
      passwordChangedAt, sessionsInvalidatedAt := None, None;
    }

    method TokenCutoff() returns (cutoff: Time)
      ensures cutoff == CutoffOf(Values())
    {
      var ts: seq<Time> := [];
      if passwordChangedAt.Some? {
        ts := ts + [passwordChangedAt.value];
      }
      if sessionsInvalidatedAt.Some? {
        ts := ts + [sessionsInvalidatedAt.value];
      }
      cutoff := if ts == [] then DATETIME_MIN else if |ts| == 1 then ts[0] else Max(ts[0], ts[1]);
    }

    method ChangeCredentials(now: Time, which: Which)
      modifies this
      ensures Values() == Write(old(Values()), Change(now, which))
    {
      var cutoff := NextSecond(now);
      if which != Sessions {
        passwordChangedAt := Some(cutoff);
      }
      if which != Password {
        sessionsInvalidatedAt := Some(cutoff);
      }
    }

    method AcceptInvitation(now: Time)
      modifies this
      ensures Values() == Write(old(Values()), Rejoin(now))
    {
      var seen := TokenCutoff();
      var cutoff := Max(Floor(now), seen);
      passwordChangedAt := Some(cutoff);
      sessionsInvalidatedAt := Some(cutoff);
    }
  }

  /** A wait that may end in time ends at its instant, late only by what the loop adds; nobody waits for an instant that
      is past, or longer than two seconds. */
  lemma WaitsNoLongerThanAsked(now: Time, instant: Time, late: nat)
    ensures instant <= now ==> WakeTime(now, instant, late) == now
    ensures now < instant <= now + 2 * SECOND ==> WakeTime(now, instant, late) == instant + late
    ensures instant > now + 2 * SECOND ==> WakeTime(now, instant, late) == now + 2 * SECOND + late
  {
  }

  /** The mint comes some time after the wake-up. */
  function MintTime(now: Time, instant: Time, late: nat, pause: nat): Time {
    WakeTime(now, instant, late) + pause
  }

  /** A token minted after the wait is accepted however late the wake-up exactly when the cutoff is at most two seconds
      ahead of the minting clock. */
  lemma MintAfterWaitExactly(now: Time, cutoff: Time)
    requires Whole(cutoff)
    ensures (forall late: nat, pause: nat :: !Rejected(Some(MintIat(MintTime(now, cutoff, late, pause))), cutoff))
      <==> cutoff - now <= MAX_CUTOFF_WAIT
  {
    if cutoff - now > MAX_CUTOFF_WAIT {
      assert MintTime(now, cutoff, 0, 0) == now + MAX_CUTOFF_WAIT;
      assert Rejected(Some(MintIat(MintTime(now, cutoff, 0, 0))), cutoff);
    } else {
      forall late: nat, pause: nat ensures !Rejected(Some(MintIat(MintTime(now, cutoff, late, pause))), cutoff) {
        FloorIsMonotone(cutoff, MintTime(now, cutoff, late, pause));
      }
    }
  }

  /** A cutoff three seconds ahead outlasts the wait: a token minted right after it is refused. */
  lemma ThreeSecondsAreTooFar(now: Time)
    requires Whole(now)
    ensures MintTime(now, now + 3 * SECOND, 0, 0) == now + 2 * SECOND
    ensures Rejected(Some(MintIat(MintTime(now, now + 3 * SECOND, 0, 0))), now + 3 * SECOND)
  {
  }

  /** After any run, on a clock at most a second behind the one that wrote the changes, the wait always suffices;
      on the same clock it is never longer than a second. */
  lemma SignInAfterChanges(events: seq<Event>, now: Time, late: nat, pause: nat)
    requires Ordered(events) && (forall e | e in events :: 0 <= e.at <= now + SECOND) && now >= 0
    ensures var cutoff := CutoffOf(After(events));
      && !Rejected(Some(MintIat(MintTime(now, cutoff, late, pause))), cutoff)
      && ((forall e | e in events :: e.at <= now) ==> events != [] ==> cutoff - now <= SECOND)
      && ((forall e | e in events :: e.at <= now) ==> WakeTime(now, cutoff, late) <= now + SECOND + late)
  {
    CutoffIsHighestBar(events);
    CutoffIsWhole(events);
    var cutoff := CutoffOf(After(events));
    if events != [] {
      var e :| e in events && cutoff == Bar(e);
      assert cutoff - now <= MAX_CUTOFF_WAIT;
      MintAfterWaitExactly(now, cutoff);
    } else {
      MintAfterWaitExactly(now, cutoff);
    }
  }

  /** The same for the wait that ends a second later. */
  function AgentMintTime(now: Time, cutoff: Time, late: nat, pause: nat): Time {
    MintTime(now, cutoff + SECOND, late, pause)
  }

  /** An agent token floored after its own wait is created strictly after the cutoff, on the same condition. */
  lemma AgentMintAfterWaitExactly(now: Time, cutoff: Time)
    requires Whole(cutoff)
    ensures (forall late: nat, pause: nat :: !AgentRejected(Floor(AgentMintTime(now, cutoff, late, pause)), cutoff))
      <==> cutoff + SECOND - now <= MAX_CUTOFF_WAIT
  {
    if cutoff + SECOND - now > MAX_CUTOFF_WAIT {
      assert AgentMintTime(now, cutoff, 0, 0) == now + MAX_CUTOFF_WAIT;
      assert AgentRejected(Floor(AgentMintTime(now, cutoff, 0, 0)), cutoff);
    } else {
      forall late: nat, pause: nat ensures !AgentRejected(Floor(AgentMintTime(now, cutoff, late, pause)), cutoff) {
        FloorIsMonotone(cutoff + SECOND, AgentMintTime(now, cutoff, late, pause));
      }
    }
  }

  // ---- the agent mint, with changes racing the wait ----

  /** Under the owner's row lock: refused when the cutoff moved since the request started. */
  function MintAgent(seen: Time, locked: Time, now: Time): Option<Time> {
    if locked != seen then None else Some(Floor(now))
  }

  /** The cutoff moves exactly when a later event has a higher bar. */
  lemma MovedExactly(events: seq<Event>, more: seq<Event>)
    requires Ordered(events + more) && forall e | e in events + more :: e.at >= 0
    ensures CutoffOf(After(events)) <= CutoffOf(After(events + more))
    ensures CutoffOf(After(events)) != CutoffOf(After(events + more)) <==>
      exists e :: e in more && Bar(e) > CutoffOf(After(events))
  {
    OrderedPrefix(events, more);
    CutoffIsHighestBar(events);
    CutoffIsHighestBar(events + more);
    var seen, now := CutoffOf(After(events)), CutoffOf(After(events + more));
    if events != [] {
      var e :| e in events && seen == Bar(e);
      assert e in events + more;
    } else if events + more != [] {
      assert (events + more)[0] in events + more;
    }
    if now > seen {
      var e :| e in events + more && now == Bar(e);
      assert e in more;
    }
    if exists e :: e in more && Bar(e) > seen {
      var e :| e in more && Bar(e) > seen;
      assert e in events + more;
    }
  }

  lemma CutoffIsNear(events: seq<Event>, now: Time)
    requires Ordered(events) && (forall e | e in events :: 0 <= e.at <= now) && now >= 0
    ensures CutoffOf(After(events)) <= now + SECOND
  {
    CutoffIsHighestBar(events);
  }

  /** Whatever changes run during the request, a mint is refused or the token is alive when its transaction runs; it is
      refused exactly when a change of the meantime raised the cutoff. */
  lemma AgentMintIsRefusedOrAlive(events: seq<Event>, during: seq<Event>, now: Time, late: nat, pause: nat)
    requires Ordered(events + during) && forall e | e in events + during :: e.at >= 0
    requires now >= 0 && forall e | e in events :: e.at <= now
    ensures var seen, locked := CutoffOf(After(events)), CutoffOf(After(events + during));
      var minted := MintAgent(seen, locked, AgentMintTime(now, seen, late, pause));
      && (minted.Some? ==> !AgentRejected(minted.value, locked))
      && (minted.None? <==> exists e :: e in during && Bar(e) > seen)
  {
    OrderedPrefix(events, during);
    assert forall e | e in events :: e in events + during;
    CutoffIsNear(events, now);
    CutoffIsWhole(events);
    AgentMintAfterWaitExactly(now, CutoffOf(After(events)));
    MovedExactly(events, during);
  }
}
