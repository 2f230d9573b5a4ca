/** The token module's variables and the functions that assign them, proved equal to the steps of TokenClient. */
module TokenModule {
  import opened Options
  import opened TokenClient

  class Module {
    var accessToken: Option<Token>
    var accessTokenExp: Option<int>
    var proactiveRefreshTimer: Option<Id>
    var refreshPromise: Option<Id>
    var refreshAwaiters: int
    var mePromise: Option<Id>
    var pinnedIdentity: Option<Identity>

    // what the browser keeps for it: timers, promises and suspended callers
    var timers: map<Id, Millis>
    var sequences: map<Id, Sequence>
    var probes: map<Id, Probe>
    var waits: map<Id, Wait>
    var nextId: Id

    ghost var dropped: nat
    ghost var arrived: nat

    ghost function State(): Client
      reads this
    {
      Client(accessToken, accessTokenExp, proactiveRefreshTimer, refreshPromise, refreshAwaiters, mePromise,
             pinnedIdentity, timers, sequences, probes, waits, nextId, dropped, arrived)
    }

    constructor ()
      ensures State() == FRESH
    {
      accessToken, accessTokenExp, proactiveRefreshTimer := None, None, None;
      refreshPromise, refreshAwaiters, mePromise, pinnedIdentity := None, 0, None, None;
      timers, sequences, probes, waits, nextId := map[], map[], map[], map[], 0;
      dropped, arrived := 0, 0;
    }

    method ScheduleProactiveRefresh(now: Millis)
      modifies this
      ensures State() == Schedule(old(State()), now)
    {
      if proactiveRefreshTimer.Some? {
        timers := timers - {proactiveRefreshTimer.value};
        proactiveRefreshTimer := None;
      }
      if accessTokenExp.None? {
        return;
      }
      var refreshAtSec := accessTokenExp.value - LEAD_SECONDS;
      var delayMs := (refreshAtSec - now / 1000) * 1000;
      if delayMs <= 0 {
        return;
      }
      proactiveRefreshTimer := Some(nextId);
      timers := timers[nextId := now + delayMs];
      nextId := nextId + 1;
    }

    method SetToken(token: Option<Token>, now: Millis) returns (stored: bool)
      modifies this
      ensures (State(), stored) == SetAccessToken(old(State()), token, now)
    {
      if token.Some? {
        if pinnedIdentity.None? {
          pinnedIdentity := Some(token.value.identity);
        } else if token.value.identity != pinnedIdentity.value {
          return false;
        }
      }
      if accessToken.None? && token.Some? {
        arrived := arrived + 1;
      }
      accessToken := token;
      accessTokenExp := if token.Some? && !token.value.empty then token.value.exp else None;
      ScheduleProactiveRefresh(now);
      return true;
    }

    method SignInWithAccessToken(token: Option<Token>, now: Millis)
      modifies this
      ensures State() == SignIn(old(State()), token, now)
    {
      pinnedIdentity := None;
      var _ := SetToken(token, now);
    }

    method JoinRefresh(caller: Id, reactive: bool)
      modifies this
      ensures State() == Join(old(State()), caller, reactive)
    {
      if refreshPromise.None? {
        refreshPromise := Some(nextId);
        sequences := sequences[nextId := Sequence(Fetching, [])];
        nextId := nextId + 1;
      }
      var sharedPromise := refreshPromise.value;
      refreshAwaiters := refreshAwaiters + 1;
      waits := waits[caller := if reactive then Reactive(sharedPromise) else Proactive(sharedPromise)];
    }

    method EnsureFreshAccessToken(caller: Id, now: Millis)
      modifies this
      ensures State() == EnsureFresh(old(State()), caller, now)
    {
      if accessToken.None? || accessToken.value.empty {
        return;
      }
      if accessTokenExp.None? || accessTokenExp.value - now / 1000 > LEAD_SECONDS + SKEW_SECONDS {
        return;
      }
      JoinRefresh(caller, false);
    }

    /** The end of a successful attempt: store the bearer, or drop the session of another identity. */
    method AcceptBearer(token: Token, now: Millis) returns (outcome: Outcome)
      modifies this
      ensures (State(), outcome) == TakeBearer(old(State()), token, now)
    {
      var stored := SetToken(Some(token), now);
      if !stored {
        var hadToken := accessToken.Some?;
        var _ := SetToken(None, now);
        if hadToken {
          dropped := dropped + 1;
        }
        return Terminal(401);
      }
      return Ok(token);
    }

    /** Counting out of the shared promise, and clearing it behind the last awaiter. */
    method LeaveRefresh(caller: Id, refresh: Id)
      modifies this
      ensures State() == Leave(old(State()), caller, refresh)
    {
      refreshAwaiters := refreshAwaiters - 1;
      waits := waits - {caller};
      if refreshAwaiters == 0 && refreshPromise == Some(refresh) {
        refreshPromise := None;
      }
    }

    /** probeAuthMeAlive(): joins the probe in flight, or starts one. */
    method JoinProbe(caller: Id)
      modifies this
      ensures State() == AwaitProbe(old(State()), caller)
    {
      if mePromise.None? {
        mePromise := Some(nextId);
        probes := probes[nextId := Asking(accessToken.Some? && !accessToken.value.empty)];
        nextId := nextId + 1;
      }
      waits := waits[caller := Probing(mePromise.value)];
    }

    /** After `await sharedPromise`: count out, clear the promise behind the last one, and go on to the probe. */
    method WakeFromRefresh(caller: Id)
      requires SettledFor(State(), caller)
      modifies this
      ensures var c := old(State()); var refresh := c.waits[caller].refresh;
        State() == Resumed(c, caller, refresh, c.waits[caller].Reactive?, c.sequences[refresh].phase.result)
    {
      var wait := waits[caller];
      var result := sequences[wait.refresh].phase.result;
      LeaveRefresh(caller, wait.refresh);
      if wait.Reactive? && result.Terminal? {
        JoinProbe(caller);
      }
    }

    /** After `await mePromise`. */
    method WakeFromProbe(caller: Id, now: Millis)
      requires Enabled(State(), Event(now, Concludes(caller)))
      modifies this
      ensures State() == Next(old(State()), Event(now, Concludes(caller)))
    {
      var sessionAlive := probes[waits[caller].probe].alive;
      waits := waits - {caller};
      if !sessionAlive {
        if accessToken.Some? {
          var _ := SetToken(None, now);
          dropped := dropped + 1;
        }
      }
    }
  }

  /** A sequence whose first `made` attempts ended as listed. */
  function Attempted(answers: seq<Outcome>, made: nat): (s: Sequence)
    requires made <= |answers|
    ensures |s.attempts| == made
  {
    if made == 0 then Sequence(Fetching, []) else Advanced(Attempted(answers, made - 1), answers[made - 1])
  }

  lemma {:induction false} AttemptedListsThem(answers: seq<Outcome>, made: nat)
    requires made <= |answers|
    ensures Attempted(answers, made).attempts == answers[..made]
  {
    if made > 0 {
      AttemptedListsThem(answers, made - 1);
      assert answers[..made] == answers[..made - 1] + [answers[made - 1]];
    }
  }

  /** refreshAccessToken(): the retry loop, over what its three possible attempts would answer. It settles like the
      sequence of TokenClient, after no more attempts than it needs. */
  method RefreshAccessToken(answers: seq<Outcome>) returns (last: Outcome, made: nat)
    requires |answers| == MAX_ATTEMPTS
    ensures 1 <= made <= MAX_ATTEMPTS && last == answers[made - 1]
    ensures forall i | 0 <= i < made - 1 :: answers[i].Transient?
    ensures Attempted(answers, made).phase == Settled(last)
  {
    last := answers[0];
    made := 1;
    while made < MAX_ATTEMPTS && last.Transient?
      invariant 1 <= made <= MAX_ATTEMPTS && last == answers[made - 1]
      invariant forall i | 0 <= i < made - 1 :: answers[i].Transient?
    {
      last := answers[made];
      made := made + 1;
    }
  }
}
