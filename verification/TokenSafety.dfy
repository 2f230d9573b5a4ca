/** What the token module keeps through every interleaving. */
module TokenSafety {
  import opened Options
  import opened TokenClient

  // ---- every step keeps the invariant ----

  /** The parts of the state that storing a token leaves alone. */
  ghost predicate SameFlights(c: Client, d: Client) {
    && d.refreshPromise == c.refreshPromise && d.refreshAwaiters == c.refreshAwaiters && d.mePromise == c.mePromise
    && d.sequences == c.sequences && d.probes == c.probes && d.waits == c.waits && d.nextId >= c.nextId
  }

  lemma SameFlightsKeep(c: Client, d: Client)
    requires SameFlights(c, d) && SingleFlight(c) && SequencesOk(c) && ProbeOk(c)
    ensures SingleFlight(d) && SequencesOk(d) && ProbeOk(d)
  {
    assert Awaiters(d) == Awaiters(c);
  }

  lemma ScheduleOk(c: Client, now: Millis)
    requires c.timers.Keys == if c.timer.Some? then {c.timer.value} else {}
    ensures TimerOk(Schedule(c, now)) && SameFlights(c, Schedule(c, now))
  {
  }

  /** Storing a token that fits its pin. */
  lemma StoreFits(c: Client, token: Option<Token>, now: Millis)
    requires c.timers.Keys == if c.timer.Some? then {c.timer.value} else {}
    requires c.dropped + (if c.accessToken.Some? then 1 else 0) <= c.arrived
    requires token.Some? ==> c.pin == Some(token.value.identity)
    ensures var d := Store(c, token, now); TokenOk(d) && TimerOk(d) && SameFlights(c, d)
  {
    ScheduleOk(c.(accessToken := token,
                  exp := if token.Some? && !token.value.empty then token.value.exp else None,
                  arrived := if c.accessToken.None? && token.Some? then c.arrived + 1 else c.arrived), now);
  }

  lemma StoreOk(c: Client, token: Option<Token>, now: Millis)
    requires TokenOk(c) && TimerOk(c)
    ensures var d := SetAccessToken(c, token, now).0; TokenOk(d) && TimerOk(d) && SameFlights(c, d)
  {
    if SetAccessToken(c, token, now).1 {
      StoreFits(if token.Some? then c.(pin := Some(token.value.identity)) else c, token, now);
    }
  }

  lemma SignInOk(c: Client, token: Option<Token>, now: Millis)
    requires TokenOk(c) && TimerOk(c)
    ensures var d := SignIn(c, token, now); TokenOk(d) && TimerOk(d) && SameFlights(c, d)
  {
    var pinned := if token.Some? then c.(pin := Some(token.value.identity)) else c.(pin := None);
    assert SignIn(c, token, now) == Store(pinned, token, now);
    StoreFits(pinned, token, now);
  }

  lemma SetKeepsInv(c: Client, token: Option<Token>, now: Millis)
    requires Inv(c)
    ensures Inv(SetAccessToken(c, token, now).0)
  {
    StoreOk(c, token, now);
    SameFlightsKeep(c, SetAccessToken(c, token, now).0);
  }

  lemma SignInKeepsInv(c: Client, token: Option<Token>, now: Millis)
    requires Inv(c)
    ensures Inv(SignIn(c, token, now))
  {
    SignInOk(c, token, now);
    SameFlightsKeep(c, SignIn(c, token, now));
  }

  lemma JoinIsSingleFlight(c: Client, caller: Id, reactive: bool)
    requires SingleFlight(c) && caller !in c.waits
    ensures SingleFlight(Join(c, caller, reactive))
  {
    var d := Join(c, caller, reactive);
    assert caller !in Awaiters(c);
    assert Awaiters(d) == Awaiters(c) + {caller};
  }

  lemma JoinKeepsInv(c: Client, caller: Id, reactive: bool)
    requires Inv(c) && caller !in c.waits
    ensures Inv(Join(c, caller, reactive))
  {
    JoinIsSingleFlight(c, caller, reactive);
    JoinKeepsTheRest(c, caller, reactive);
  }

  lemma JoinKeepsTheRest(c: Client, caller: Id, reactive: bool)
    requires SequencesOk(c) && TokenOk(c) && TimerOk(c) && ProbeOk(c)
    ensures var d := Join(c, caller, reactive); SequencesOk(d) && TokenOk(d) && TimerOk(d) && ProbeOk(d)
  {
  }

  lemma LeaveKeepsInv(c: Client, caller: Id)
    requires Inv(c) && SettledFor(c, caller)
    ensures Inv(Leave(c, caller, c.waits[caller].refresh))
  {
    var d := Leave(c, caller, c.waits[caller].refresh);
    assert caller in Awaiters(c);
    assert Awaiters(d) == Awaiters(c) - {caller};
  }

  lemma AwaitProbeKeepsInv(c: Client, caller: Id)
    requires Inv(c) && caller !in c.waits
    ensures Inv(AwaitProbe(c, caller))
  {
    AwaitProbeIsSingleFlight(c, caller);
    AwaitProbeKeepsTheRest(c, caller);
  }

  lemma AwaitProbeIsSingleFlight(c: Client, caller: Id)
    requires SingleFlight(c) && caller !in c.waits
    ensures SingleFlight(AwaitProbe(c, caller))
  {
    assert Awaiters(AwaitProbe(c, caller)) == Awaiters(c);
  }

  lemma AwaitProbeKeepsTheRest(c: Client, caller: Id)
    requires SequencesOk(c) && TokenOk(c) && TimerOk(c) && ProbeOk(c)
    ensures var d := AwaitProbe(c, caller); SequencesOk(d) && TokenOk(d) && TimerOk(d) && ProbeOk(d)
  {
  }

  lemma SettleKeepsInv(c: Client, refresh: Id, outcome: Outcome)
    requires Inv(c) && refresh in c.sequences && !c.sequences[refresh].phase.Settled?
    ensures Inv(Settle(c, refresh, outcome))
  {
    var d := Settle(c, refresh, outcome);
    assert Awaiters(d) == Awaiters(c);
    assert SequenceOk(c.sequences[refresh]);
    assert SequenceOk(Advanced(c.sequences[refresh], outcome));
  }

  lemma PhaseKeepsInv(c: Client, refresh: Id, phase: Phase)
    requires Inv(c) && refresh in c.sequences && !c.sequences[refresh].phase.Settled? && !phase.Settled?
    ensures Inv(c.(sequences := c.sequences[refresh := c.sequences[refresh].(phase := phase)]))
  {
    var d := c.(sequences := c.sequences[refresh := c.sequences[refresh].(phase := phase)]);
    assert Awaiters(d) == Awaiters(c);
    assert SequenceOk(c.sequences[refresh]);
  }

  lemma TakeBearerKeepsInv(c: Client, token: Token, now: Millis)
    requires Inv(c)
    ensures Inv(TakeBearer(c, token, now).0) && SameFlights(c, TakeBearer(c, token, now).0)
  {
    SetKeepsInv(c, Some(token), now);
    StoreOk(c, Some(token), now);
    SetKeepsInv(c, None, now);
    StoreOk(c, None, now);
    SameFlightsKeep(c, TakeBearer(c, token, now).0);
  }

  lemma BodyKeepsInv(c: Client, refresh: Id, body: Body, now: Millis)
    requires Inv(c) && InPhase(c, refresh, Reading)
    ensures Inv(BodyRead(c, refresh, body, now))
  {
    SettleKeepsInv(c, refresh, Transient);
    if body.Bearer? {
      TakeBearerKeepsInv(c, body.token, now);
      var taken := TakeBearer(c, body.token, now);
      SettleKeepsInv(taken.0, refresh, taken.1);
    }
  }

  /** Dropping the token and telling the app. */
  lemma DropKeepsInv(c: Client, now: Millis)
    requires Inv(c) && c.accessToken.Some?
    ensures var gone := SetAccessToken(c, None, now).0; Inv(gone.(dropped := gone.dropped + 1))
  {
    var gone := SetAccessToken(c, None, now).0;
    StoreOk(c, None, now);
    assert SameFlights(c, gone.(dropped := gone.dropped + 1));
    SameFlightsKeep(c, gone.(dropped := gone.dropped + 1));
  }

  lemma ForgetKeepsInv(c: Client, caller: Id)
    requires Inv(c) && caller in c.waits && c.waits[caller].Probing?
    ensures Inv(c.(waits := c.waits - {caller}))
  {
    assert Awaiters(c.(waits := c.waits - {caller})) == Awaiters(c);
  }

  lemma ConcludedKeepsInv(c: Client, caller: Id, alive: bool, now: Millis)
    requires Inv(c) && caller in c.waits && c.waits[caller].Probing?
    ensures Inv(Concluded(c, caller, alive, now))
  {
    var c1 := c.(waits := c.waits - {caller});
    ForgetKeepsInv(c, caller);
    if c1.accessToken.Some? { DropKeepsInv(c1, now); }
  }

  lemma EnsureFreshKeepsInv(c: Client, caller: Id, now: Millis)
    requires Inv(c) && caller !in c.waits
    ensures Inv(EnsureFresh(c, caller, now))
  {
    JoinKeepsInv(c, caller, false);
  }

  lemma ResumedKeepsInv(c: Client, caller: Id)
    requires Inv(c) && SettledFor(c, caller)
    ensures var refresh := c.waits[caller].refresh;
      Inv(Resumed(c, caller, refresh, c.waits[caller].Reactive?, c.sequences[refresh].phase.result))
  {
    LeaveKeepsInv(c, caller);
    AwaitProbeKeepsInv(Leave(c, caller, c.waits[caller].refresh), caller);
  }

  lemma TimerKeepsInv(c: Client, timer: Id)
    requires Inv(c) && timer in c.timers
    ensures Inv(c.(timer := None, timers := c.timers - {timer}))
  {
    var d := c.(timer := None, timers := c.timers - {timer});
    assert Awaiters(d) == Awaiters(c);
  }

  lemma ProbeEndedKeepsInv(c: Client, probe: Id, alive: bool)
    requires Inv(c) && probe in c.probes && c.probes[probe].Asking?
    ensures Inv(ProbeEnded(c, probe, alive))
  {
    assert Awaiters(ProbeEnded(c, probe, alive)) == Awaiters(c);
  }

  lemma FetchKeepsInv(c: Client, refresh: Id, response: Response)
    requires Inv(c) && InPhase(c, refresh, Fetching)
    ensures Inv(FetchEnded(c, refresh, response))
  {
    SettleKeepsInv(c, refresh, Transient);
    SettleKeepsInv(c, refresh, Terminal(if response.Status? then response.code else 0));
    PhaseKeepsInv(c, refresh, Reading);
  }

  lemma StepKeepsInv(c: Client, e: Event)
    requires Inv(c) && Enabled(c, e)
    ensures Inv(Next(c, e))
  {
    match e.step
    case SigningIn(token) => SignInKeepsInv(c, token, e.now);
    case Setting(token) => SetKeepsInv(c, token, e.now);
    case TimerFires(timer, caller) =>
      TimerKeepsInv(c, timer);
      EnsureFreshKeepsInv(c.(timer := None, timers := c.timers - {timer}), caller, e.now);
    case Refreshing(caller) => EnsureFreshKeepsInv(c, caller, e.now);
    case Unauthorized(caller) => JoinKeepsInv(c, caller, true);
    case FetchEnds(refresh, response) => FetchKeepsInv(c, refresh, response);
    case BodyEnds(refresh, body) => BodyKeepsInv(c, refresh, body, e.now);
    case BackoffEnds(refresh) => PhaseKeepsInv(c, refresh, Fetching);
    case Resumes(caller) => ResumedKeepsInv(c, caller);
    case ProbeEnds(probe, response) =>
      ProbeEndedKeepsInv(c, probe, SessionAlive(c.probes[probe].bearer, response));
    case Concludes(caller) => ConcludedKeepsInv(c, caller, c.probes[c.waits[caller].probe].alive, e.now);
  }

  /** In every reachable state, whatever the interleaving: one refresh in flight and shared, bounded retries, the token
      under its pin, at most one timer, and no more sign-out events than tokens that arrived. */
  lemma {:induction false} EveryRunKeepsInv(c: Client, run: seq<Event>)
    requires Inv(c) && EnabledRun(c, run)
    ensures Inv(After(c, run))
    decreases |run|
  {
    if run != [] {
      StepKeepsInv(c, run[0]);
      EveryRunKeepsInv(Next(c, run[0]), run[1..]);
    }
  }

  lemma FreshIsOk()
    ensures Inv(FRESH)
  {
    assert Awaiters(FRESH) == {};
  }

  // ---- consequences ----

  function Running(c: Client): set<Id> {
    set id | id in c.sequences && !c.sequences[id].phase.Settled?
  }

  /** Timer, focus, preflight and 401 paths never have two refreshes in flight; while somebody waits they all hold the
      same one. */
  lemma OneRefreshInFlight(run: seq<Event>)
    requires EnabledRun(FRESH, run)
    ensures var c := After(FRESH, run);
      && |Running(c)| <= 1
      && (forall a, b | a in Awaiters(c) && b in Awaiters(c) :: c.waits[a].refresh == c.waits[b].refresh)
      && (c.refreshPromise.Some? <==> Awaiters(c) != {}) && c.refreshAwaiters == |Awaiters(c)|
  {
    FreshIsOk();
    EveryRunKeepsInv(FRESH, run);
    var c := After(FRESH, run);
    if c.refreshPromise.Some? {
      assert Running(c) <= {c.refreshPromise.value};
      if Running(c) != {} { assert Running(c) == {c.refreshPromise.value}; }
    } else {
      assert Running(c) == {};
    }
  }

  /** A refresh makes at most three attempts, stops at the first that is not transient, and answers transient only when
      all three were. */
  lemma RetriesAreBounded(run: seq<Event>, id: Id)
    requires EnabledRun(FRESH, run) && id in After(FRESH, run).sequences
    requires After(FRESH, run).sequences[id].phase.Settled?
    ensures var s := After(FRESH, run).sequences[id];
      && 1 <= |s.attempts| <= 3
      && (forall i | 0 <= i < |s.attempts| - 1 :: s.attempts[i] == Transient)
      && s.phase.result == s.attempts[|s.attempts| - 1]
      && (s.phase.result == Transient <==> s.attempts == [Transient, Transient, Transient])
  {
    FreshIsOk();
    EveryRunKeepsInv(FRESH, run);
    assert SequenceOk(After(FRESH, run).sequences[id]);
  }

  /** Nothing about the session itself changes. */
  ghost predicate SameSession(c: Client, d: Client) {
    && d.accessToken == c.accessToken && d.exp == c.exp && d.pin == c.pin && d.timer == c.timer && d.timers == c.timers
    && d.dropped == c.dropped && d.arrived == c.arrived
  }

  /** Steps that may change it: sign-in, reset, a fired timer, a refreshed bearer, a concluded probe. */
  predicate TouchesSession(e: Event) {
    e.step.SigningIn? || e.step.Setting? || e.step.TimerFires? || e.step.Concludes?
    || (e.step.BodyEnds? && e.step.body.Bearer? && !e.step.body.token.empty)
  }

  lemma OtherStepsKeepSession(c: Client, e: Event)
    requires Enabled(c, e) && !TouchesSession(e)
    ensures SameSession(c, Next(c, e))
  {
    match e.step
    case FetchEnds(refresh, response) => assert Next(c, e) == FetchEnded(c, refresh, response);
    case Resumes(caller) => assert c.waits[caller].refresh in c.sequences;
    case _ =>
  }

  lemma PinAfterStore(c: Client, token: Option<Token>, now: Millis)
    ensures var r := SetAccessToken(c, token, now);
      && (c.pin.Some? ==> r.0.pin == c.pin)
      && (r.1 ==> r.0.accessToken == token && (token.Some? ==> r.0.pin == Some(token.value.identity)))
      && (!r.1 ==> r.0 == c && token.Some? && c.pin.Some? && c.pin.value != token.value.identity)
      && r.0.dropped == c.dropped && SameFlights(c, r.0)
  {
  }

  lemma AfterTakingBearer(c: Client, token: Token, now: Millis)
    ensures var r := TakeBearer(c, token, now);
      && (c.pin.Some? ==> r.0.pin == c.pin) && r.0.sequences == c.sequences
      && (r.1.Ok? ==> r.1 == Ok(token) && r.0.accessToken == Some(token) && r.0.pin == Some(token.identity))
      && (!r.1.Ok? ==> r.1 == Terminal(401) && r.0.accessToken == None && c.pin.Some? && token.identity != c.pin.value
                       && r.0.dropped == c.dropped + (if c.accessToken.Some? then 1 else 0))
  {
    PinAfterStore(c, Some(token), now);
    PinAfterStore(c, None, now);
  }

  /** Only a deliberate sign-in changes a pin once set. */
  lemma OnlySignInMovesThePin(c: Client, e: Event)
    requires Enabled(c, e) && c.pin.Some? && Next(c, e).pin != c.pin
    ensures e.step.SigningIn?
  {
    if !TouchesSession(e) {
      OtherStepsKeepSession(c, e);
    } else if e.step.Setting? {
      PinAfterStore(c, e.step.token, e.now);
    } else if e.step.BodyEnds? {
      AfterTakingBearer(c, e.step.body.token, e.now);
    } else if e.step.Concludes? {
      PinAfterStore(c.(waits := c.waits - {e.step.caller}), None, e.now);
    }
  }

  /** The outcome a step reports for an attempt, if it ends one. */
  ghost predicate Reports(c: Client, e: Event, outcome: Outcome)
    requires Enabled(c, e)
  {
    && (e.step.FetchEnds? || e.step.BodyEnds?)
    && e.step.refresh in Next(c, e).sequences
    && Next(c, e).sequences[e.step.refresh].attempts == c.sequences[e.step.refresh].attempts + [outcome]
  }

  lemma ReportOf(c: Client, e: Event, outcome: Outcome)
    requires Enabled(c, e) && Reports(c, e, outcome)
    ensures e.step.FetchEnds? ==>
      outcome == Transient || (e.step.response.Status? && outcome == Terminal(e.step.response.code))
    ensures e.step.BodyEnds? ==>
      outcome == if TouchesSession(e) then TakeBearer(c, e.step.body.token, e.now).1 else Transient
  {
    var attempts, attempts' := c.sequences[e.step.refresh].attempts, Next(c, e).sequences[e.step.refresh].attempts;
    assert attempts'[|attempts|] == outcome;
    if TouchesSession(e) { AfterTakingBearer(c, e.step.body.token, e.now); }
  }

  /** A refresh that answers ok has stored its bearer, and a pinned identity is the bearer's. */
  lemma OkIsThePinnedIdentity(c: Client, e: Event, token: Token)
    requires Enabled(c, e) && Reports(c, e, Ok(token))
    ensures Next(c, e).accessToken == Some(token) && Next(c, e).pin == Some(token.identity)
    ensures c.pin.Some? ==> c.pin.value == token.identity
  {
    ReportOf(c, e, Ok(token));
    AfterTakingBearer(c, e.step.body.token, e.now);
  }

  /** A transient attempt changes neither token, expiry, pin nor timer, and signs nobody out. */
  lemma TransientChangesNothing(c: Client, e: Event)
    requires Enabled(c, e) && Reports(c, e, Transient)
    ensures SameSession(c, Next(c, e))
  {
    ReportOf(c, e, Transient);
    if TouchesSession(e) { AfterTakingBearer(c, e.step.body.token, e.now); } else { OtherStepsKeepSession(c, e); }
  }

  /** The token goes away without a sign-in or an explicit reset only in two ways: a refresh brought another identity,
      or a caller learnt that the session is dead. Each tells the app exactly once. */
  lemma EveryDropIsTold(c: Client, e: Event)
    requires Enabled(c, e) && c.accessToken.Some? && Next(c, e).accessToken.None?
    ensures e.step.SigningIn? || e.step.Setting? || (
      && Next(c, e).dropped == c.dropped + 1
      && (|| (e.step.BodyEnds? && e.step.body.Bearer? && c.pin.Some? && e.step.body.token.identity != c.pin.value)
          || (e.step.Concludes? && c.probes[c.waits[e.step.caller].probe] == Answered(false))))
  {
    if !TouchesSession(e) {
      OtherStepsKeepSession(c, e);
    } else if e.step.BodyEnds? {
      AfterTakingBearer(c, e.step.body.token, e.now);
    } else if e.step.Concludes? {
      PinAfterStore(c.(waits := c.waits - {e.step.caller}), None, e.now);
    }
  }

  /** A caller of the proactive path wakes without touching token, pin, timer or events. */
  lemma ProactiveWakeIsHarmless(c: Client, e: Event)
    requires Enabled(c, e) && e.step.Resumes? && c.waits[e.step.caller].Proactive?
    ensures SameSession(c, Next(c, e)) && Next(c, e).mePromise == c.mePromise && e.step.caller !in Next(c, e).waits
  {
  }

  /** When the timer fires the token is near its expiry, so its caller always joins a refresh. */
  lemma TimerAlwaysRefreshes(c: Client, e: Event)
    requires Inv(c) && Enabled(c, e) && e.step.TimerFires?
    ensures e.step.caller in Next(c, e).waits && Next(c, e).waits[e.step.caller].Proactive?
    ensures Next(c, e).refreshPromise.Some?
  {
    var c1 := c.(timer := None, timers := c.timers - {e.step.timer});
    assert HasBearer(c) && c.timer == Some(e.step.timer);
    assert NearExpiry(c1, e.now);
  }

  /** In every reachable state at most one timer is pending, none without a token, and sign-out events never outnumber
      the tokens that arrived. */
  lemma TimersAndEventsAreBounded(run: seq<Event>)
    requires EnabledRun(FRESH, run)
    ensures var c := After(FRESH, run);
      && |c.timers| <= 1
      && (c.accessToken.None? ==> c.timers == map[])
      && (c.accessToken.Some? ==> c.pin == Some(c.accessToken.value.identity))
      && c.dropped <= c.arrived
  {
    FreshIsOk();
    EveryRunKeepsInv(FRESH, run);
    var c := After(FRESH, run);
    assert |c.timers| == |c.timers.Keys|;
  }
}
