/** What each response, timer and probe leads to, and that every caller gets away. */
module TokenAnswers {
  import opened Options
  import opened TokenClient
  import opened TokenSafety

  // ---- a status and its outcome ----

  /** The cookie is dead. */
  predicate Refused(response: Response) {
    response.Status? && (response.code == 401 || response.code == 403)
  }

  predicate Successful(response: Response) {
    response.Status? && 200 <= response.code < 300
  }

  function AttemptsOf(c: Client, refresh: Id): seq<Outcome>
    requires refresh in c.sequences
  {
    c.sequences[refresh].attempts
  }

  /** Only 401 and 403 are terminal; a network error and every other status outside 200 to 299 is transient; a success
      ends no attempt before its body is read. */
  lemma FetchMeans(c: Client, e: Event)
    requires Enabled(c, e) && e.step.FetchEnds?
    ensures var FetchEnds(refresh, response) := e.step;
      && (forall code :: Reports(c, e, Terminal(code)) <==> Refused(response) && response.code == code)
      && (Reports(c, e, Transient) <==> !Refused(response) && !Successful(response))
      && (forall token :: !Reports(c, e, Ok(token)))
      && (Successful(response) ==> InPhase(Next(c, e), refresh, Reading)
                                   && AttemptsOf(Next(c, e), refresh) == AttemptsOf(c, refresh))
  {
    OneReport(c, e);
    var FetchEnds(refresh, response) := e.step;
    if Refused(response) { assert Reports(c, e, Terminal(response.code)); }
    else if !Successful(response) { assert Reports(c, e, Transient); }
  }

  /** A step reports one outcome at most. */
  lemma OneReport(c: Client, e: Event)
    requires Enabled(c, e)
    ensures forall a, b | Reports(c, e, a) && Reports(c, e, b) :: a == b
    ensures e.step.FetchEnds? && Successful(e.step.response) ==> forall a :: !Reports(c, e, a)
  {
    forall a, b | Reports(c, e, a) && Reports(c, e, b) ensures a == b {
      var attempts := c.sequences[e.step.refresh].attempts;
      assert (attempts + [a])[|attempts|] == a && (attempts + [b])[|attempts|] == b;
    }
  }

  /** A body with a bearer of the pinned identity, or of any while none is pinned, is ok; one of another identity is
      terminal; anything else is transient. */
  lemma BodyMeans(c: Client, e: Event)
    requires Enabled(c, e) && e.step.BodyEnds?
    ensures var body := e.step.body;
      var fits := body.Bearer? && (c.pin.None? || c.pin.value == body.token.identity);
      if body.Bearer? && !body.token.empty then Reports(c, e, if fits then Ok(body.token) else Terminal(401))
      else Reports(c, e, Transient)
  {
    if e.step.body.Bearer? { PinAfterStore(c, Some(e.step.body.token), e.now); }
  }

  /** After a report the sequence backs off when the attempt was transient and fewer than three were made, and is
      settled with it otherwise. */
  lemma ReportLeadsOn(c: Client, e: Event, outcome: Outcome)
    requires Inv(c) && Enabled(c, e) && Reports(c, e, outcome)
    ensures var n := |AttemptsOf(Next(c, e), e.step.refresh)|;
      InPhase(Next(c, e), e.step.refresh, if outcome == Transient && n < 3 then BackingOff else Settled(outcome))
  {
    OneReport(c, e);
    if e.step.FetchEnds? {
      FetchMeans(c, e);
      SettleLeadsOn(c, e.step.refresh, outcome);
    } else {
      BodyMeans(c, e);
      BodyLeadsOn(c, e, outcome);
    }
  }

  lemma SettleLeadsOn(c: Client, refresh: Id, outcome: Outcome)
    requires refresh in c.sequences
    ensures var d := Settle(c, refresh, outcome);
      && AttemptsOf(d, refresh) == AttemptsOf(c, refresh) + [outcome]
      && InPhase(d, refresh,
           if outcome == Transient && |AttemptsOf(d, refresh)| < 3 then BackingOff else Settled(outcome))
  {
  }

  lemma BodyLeadsOn(c: Client, e: Event, outcome: Outcome)
    requires Enabled(c, e) && e.step.BodyEnds? && Reports(c, e, outcome)
    ensures var n := |AttemptsOf(Next(c, e), e.step.refresh)|;
      InPhase(Next(c, e), e.step.refresh, if outcome == Transient && n < 3 then BackingOff else Settled(outcome))
  {
    var BodyEnds(refresh, body) := e.step;
    ReportOf(c, e, outcome);
    if TouchesSession(e) {
      AfterTakingBearer(c, body.token, e.now);
      SettleLeadsOn(TakeBearer(c, body.token, e.now).0, refresh, outcome);
    } else {
      SettleLeadsOn(c, refresh, outcome);
    }
  }

  // ---- nobody is signed out by an outage ----

  /** No refresh is refused, and no bearer of another identity arrives. */
  predicate Harmless(c: Client, e: Event) {
    match e.step
    case FetchEnds(_, response) => !Refused(response)
    case BodyEnds(_, body) =>
      body.Bearer? && !body.token.empty && c.pin.Some? ==> body.token.identity == c.pin.value
    case _ => true
  }

  predicate HarmlessRun(c: Client, run: seq<Event>)
    requires EnabledRun(c, run)
    decreases |run|
  {
    run == [] || (Harmless(c, run[0]) && HarmlessRun(Next(c, run[0]), run[1..]))
  }

  /** No probe was ever started, nobody told to sign in, no refresh settled as terminal. */
  ghost predicate Untroubled(c: Client) {
    && c.probes == map[] && c.mePromise.None? && c.dropped == 0
    && (forall w | w in c.waits :: !c.waits[w].Probing?)
    && (forall id | id in c.sequences && c.sequences[id].phase.Settled? :: !c.sequences[id].phase.result.Terminal?)
  }

  lemma StoringIsUntroubled(c: Client, d: Client)
    requires Untroubled(c) && SameFlights(c, d) && d.dropped == c.dropped
    ensures Untroubled(d)
  {
  }

  lemma SettlingIsUntroubled(c: Client, refresh: Id, outcome: Outcome)
    requires Untroubled(c) && refresh in c.sequences && !outcome.Terminal?
    ensures Untroubled(Settle(c, refresh, outcome))
  {
  }

  lemma BodyIsUntroubled(c: Client, refresh: Id, body: Body, now: Millis)
    requires Untroubled(c) && refresh in c.sequences
    requires body.Bearer? && !body.token.empty && c.pin.Some? ==> body.token.identity == c.pin.value
    ensures Untroubled(BodyRead(c, refresh, body, now))
  {
    SettlingIsUntroubled(c, refresh, Transient);
    if body.Bearer? && !body.token.empty {
      PinAfterStore(c, Some(body.token), now);
      var stored := SetAccessToken(c, Some(body.token), now).0;
      StoringIsUntroubled(c, stored);
      SettlingIsUntroubled(stored, refresh, Ok(body.token));
    }
  }

  lemma StepIsUntroubled(c: Client, e: Event)
    requires Untroubled(c) && Enabled(c, e) && Harmless(c, e)
    ensures Untroubled(Next(c, e))
  {
    match e.step
    case SigningIn(token) =>
      PinAfterStore(c.(pin := None), token, e.now);
      StoringIsUntroubled(c, Next(c, e));
    case Setting(token) =>
      PinAfterStore(c, token, e.now);
      StoringIsUntroubled(c, Next(c, e));
    case BodyEnds(refresh, body) => BodyIsUntroubled(c, refresh, body, e.now);
    case FetchEnds(refresh, _) => SettlingIsUntroubled(c, refresh, Transient);
    case _ =>
  }

  lemma {:induction false} RunIsUntroubled(c: Client, run: seq<Event>)
    requires Untroubled(c) && EnabledRun(c, run) && HarmlessRun(c, run)
    ensures Untroubled(After(c, run))
    decreases |run|
  {
    if run != [] {
      StepIsUntroubled(c, run[0]);
      RunIsUntroubled(Next(c, run[0]), run[1..]);
    }
  }

  /** As long as no refresh is answered 401 or 403 and no other identity arrives, no probe is ever asked, nobody is told
      to sign in again, and only a sign-in or an explicit reset takes the token away. */
  lemma OutageSignsNobodyOut(run: seq<Event>, e: Event)
    requires EnabledRun(FRESH, run) && HarmlessRun(FRESH, run)
    requires Enabled(After(FRESH, run), e) && Harmless(After(FRESH, run), e)
    ensures var c := After(FRESH, run);
      && c.probes == map[] && c.dropped == 0
      && (c.accessToken.Some? && Next(c, e).accessToken.None? ==> e.step.SigningIn? || e.step.Setting?)
  {
    RunIsUntroubled(FRESH, run);
    var c := After(FRESH, run);
    StepIsUntroubled(c, e);
    if c.accessToken.Some? && Next(c, e).accessToken.None? { EveryDropIsTold(c, e); }
  }

  // ---- a refused refresh ----

  /** A caller of the reactive path that wakes to a terminal refresh always awaits the one probe; with any other
      outcome, and on the proactive path, it is done. */
  lemma WakeMeans(c: Client, e: Event)
    requires Inv(c) && Enabled(c, e) && e.step.Resumes?
    ensures var caller := e.step.caller; var wait := c.waits[caller]; var d := Next(c, e);
      if wait.Reactive? && c.sequences[wait.refresh].phase.result.Terminal? then
        && d.mePromise.Some? && caller in d.waits && d.waits[caller] == Probing(d.mePromise.value)
        && d.mePromise.value in d.probes && d.probes[d.mePromise.value].Asking?
        && (c.mePromise.Some? ==> d.mePromise == c.mePromise)
        && (c.mePromise.None? ==> d.probes[d.mePromise.value].bearer == HasBearer(c))
      else caller !in d.waits && d.probes == c.probes
  {
  }

  /** The probe finds the session alive exactly when it carried a bearer and was answered 200; the next terminal refresh
      asks afresh. */
  lemma ProbeMeans(c: Client, e: Event)
    requires Inv(c) && Enabled(c, e) && e.step.ProbeEnds?
    ensures var ProbeEnds(probe, response) := e.step; var d := Next(c, e);
      && d.mePromise.None? && d.waits == c.waits && SameSession(c, d)
      && d.probes == c.probes[probe := Answered(c.probes[probe].bearer && response == Status(200))]
  {
  }

  /** A probe that did not find the session alive leaves no token, and is told to the app exactly when there was one;
      one that did leaves the session alone. */
  lemma ProbeDecides(c: Client, e: Event)
    requires Enabled(c, e) && e.step.Concludes?
    ensures var d := Next(c, e); var alive := c.probes[c.waits[e.step.caller].probe].alive;
      && e.step.caller !in d.waits
      && (alive ==> SameSession(c, d))
      && (!alive ==> d.accessToken.None? && d.dropped == c.dropped + if c.accessToken.Some? then 1 else 0)
  {
    PinAfterStore(c.(waits := c.waits - {e.step.caller}), None, e.now);
  }

  // ---- storing ----

  /** A deliberate sign-in always takes effect, whatever identity was pinned; a store does exactly when it fits the
      pin. */
  lemma StoresExactlyWhenItFits(c: Client, e: Event)
    requires Enabled(c, e) && (e.step.SigningIn? || e.step.Setting?)
    ensures var token, d := e.step.token, Next(c, e);
      var fits := e.step.SigningIn? || c.pin.None? || token.None? || c.pin.value == token.value.identity;
      && (fits ==> d.accessToken == token)
      && (fits && token.Some? ==> d.pin == Some(token.value.identity))
      && (!fits ==> d == c)
      && SameFlights(c, d) && d.dropped == c.dropped
  {
    PinAfterStore(c, e.step.token, e.now);
    PinAfterStore(c.(pin := None), e.step.token, e.now);
  }

  // ---- who joins a refresh ----

  /** A 401 always joins the shared refresh, starting it when there is none. */
  lemma UnauthorizedJoins(c: Client, e: Event)
    requires Inv(c) && Enabled(c, e) && e.step.Unauthorized?
    ensures var d := Next(c, e);
      && d.refreshPromise.Some? && e.step.caller in d.waits
      && d.waits[e.step.caller] == Reactive(d.refreshPromise.value)
      && (c.refreshPromise.Some? ==> d.refreshPromise == c.refreshPromise && d.sequences == c.sequences)
      && (c.refreshPromise.None? ==> d.refreshPromise.value in d.sequences &&
                                     d.sequences[d.refreshPromise.value] == Sequence(Fetching, []))
  {
  }

  /** Focus and preflight join one exactly from 65 seconds before the expiry on. */
  lemma RefreshesExactlyWhenNear(c: Client, e: Event)
    requires Inv(c) && Enabled(c, e) && e.step.Refreshing?
    ensures var d := Next(c, e);
      if HasBearer(c) && c.accessToken.value.exp.Some? && e.now >= (c.accessToken.value.exp.value - 65) * 1000 then
        && d.refreshPromise.Some? && e.step.caller in d.waits
        && d.waits[e.step.caller] == Proactive(d.refreshPromise.value)
        && (c.refreshPromise.Some? ==> d.refreshPromise == c.refreshPromise && d.sequences == c.sequences)
      else d == c
  {
  }

  // ---- the timer ----

  /** The steps that may store this token. */
  predicate Brings(e: Event, token: Token) {
    e.step == SigningIn(Some(token)) || e.step == Setting(Some(token))
    || (e.step.BodyEnds? && e.step.body == Bearer(token) && !token.empty)
  }

  predicate ExpiresLater(token: Token, now: Millis) {
    !token.empty && token.exp.Some? && now < (token.exp.value - LEAD_SECONDS) * 1000
  }

  lemma ScheduleArms(c: Client, now: Millis)
    requires c.timers.Keys == if c.timer.Some? then {c.timer.value} else {}
    ensures var d := Schedule(c, now);
      if c.exp.Some? && now < (c.exp.value - LEAD_SECONDS) * 1000 then
        d.timer.Some? && d.timers == map[d.timer.value := (c.exp.value - LEAD_SECONDS) * 1000 + now % 1000]
      else d.timer.None? && d.timers == map[]
  {
    if c.exp.Some? { assert 1000 * NowSeconds(now) + now % 1000 == now; }
  }

  /** One timer, due in the second in which the token's lead window begins, when that is still to come; else none. */
  ghost predicate TimedFor(d: Client, token: Token, now: Millis) {
    if ExpiresLater(token, now) then
      d.timer.Some? && d.timers == map[d.timer.value := (token.exp.value - LEAD_SECONDS) * 1000 + now % 1000]
    else d.timer.None? && d.timers == map[]
  }

  lemma StoreArms(c: Client, token: Token, now: Millis)
    requires c.timers.Keys == if c.timer.Some? then {c.timer.value} else {}
    ensures TimedFor(Store(c, Some(token), now), token, now)
  {
    ScheduleArms(c.(accessToken := Some(token), exp := if token.empty then None else token.exp,
                    arrived := if c.accessToken.None? then c.arrived + 1 else c.arrived), now);
  }

  lemma SetArms(c: Client, token: Token, now: Millis)
    requires Inv(c) && SetAccessToken(c, Some(token), now).0.accessToken == Some(token)
    ensures TimedFor(SetAccessToken(c, Some(token), now).0, token, now)
  {
    StoreArms(c.(pin := Some(token.identity)), token, now);
  }

  lemma BodyArms(c: Client, refresh: Id, token: Token, now: Millis)
    requires Inv(c) && refresh in c.sequences && !token.empty
    requires BodyRead(c, refresh, Bearer(token), now).accessToken == Some(token)
    ensures TimedFor(BodyRead(c, refresh, Bearer(token), now), token, now)
  {
    AfterTakingBearer(c, token, now);
    PinAfterStore(c, Some(token), now);
    SetArms(c, token, now);
  }

  /** After a step that stored its token exactly one timer is pending, due in the second in which the lead window
      begins, when that is still to come; and none otherwise. */
  lemma StoredTokenIsTimed(c: Client, e: Event, token: Token)
    requires Inv(c) && Enabled(c, e) && Brings(e, token) && Next(c, e).accessToken == Some(token)
    ensures TimedFor(Next(c, e), token, e.now)
  {
    match e.step
    case SigningIn(_) => StoreArms(c.(pin := Some(token.identity)), token, e.now);
    case Setting(_) => SetArms(c, token, e.now);
    case BodyEnds(refresh, _) => BodyArms(c, refresh, token, e.now);
    case _ =>
  }

  // ---- nobody waits for ever ----

  lemma {:induction false} RunsOn(c: Client, a: seq<Event>, b: seq<Event>)
    requires EnabledRun(c, a) && EnabledRun(After(c, a), b)
    ensures EnabledRun(c, a + b) && After(c, a + b) == After(After(c, a), b)
    decreases |a|
  {
    if a == [] {
      assert a + b == b;
    } else {
      RunsOn(Next(c, a[0]), a[1..], b);
      assert (a + b)[1..] == a[1..] + b;
    }
  }

  /** How many more steps a refresh may take. */
  function Remaining(s: Sequence): int {
    var attempts := 4 * (MAX_ATTEMPTS - |s.attempts|);
    match s.phase
    case BackingOff => attempts + 3
    case Fetching => attempts + 2
    case Reading => attempts + 1
    case Settled(_) => 0
  }

  /** The step that a running refresh has next when the network is down. */
  function NextStep(s: Sequence, refresh: Id): Step
    requires !s.phase.Settled?
  {
    match s.phase
    case Fetching => FetchEnds(refresh, NetworkError)
    case Reading => BodyEnds(refresh, BadJson)
    case _ => BackoffEnds(refresh)
  }

  lemma RefreshGoesOn(c: Client, refresh: Id, now: Millis)
    requires Inv(c) && refresh in c.sequences && !c.sequences[refresh].phase.Settled?
    ensures Enabled(c, Event(now, NextStep(c.sequences[refresh], refresh)))
    ensures var d := Next(c, Event(now, NextStep(c.sequences[refresh], refresh)));
      && d.waits == c.waits && refresh in d.sequences
      && 0 <= Remaining(d.sequences[refresh]) < Remaining(c.sequences[refresh])
  {
    assert SequenceOk(c.sequences[refresh]);
  }

  /** Whatever is in flight settles, even if no server ever answers again. */
  lemma {:induction false} RefreshSettles(c: Client, refresh: Id, now: Millis) returns (run: seq<Event>)
    requires Inv(c) && refresh in c.sequences
    ensures EnabledRun(c, run) && Inv(After(c, run)) && After(c, run).waits == c.waits
    ensures refresh in After(c, run).sequences && After(c, run).sequences[refresh].phase.Settled?
    decreases Remaining(c.sequences[refresh])
  {
    if c.sequences[refresh].phase.Settled? {
      run := [];
    } else {
      var e := Event(now, NextStep(c.sequences[refresh], refresh));
      RefreshGoesOn(c, refresh, now);
      StepKeepsInv(c, e);
      var others := RefreshSettles(Next(c, e), refresh, now);
      run := [e] + others;
      assert run[1..] == others;
    }
  }

  ghost predicate WakesBy(c: Client, run: seq<Event>, caller: Id) {
    EnabledRun(c, run) && Inv(After(c, run)) && caller !in After(c, run).waits
  }

  lemma AnswerWakes(c: Client, caller: Id, now: Millis) returns (run: seq<Event>)
    requires Inv(c) && caller in c.waits && c.waits[caller].Probing? && c.waits[caller].probe in c.probes
    requires c.probes[c.waits[caller].probe].Answered?
    ensures WakesBy(c, run, caller)
  {
    var done := Event(now, Concludes(caller));
    run := [done];
    StepKeepsInv(c, done);
    ProbeDecides(c, done);
  }

  lemma ProbeAnswers(c: Client, caller: Id, e: Event)
    requires Inv(c) && caller in c.waits && c.waits[caller].Probing?
    requires e.step == ProbeEnds(c.waits[caller].probe, NetworkError) && Enabled(c, e)
    ensures var d := Next(c, e); d.waits == c.waits && d.probes == c.probes[c.waits[caller].probe := Answered(false)]
  {
  }

  lemma ProbeWakes(c: Client, caller: Id, now: Millis) returns (run: seq<Event>)
    requires Inv(c) && caller in c.waits && c.waits[caller].Probing?
    ensures WakesBy(c, run, caller)
  {
    if c.probes[c.waits[caller].probe].Answered? {
      run := AnswerWakes(c, caller, now);
    } else {
      var answer := Event(now, ProbeEnds(c.waits[caller].probe, NetworkError));
      StepKeepsInv(c, answer);
      ProbeAnswers(c, caller, answer);
      var others := AnswerWakes(Next(c, answer), caller, now);
      run := [answer] + others;
      assert run[1..] == others;
    }
  }

  lemma SettledWakes(c: Client, caller: Id, now: Millis) returns (run: seq<Event>)
    requires Inv(c) && SettledFor(c, caller)
    ensures WakesBy(c, run, caller)
  {
    var wake := Event(now, Resumes(caller));
    StepKeepsInv(c, wake);
    WakeMeans(c, wake);
    run := [wake];
    if caller in Next(c, wake).waits {
      var others := ProbeWakes(Next(c, wake), caller, now);
      run := [wake] + others;
      assert run[1..] == others;
    }
  }

  /** In every reachable state each suspended caller can get away, whatever it awaits. */
  lemma CallerWakes(run: seq<Event>, caller: Id, now: Millis) returns (more: seq<Event>)
    requires EnabledRun(FRESH, run) && caller in After(FRESH, run).waits
    ensures EnabledRun(FRESH, run + more) && caller !in After(FRESH, run + more).waits
  {
    FreshIsOk();
    EveryRunKeepsInv(FRESH, run);
    var c := After(FRESH, run);
    if c.waits[caller].Probing? {
      more := ProbeWakes(c, caller, now);
    } else {
      assert caller in Awaiters(c);
      var first := RefreshSettles(c, c.waits[caller].refresh, now);
      var others := SettledWakes(After(c, first), caller, now);
      more := first + others;
      RunsOn(c, first, others);
    }
    RunsOn(FRESH, run, more);
  }
}
