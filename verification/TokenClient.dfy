/**
 The browser's token module as a step machine. A step is the code between two awaits; callers suspended at an await,
 refresh sequences in flight and browser timers are part of the state.
 */
module TokenClient {
  import opened Options

  type Identity = string
  type Id = nat
  type Millis = int

  const LEAD_SECONDS := 60
  const SKEW_SECONDS := 5
  const MAX_ATTEMPTS := 3   // the first and REFRESH_TRANSIENT_RETRIES more

  /** What the module reads off a bearer: its (sub, org_id), its exp, and whether it is the empty string. */
  datatype Token = Token(identity: Identity, exp: Option<int>, empty: bool)

  datatype Outcome = Ok(token: Token) | Terminal(status: int) | Transient

  datatype Phase = Fetching | Reading | BackingOff | Settled(result: Outcome)

  /** One refreshAccessToken(): where it stands, and the outcomes of its attempts so far. */
  datatype Sequence = Sequence(phase: Phase, attempts: seq<Outcome>)

  datatype Probe = Asking(bearer: bool) | Answered(alive: bool)

  /** What a suspended caller awaits. */
  datatype Wait = Proactive(refresh: Id) | Reactive(refresh: Id) | Probing(probe: Id)

  datatype Client = Client(
    accessToken: Option<Token>,
    exp: Option<int>,
    timer: Option<Id>,
    refreshPromise: Option<Id>,
    refreshAwaiters: int,
    mePromise: Option<Id>,
    pin: Option<Identity>,
    timers: map<Id, Millis>,       // set and neither fired nor cleared: when each is due
    sequences: map<Id, Sequence>,
    probes: map<Id, Probe>,
    waits: map<Id, Wait>,          // suspended callers
    nextId: Id,
    dropped: nat,                  // auth:unauthenticated events
    arrived: nat                   // times a token was stored where there was none
  )

  const FRESH := Client(None, None, None, None, 0, None, None, map[], map[], map[], map[], 0, 0, 0)

  // ---- the token and its timer ----

  function NowSeconds(now: Millis): int {
    now / 1000
  }

  /** scheduleProactiveRefresh(): clear the pending timer, then set one unless the lead window has begun. */
  function Schedule(c: Client, now: Millis): Client {
    var cleared := c.(timer := None, timers := if c.timer.Some? then c.timers - {c.timer.value} else c.timers);
    if c.exp.None? then cleared
    else
      var delay := (c.exp.value - LEAD_SECONDS - NowSeconds(now)) * 1000;
      if delay <= 0 then cleared
      else cleared.(timer := Some(c.nextId), timers := cleared.timers[c.nextId := now + delay], nextId := c.nextId + 1)
  }

  function Store(c: Client, token: Option<Token>, now: Millis): Client {
    Schedule(
      c.(accessToken := token,
         exp := if token.Some? && !token.value.empty then token.value.exp else None,
         arrived := if c.accessToken.None? && token.Some? then c.arrived + 1 else c.arrived), now)
  }

  /** setAccessToken(): refuses a token of another identity than the pinned one. */
  function SetAccessToken(c: Client, token: Option<Token>, now: Millis): (Client, bool) {
    if token.Some? && c.pin.Some? && c.pin.value != token.value.identity then (c, false)
    else (Store(if token.Some? then c.(pin := Some(token.value.identity)) else c, token, now), true)
  }

  function SignIn(c: Client, token: Option<Token>, now: Millis): Client {
    SetAccessToken(c.(pin := None), token, now).0
  }

  predicate HasBearer(c: Client) {
    c.accessToken.Some? && !c.accessToken.value.empty
  }

  predicate NearExpiry(c: Client, now: Millis) {
    c.exp.Some? && c.exp.value - NowSeconds(now) <= LEAD_SECONDS + SKEW_SECONDS
  }

  // ---- refresh sequences and their awaiters ----

  /** Join the shared refresh, starting it when there is none. */
  function Join(c: Client, caller: Id, reactive: bool): Client {
    var started := c.(refreshPromise := Some(c.nextId),
                      sequences := c.sequences[c.nextId := Sequence(Fetching, [])], nextId := c.nextId + 1);
    var c1 := if c.refreshPromise.None? then started else c;
    var shared := c1.refreshPromise.value;
    c1.(refreshAwaiters := c1.refreshAwaiters + 1,
        waits := c1.waits[caller := if reactive then Reactive(shared) else Proactive(shared)])
  }

  function EnsureFresh(c: Client, caller: Id, now: Millis): Client {
    if !HasBearer(c) || !NearExpiry(c, now) then c else Join(c, caller, false)
  }

  /** An attempt is over: the sequence settles, or backs off before the next. */
  function Advanced(s: Sequence, outcome: Outcome): Sequence {
    var attempts := s.attempts + [outcome];
    Sequence(if outcome.Transient? && |attempts| < MAX_ATTEMPTS then BackingOff else Settled(outcome), attempts)
  }

  function Settle(c: Client, refresh: Id, outcome: Outcome): Client
    requires refresh in c.sequences
  {
    c.(sequences := c.sequences[refresh := Advanced(c.sequences[refresh], outcome)])
  }

  datatype Response = NetworkError | Status(code: int)
  datatype Body = BadJson | NoToken | Bearer(token: Token)

  /** The fetch of an attempt resolves: a 2xx goes on to read its body. */
  function FetchEnded(c: Client, refresh: Id, response: Response): Client
    requires refresh in c.sequences
  {
    match response
    case NetworkError => Settle(c, refresh, Transient)
    case Status(code) =>
      if code == 401 || code == 403 then Settle(c, refresh, Terminal(code))
      else if !(200 <= code < 300) then Settle(c, refresh, Transient)
      else c.(sequences := c.sequences[refresh := c.sequences[refresh].(phase := Reading)])
  }

  /** What storing the refreshed bearer leads to: another identity drops the session. */
  function TakeBearer(c: Client, token: Token, now: Millis): (Client, Outcome) {
    var stored := SetAccessToken(c, Some(token), now);
    if stored.1 then (stored.0, Ok(token))
    else
      var gone := SetAccessToken(c, None, now).0;
      (gone.(dropped := if c.accessToken.Some? then gone.dropped + 1 else gone.dropped), Terminal(401))
  }

  function BodyRead(c: Client, refresh: Id, body: Body, now: Millis): Client
    requires refresh in c.sequences
  {
    match body
    case BadJson => Settle(c, refresh, Transient)
    case NoToken => Settle(c, refresh, Transient)
    case Bearer(token) =>
      if token.empty then Settle(c, refresh, Transient)
      else var taken := TakeBearer(c, token, now); Settle(taken.0, refresh, taken.1)
  }

  function BackoffEnded(c: Client, refresh: Id): Client
    requires refresh in c.sequences
  {
    c.(sequences := c.sequences[refresh := c.sequences[refresh].(phase := Fetching)])
  }

  function Leave(c: Client, caller: Id, refresh: Id): Client {
    var left := c.refreshAwaiters - 1;
    c.(refreshAwaiters := left, waits := c.waits - {caller},
       refreshPromise := if left == 0 && c.refreshPromise == Some(refresh) then None else c.refreshPromise)
  }

  function AwaitProbe(c: Client, caller: Id): Client {
    var started := c.(mePromise := Some(c.nextId),
                      probes := c.probes[c.nextId := Asking(HasBearer(c))], nextId := c.nextId + 1);
    var c1 := if c.mePromise.None? then started else c;
    c1.(waits := c1.waits[caller := Probing(c1.mePromise.value)])
  }

  /** A caller wakes from its refresh. Only the reactive path looks at the outcome, and probes /me after a terminal
      one. */
  function Resumed(c: Client, caller: Id, refresh: Id, reactive: bool, result: Outcome): Client {
    var c1 := Leave(c, caller, refresh);
    if reactive && result.Terminal? then AwaitProbe(c1, caller) else c1
  }

  /** probeAuthMeAlive(): without a bearer nothing is asked; only a 200 confirms the session. */
  function SessionAlive(bearer: bool, response: Response): bool {
    bearer && response == Status(200)
  }

  function ProbeEnded(c: Client, probe: Id, alive: bool): Client {
    c.(probes := c.probes[probe := Answered(alive)], mePromise := None)
  }

  /** A caller wakes from the probe: a dead session drops the token, and the first to drop it tells the app. */
  function Concluded(c: Client, caller: Id, alive: bool, now: Millis): Client {
    var c1 := c.(waits := c.waits - {caller});
    if alive || c1.accessToken.None? then c1
    else var gone := SetAccessToken(c1, None, now).0; gone.(dropped := gone.dropped + 1)
  }

  // ---- steps ----

  datatype Step =
    | SigningIn(token: Option<Token>)
    | Setting(token: Option<Token>)
    | TimerFires(timer: Id, caller: Id)
    | Refreshing(caller: Id)                    // focus, visibility or preflight
    | Unauthorized(caller: Id)                  // a 401, or a 403 to a request without bearer
    | FetchEnds(refresh: Id, response: Response)
    | BodyEnds(refresh: Id, body: Body)
    | BackoffEnds(refresh: Id)
    | Resumes(caller: Id)
    | ProbeEnds(probe: Id, response: Response)
    | Concludes(caller: Id)

  datatype Event = Event(now: Millis, step: Step)

  predicate InPhase(c: Client, refresh: Id, phase: Phase) {
    refresh in c.sequences && c.sequences[refresh].phase == phase
  }

  predicate SettledFor(c: Client, caller: Id) {
    caller in c.waits && !c.waits[caller].Probing?
    && c.waits[caller].refresh in c.sequences && c.sequences[c.waits[caller].refresh].phase.Settled?
  }

  /** A step can happen: new callers are new, a timer fires when due, and only what is awaited resolves. */
  predicate Enabled(c: Client, e: Event) {
    match e.step
    case SigningIn(_) => true
    case Setting(_) => true
    case TimerFires(timer, caller) => timer in c.timers && c.timers[timer] <= e.now && caller !in c.waits
    case Refreshing(caller) => caller !in c.waits
    case Unauthorized(caller) => caller !in c.waits
    case FetchEnds(refresh, _) => InPhase(c, refresh, Fetching)
    case BodyEnds(refresh, _) => InPhase(c, refresh, Reading)
    case BackoffEnds(refresh) => InPhase(c, refresh, BackingOff)
    case Resumes(caller) => SettledFor(c, caller)
    case ProbeEnds(probe, _) => probe in c.probes && c.probes[probe].Asking?
    case Concludes(caller) =>
      && caller in c.waits && c.waits[caller].Probing?
      && c.waits[caller].probe in c.probes && c.probes[c.waits[caller].probe].Answered?
  }

  function Next(c: Client, e: Event): Client
    requires Enabled(c, e)
  {
    match e.step
    case SigningIn(token) => SignIn(c, token, e.now)
    case Setting(token) => SetAccessToken(c, token, e.now).0
    case TimerFires(timer, caller) => EnsureFresh(c.(timer := None, timers := c.timers - {timer}), caller, e.now)
    case Refreshing(caller) => EnsureFresh(c, caller, e.now)
    case Unauthorized(caller) => Join(c, caller, true)
    case FetchEnds(refresh, response) => FetchEnded(c, refresh, response)
    case BodyEnds(refresh, body) => BodyRead(c, refresh, body, e.now)
    case BackoffEnds(refresh) => BackoffEnded(c, refresh)
    case Resumes(caller) =>
      var refresh := c.waits[caller].refresh;
      Resumed(c, caller, refresh, c.waits[caller].Reactive?, c.sequences[refresh].phase.result)
    case ProbeEnds(probe, response) => ProbeEnded(c, probe, SessionAlive(c.probes[probe].bearer, response))
    case Concludes(caller) => Concluded(c, caller, c.probes[c.waits[caller].probe].alive, e.now)
  }

  predicate EnabledRun(c: Client, run: seq<Event>)
    decreases |run|
  {
    run == [] || (Enabled(c, run[0]) && EnabledRun(Next(c, run[0]), run[1..]))
  }

  function After(c: Client, run: seq<Event>): Client
    requires EnabledRun(c, run)
    decreases |run|
  {
    if run == [] then c else After(Next(c, run[0]), run[1..])
  }

  // ---- single flight ----

  function Awaiters(c: Client): set<Id> {
    set caller | caller in c.waits && !c.waits[caller].Probing?
  }

  /** The shared promise exists exactly while somebody has yet to consume it, all of them hold that one, and no other
      sequence is running. */
  ghost predicate SingleFlight(c: Client) {
    && c.refreshAwaiters == |Awaiters(c)|
    && (c.refreshPromise.Some? <==> Awaiters(c) != {})
    && (forall caller | caller in Awaiters(c) :: c.refreshPromise == Some(c.waits[caller].refresh))
    && (c.refreshPromise.Some? ==> c.refreshPromise.value in c.sequences)
    && (forall id | id in c.sequences && !c.sequences[id].phase.Settled? :: c.refreshPromise == Some(id))
    && (forall id | id in c.sequences :: id < c.nextId)
  }

  /** Every attempt but the last was transient; at most three; only a run of three transient ones settles as
      transient. */
  predicate SequenceOk(s: Sequence) {
    && |s.attempts| <= MAX_ATTEMPTS
    && (forall i | 0 <= i < |s.attempts| - 1 :: s.attempts[i].Transient?)
    && if s.phase.Settled?
       then
         && s.attempts != [] && s.phase.result == s.attempts[|s.attempts| - 1]
         && (s.phase.result.Transient? ==> |s.attempts| == MAX_ATTEMPTS)
       else |s.attempts| < MAX_ATTEMPTS && (s.attempts != [] ==> s.attempts[|s.attempts| - 1].Transient?)
  }

  ghost predicate SequencesOk(c: Client) {
    forall id | id in c.sequences :: SequenceOk(c.sequences[id])
  }

  // ---- token, pin, timer, events ----

  ghost predicate TokenOk(c: Client) {
    && (c.accessToken.Some? ==> c.pin == Some(c.accessToken.value.identity))
    && c.exp == (if HasBearer(c) then c.accessToken.value.exp else None)
    && c.dropped + (if c.accessToken.Some? then 1 else 0) <= c.arrived
  }

  /** At most the one timer the module knows is pending, only with a bearer that expires, and not due before the lead
      window begins. */
  ghost predicate TimerOk(c: Client) {
    && c.timers.Keys == (if c.timer.Some? then {c.timer.value} else {})
    && (c.timer.Some? ==> c.exp.Some? && c.timers[c.timer.value] >= (c.exp.value - LEAD_SECONDS) * 1000)
  }

  /** At most one /me probe is in flight, and it is the shared one; who awaits a probe awaits one that was started. */
  ghost predicate ProbeOk(c: Client) {
    && (forall id | id in c.probes :: id < c.nextId && (c.probes[id].Asking? <==> c.mePromise == Some(id)))
    && (c.mePromise.Some? ==> c.mePromise.value in c.probes)
    && (forall caller | caller in c.waits && c.waits[caller].Probing? :: c.waits[caller].probe in c.probes)
  }

  ghost predicate Inv(c: Client) {
    SingleFlight(c) && SequencesOk(c) && TokenOk(c) && TimerOk(c) && ProbeOk(c)
  }
}
