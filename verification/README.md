# Session, limiter, token and calendar models

A Dafny model of the stateful core of the repository, with proofs of what it keeps:

- **Refresh-session families** (`backend/app/state_db.py`): sign-in, rotation with replay detection (the pattern of
  section 4.14.2 of RFC 9700) and a grace of 30 seconds, revocation, eviction, purging. `SessionFamilies` holds one
  function per transaction, `SessionTables` the same transactions statement by statement on mutable tables, each proved
  equal to its function. `SessionHistory`, `SessionSafety`, `SessionAnswers`, `SessionEviction` and `SessionPurge` state
  what holds over every run of transactions, and `SessionWitnesses` builds the runs that reach the odd cases.
  `SessionRaces` breaks the four transactions that contend for a family into lock, read, write, commit and rollback
  steps, `SessionSerial` shows that every schedule of those steps is serial, `SessionOutcomes` what follows for the
  callers, `SessionRacedStates` that schedules keep the invariant of the atomic runs, whose results go on from there,
  `SessionRacedAnswers` what each racing refresh is answered, and `SessionProgress` that schedules get things done.
- **Single-use claims and leases** (same file): `UsedTokens`, `Leases`.
- **Fixed-window counters** (`backend/app/rate_limit_db.py`): `RateLimit`.
- **The browser's token module** (`frontend/lib/api.ts`): `TokenClient` is a step machine whose steps are the code
  between two awaits, `TokenSafety` what every interleaving keeps, `TokenAnswers` what each response, timer and probe
  leads to, `TokenModule` the module's variables and functions as a class, proved equal to the steps.
- **The posture normal form** (`scripts/ci/normalize_protection.py`): `Posture`, `PostureStable` (what a second pass
  does) and `PostureKept` (what survives), over JSON text (`Json`, `Decimal`, `StringOrder`, `KeySort`).
- **Calendar code** (`backend/seed.py`, `frontend/lib/billingPeriodStatus.ts`, `frontend/lib/format.ts`): `Calendar`,
  `IsoDate`, `Seed`, `BillingPeriod`, `Recurrence`.
- **The session cutoff** (`backend/app/security.py` and the places that write and compare it): `SessionCutoff`.

Where the code and its own words differ, the model follows the code and says exactly when they agree:

- Grace is not absolute: a jti rotated out less than 30 seconds ago but already pruned (1000 or more rotations later)
  is classed as reuse (`SessionSafety.ClassificationIsExact`; `SessionWitnesses.PrunedInsideItsGrace` is such a run).
- Eviction is by batches of 20 from rank 49 on, so above 69 other families it need not take the oldest
  (`SessionEviction.OldestEvictedExactlyWhen`; `SessionWitnesses.OldestCanStay` is a run that gets there, by sign-ins
  that find rows locked).
- A user is said to have at most 50 rows (`state_db.py:302`); a sign-in takes a user past 50 exactly when it finds
  50 and one of them locked (`SessionEviction.CapKeptExactlyWhen`; `SessionWitnesses.FiftyOneAreLeft` is such a run).
- Normalizing twice is normalizing once exactly when every grantee object left by the first two passes names itself
  (`PostureStable.StableExactlyWhenNamed`; `PostureStable.UnnamedGranteeMoves` is a document that moves).
- The selection's tie-break does not make it independent of the payload's order when a tied row has no id, or two tied
  rows share the greatest one (`BillingPeriod.OrderIndependentExactlyWhenDecided`;
  `BillingPeriod.TieWithoutIdsDepends` is such a pair).
- The client's month step is the documented one exactly when it lands in year 1000 or later
  (`Recurrence.MatchesExactlyFromYear1000`; `Recurrence.YearFiftyIsMisread`), and repeating it is not one longer step
  (`Recurrence.AgainstOneJump`; `Recurrence.LateDaysDrift`).
- `plan_billing_periods` is described for every anchor; it fails for those in the first quarter of year 1
  (`Seed.FailsExactlyInFirstQuarterOfYearOne`; `Seed.FirstDayCannotBePlanned`).
- The waits of `security.py` suffice exactly while the cutoff is at most two seconds ahead of the minting clock
  (`SessionCutoff.MintAfterWaitExactly`; `SessionCutoff.ThreeSecondsAreTooFar`).

`dafny verify dfyconfig.toml` checks the whole project.

## Model

| member | source | states |
|---|---|---|
| SessionTables.Tables.LockFamily | backend/app/state_db.py:144-149 | the row of a family and whether it is unexpired, or none |
| SessionTables.Tables.MemberNumber | backend/app/state_db.py:152-155 | the number of a jti in its own family, or none when it belongs elsewhere |
| SessionTables.Tables.DropFamilies | backend/app/state_db.py:158-160 | the families and all their members go, nothing else |
| SessionTables.Tables.DeleteFamily | backend/app/state_db.py:284-288 | one family goes with its members, whose jtis come back sorted |
| SessionTables.Tables.Issue | backend/app/state_db.py:178-198 | statement after statement the tables and the answer are those of the atomic sign-in with eviction; a duplicate key changes nothing |
| SessionTables.Tables.Rotate | backend/app/state_db.py:244-281 | statement after statement the tables and the answer are those of the atomic rotation; any other answer than ok leaves the tables as they were |
| SessionTables.Tables.RevokeFamily | backend/app/state_db.py:291-296 | equals the atomic revocation, an expired family being left for the purge |
| SessionTables.Tables.RevokeUser | backend/app/state_db.py:299-312 | equals the atomic revocation of a user's families but the kept ones, and counts them |
| SessionTables.Tables.DetectReuseAndRevoke | backend/app/state_db.py:315-343 | equals the atomic classification; only "reused" changes the tables |
| SessionTables.Tables.PurgeFamilies | backend/app/state_db.py:163-175 | removes what the query picked and no family that is live |
| SessionHistory.StepKeepsInv | backend/app/state_db.py:158-343 | every transaction keeps the global invariant: chains of issued jtis ordered in time, no jti shared, each family's stored members a window on its chain with the head on top |
| SessionHistory.IssueKeepsInv | backend/app/state_db.py:178-198 | sign-in and its eviction keep the invariant |
| SessionHistory.RotateKeepsInv | backend/app/state_db.py:244-281 | rotation with its pruning keeps the invariant |
| SessionHistory.RotatedMeans | backend/app/state_db.py:253-278 | ok is answered only for the live head of the caller's own family and a fresh new jti |
| SessionHistory.SuccessorNumberIsFree | backend/app/state_db.py:266-270 | a clash on (sid, seq) cannot happen in a reachable state, so the "broken family" branch is dead |
| SessionHistory.OtherStepsOnlyDrop | backend/app/state_db.py:284-343 | every step that neither signs in nor rotates only removes whole families |
| SessionHistory.RunKeepsInv | backend/app/state_db.py:158-343 | the invariant holds after every run |
| SessionHistory.ReachableShape | backend/app/state_db.py:244-281 | in every reachable state a family stores exactly the numbers max(0, rotations-999)..rotations, once each, created in order, head on top, and no member lacks a family |
| SessionSafety.GracedMeans | backend/app/state_db.py:128-141 | the grace query in terms of everything ever issued: consumed, not pruned, and the successor created under 30 s ago |
| SessionSafety.ClassificationIsExact | backend/app/state_db.py:201-220 | for every jti ever issued to a live family detection answers live, grace or reused exactly as its place in the full history says, with the count of all jtis issued; validate and grace agree with it, and the successor grace hands out is valid |
| SessionSafety.ForeignJti | backend/app/state_db.py:322-334 | a jti never issued to the family is unknown below 1000 rotations and indistinguishable from a pruned one from there on |
| SessionSafety.BelowThousandMembersAreAllIssued | backend/app/state_db.py:322-324 | below 1000 rotations being a member and having been issued are the same |
| SessionSafety.RotationIsExact | backend/app/state_db.py:253-278 | for every jti ever issued to a sid a rotation answers ok or a collision on the last one, already rotated when fewer than 1000 were issued after it, and revoked from there on; and revoked when the session is dead or another user's |
| SessionSafety.StrangerIsRevoked | backend/app/state_db.py:255-257 | a jti never issued to the sid it comes with is answered revoked, and nothing changes |
| SessionSafety.EndsMeansEnded | backend/app/state_db.py:158-160 | revoking, revoking by user, eviction, reported reuse and expiry each end the session at once |
| SessionSafety.EndIsFinal | backend/app/state_db.py:201-281 | once ended, whatever runs next, no jti of that sid validates, is graced, rotates (under any sid) or is classed as anything but unknown |
| SessionSafety.AtMostOneRotation | backend/app/state_db.py:258-278 | over a whole run at most one rotation out of a given jti answers ok |
| SessionSafety.AtMostOneReuse | backend/app/state_db.py:315-343 | over a whole run a family is reported reused, and so audited, at most once |
| SessionAnswers.RotationHandsOver | backend/app/state_db.py:271-278 | after a rotation the new jti is valid until the new expiry, the old one is never valid and for 30 s is answered with the new one, and every other session answers as before |
| SessionAnswers.GraceDoesNotSlide | backend/app/state_db.py:128-141 | a rotation extends no older jti's grace and shortens it only by pruning the jti, exactly below the window |
| SessionAnswers.IssueOpensOne | backend/app/state_db.py:178-197 | a new session is valid until its expiry and has no grace; only the evicted sessions change their answers |
| SessionAnswers.RevokeListsTheLastThousand | backend/app/state_db.py:284-296 | a revocation lists in order exactly the last thousand jtis issued to the family and touches no other session |
| SessionAnswers.RevokeUserIsExact | backend/app/state_db.py:299-312 | exactly the user's families not kept stop existing; the count is how many rows went |
| SessionAnswers.ExistsExactly | backend/app/state_db.py:223-238 | after any run a session exists exactly until the expiry its last sign-in or rotation set, unless something ended it since, and its members are then exactly the last thousand jtis issued to it |
| SessionEviction.IssueCountsExactly | backend/app/state_db.py:178-198 | whatever the query finds locked, a sign-in leaves the families there were, one more, less the evicted share of those it ranked; it ranks them all exactly when none is locked |
| SessionEviction.CapKeptExactlyWhen | backend/app/state_db.py:186-197 | from at most 50 families a sign-in leaves at most 50 exactly when there were fewer or none is locked |
| SessionEviction.IssueBoundsFamilies | backend/app/state_db.py:186-197 | a sign-in that finds none locked keeps the family it made and leaves n+1 families below the cap, max(50, n-19) from it on; other users lose none |
| SessionEviction.OldestEvictedExactlyWhen | backend/app/state_db.py:191-194 | the evicted expire no later than the kept exactly when at most 69 others exist or all from rank 49 on expire together |
| SessionEviction.BacklogShrinks | backend/app/state_db.py:120-122 | in any legal run, whatever else it does, m sign-ins of a user that find none of their families locked bring a backlog of n to at most max(50, n-19m) |
| SessionEviction.CapHolds | backend/app/state_db.py:120-122 | over every legal run the larger of 50 and the families there were is exceeded by at most one for each of the user's sign-ins that finds one locked, so by none when none does |
| SessionEviction.SignInsAloneShrinkExactly | backend/app/state_db.py:186-197 | when nothing but such sign-ins happens, exactly max(50, n-19m) are left |
| SessionWitnesses.OldestCanStay | backend/app/state_db.py:188-194 | for every n above 69 a run of sign-ins that find rows locked leaves n families, of which the next unlocked sign-in evicts some and keeps one that expires sooner |
| SessionWitnesses.FiftyOneAreLeft | backend/app/state_db.py:186-197 | fifty sign-ins that find nothing locked and one that ranks all of them but one leave 51 families |
| SessionWitnesses.PrunedInsideItsGrace | backend/app/state_db.py:277-334 | a run of 1000 or more rotations at one instant after which a jti just rotated out is classed as reuse |
| SessionPurge.PurgeKeepsView | backend/app/state_db.py:163-173 | a purge removes no row an answer may depend on |
| SessionPurge.StepStaysAlike | backend/app/state_db.py:178-343 | two stores with the same live rows answer every request alike (of a user's families only the live ones being counted) and stay alike |
| SessionPurge.PurgeIsInvisible | backend/app/state_db.py:163-175 | a run with purges and the same run without them give identical answers to every other request, and find the same number of live families to revoke |
| SessionPurge.CountIsLiveAndExpired | backend/app/state_db.py:299-312 | the count revoke_user answers is that number plus the expired rows no purge has taken yet |
| SessionPurge.RanksAreDetermined | backend/app/state_db.py:186-195 | without ties and locks the ranking of the live families is the same with and without the purged rows |
| SessionRaces.CommitEffect | backend/app/state_db.py:244-343 | committing the row writes of a transaction at once is the atomic transaction |
| SessionSerial.RotateIsLocal | backend/app/state_db.py:253-271 | a rotation's answer and writes depend only on the family it locked and on its new jti not arriving elsewhere |
| SessionSerial.DetectIsLocal | backend/app/state_db.py:315-331 | the same for reuse detection |
| SessionSerial.RevokeIsLocal | backend/app/state_db.py:291-296 | the same for revocation |
| SessionSerial.RevokeUserIsLocal | backend/app/state_db.py:299-311 | the same for the families of a user, all locked |
| SessionSerial.ApplyTouchesTargets | backend/app/state_db.py:158-160 | a transaction changes no family but those it locks, and adds no member row but its own |
| SessionSerial.AdvanceKeepsOk | backend/app/state_db.py:244-343 | every single step (lock, read, insert, update, prune, delete, commit, rollback, failure) keeps the invariant that each thread's reads and writes are those of its atomic form |
| SessionSerial.EveryScheduleIsSerial | backend/app/state_db.py:244-343 | for any number of concurrent rotations (to a jti taken by any family too), revokes, user revokes and detections and any schedule, the tables and answers are those of running the committed ones one after the other; a rolled-back or failed one leaves no trace |
| SessionOutcomes.OneRefreshWins | backend/app/state_db.py:389-391 | of all the refreshes of one token in a schedule, under whatever sids, at most one answers ok, a token that a rotation of the same schedule mints included |
| SessionOutcomes.RevokedStaysRevoked | backend/app/state_db.py:400-404 | when a revocation has answered, no rotation racing with it leaves the family alive |
| SessionOutcomes.OneDetectionReports | backend/app/state_db.py:408-412 | of concurrent detections on a family at most one reports reuse |
| SessionOutcomes.TakenJtiNeverRotates | backend/app/state_db.py:260-270 | in no schedule does a rotation to a jti held by a family no request touches answer ok |
| SessionRacedStates.MintIsNew | backend/app/state_db.py:260-271 | a racing rotation about to commit mints a jti that nobody was ever issued, in the schedule or before |
| SessionRacedStates.AdvanceRaced | backend/app/state_db.py:244-343 | every step of every thread keeps the invariant of the atomic runs, with each committed rotation appended to its chain, although the instants the transactions read are not in commit order |
| SessionRacedStates.RacesKeepInv | backend/app/state_db.py:244-343 | from any state with that invariant every schedule of racing requests is at every point in such a state, no chain cut short |
| SessionRacedStates.RefreshesMayRace | backend/app/state_db.py:244-281 | two refreshes of one token and a refresh of what the first mints are such requests in every state with the invariant, given three new jtis |
| SessionRacedStates.ClassifiedExactlyAfterRaces | backend/app/state_db.py:315-343 | detection classifies every jti exactly by its place in the full history in every state that races reach |
| SessionRacedStates.ConsumedBeforeRaces | backend/app/state_db.py:258-278 | a token consumed before the races is rotated in none of them |
| SessionRacedStates.RotatedInRaceIsSpent | backend/app/state_db.py:258-278 | a token rotated in a race is rotated by no later run |
| SessionRacedStates.RevokedInRaceStaysEnded | backend/app/state_db.py:284-343 | a session that a racing request removed stays ended through every later run |
| SessionRacedAnswers.RacedRotationIsExact | backend/app/state_db.py:253-278 | a racing rotation is answered exactly what its jti's place among those issued to the family by then says |
| SessionRacedAnswers.LoserIsTold | backend/app/state_db.py:255-270 | of two answered refreshes of one token, one of them ok, the other is told at its place in the serial order: revoked when it finds the session dead or the token not stored, else already rotated when it comes later, a collision when it came earlier |
| SessionProgress.AnswersLikeAtomic | backend/app/state_db.py:244-343 | at any point of any schedule a transaction that has not ended and finds its families unlocked by others gets, by turns of its own, to the answer and the tables of its atomic form |
| SessionProgress.EveryOrderHappens | backend/app/state_db.py:244-343 | every serial order of the requests, at any instants, is the history of some schedule without failures, each being answered as in that order |
| SessionProgress.RaceIsRun | backend/app/state_db.py:258-278 | in every state with a live head some schedule answers one refresh of it ok, another already rotated, and a refresh of what the first minted ok |
| SessionProgress.EveryoneCanEnd | backend/app/state_db.py:144-149 | from any point of any schedule everybody can be answered, but for user-wide revocations, which lock several rows and may wait for each other |
| SessionProgress.FailureLeavesNoTrace | backend/app/state_db.py:244-343 | a transaction that fails changes no table and no history and frees its rows |
| UsedTokens.Store.Claim | backend/app/state_db.py:438-451 | delete-then-insert with rollback equals the atomic claim; a refused one changes nothing |
| UsedTokens.Store.Purge | backend/app/state_db.py:423-433 | the row-by-row purge removes exactly what the query picked |
| UsedTokens.ClaimIsExact | backend/app/state_db.py:454-457 | in any run with purges a claim answers True exactly when no earlier True claim of the token is still inside its ttl |
| UsedTokens.ReplayWindow | backend/app/state_db.py:438-451 | after a True claim every claim inside the ttl is refused and the first one past it granted |
| Leases.Store.AcquireLease | backend/app/state_db.py:479-496 | with nothing in between, the two transactions take an expired lease, else insert a free one, else change nothing |
| Leases.Store.UpdateExpired | backend/app/state_db.py:481-486 | takes over exactly an expired row and counts it |
| Leases.Store.ReleaseLease | backend/app/state_db.py:499-501 | removes the row only of its own holder |
| Leases.StepKeepsInv | backend/app/state_db.py:479-501 | each of the two transactions, a release and the clock keep: an unexpired, unreleased grant owns its row |
| Leases.MutualExclusion | backend/app/state_db.py:504-507 | in any interleaving no name has two unreleased holders inside their ttl |
| Leases.ReleaseKeepsOthers | backend/app/state_db.py:499-501 | a release by a former holder never removes a lease re-taken by another |
| Leases.GrantedOnlyWhenFree | backend/app/state_db.py:481-496 | a lease is granted only when no other unreleased holder of the name is inside its ttl |
| Leases.RefusedOnlyWhenHeld | backend/app/state_db.py:489-495 | the insert is refused exactly when an unreleased grant still has its row |
| Leases.AcquireIsExact | backend/app/state_db.py:479-496 | in every reachable state an acquire gets the lease, for its ttl, exactly when no unreleased grant of the name is inside its ttl, and else changes nothing |
| Leases.CrashedLeaseIsFreeAfterItsTtl | backend/app/state_db.py:504-507 | a lease that its holder never releases can be had exactly from the end of its ttl on |
| RateLimit.AssignmentOrderMatters | backend/app/rate_limit_db.py:63-75 | hits-first left-to-right assignment equals the simultaneous one on every row; the other order exactly when it does not renew a window with hits |
| RateLimit.Store.UpsertMySql | backend/app/rate_limit_db.py:68-72 | the ordered assignments in place equal the simultaneous upsert |
| RateLimit.Store.Hit | backend/app/rate_limit_db.py:78-92 | upsert, read, purge: the count is the upserted one, and its row survives the purge unless the window is over a minute negative |
| RateLimit.Store.Get | backend/app/rate_limit_db.py:95-100 | the hits of an unexpired row, else 0 |
| RateLimit.HitCountsTheWindow | backend/app/rate_limit_db.py:63-83 | the count and expiry are those of the current window of the full history |
| RateLimit.TableRefinesHistory | backend/app/rate_limit_db.py:78-100 | in every run hit and get answer like the model that keeps every hit and never purges |
| RateLimit.PurgeIsUnseen | backend/app/rate_limit_db.py:23-26 | a purge changes no count for a caller up to a minute behind it, and never takes the row just hit |
| RateLimit.WindowsApart | backend/app/rate_limit_db.py:64-66 | a later window opens a full length after the earlier one opened |
| RateLimit.NoThirdWindow | backend/app/rate_limit_db.py:64-66 | an interval as long as the window, ends included, meets at most two windows |
| RateLimit.AtMostTwiceTheLimit | backend/app/rate_limit_db.py:78-92 | in any interval as long as the window at most 2L hits of a key return L or less, whatever other keys, reads and purges interleave |
| RateLimit.TwiceTheLimitHappens | backend/app/rate_limit_db.py:78-92 | for every limit and window length there is a run in which all of 2L hits within one window's length are admitted |
| TokenModule.Module.ScheduleProactiveRefresh | frontend/lib/api.ts:279-303 | clears the pending timer and sets one unless the lead window has begun, as the step does |
| TokenModule.Module.SetToken | frontend/lib/api.ts:165-175 | the guarded store, refusing another identity than the pinned one, as the step does |
| TokenModule.Module.SignInWithAccessToken | frontend/lib/api.ts:182-185 | re-arms the pin, then stores |
| TokenModule.Module.JoinRefresh | frontend/lib/api.ts:629-633 | joins the shared refresh, starting it when there is none |
| TokenModule.Module.EnsureFreshAccessToken | frontend/lib/api.ts:330-336 | joins only with a bearer near its expiry |
| TokenModule.Module.AcceptBearer | frontend/lib/api.ts:480-495 | stores the refreshed bearer, or drops the session of another identity and tells the app once |
| TokenModule.Module.LeaveRefresh | frontend/lib/api.ts:637-642 | counts out, and clears the promise behind the last awaiter |
| TokenModule.Module.JoinProbe | frontend/lib/api.ts:689-695 | joins the shared probe, starting it when there is none |
| TokenModule.Module.WakeFromRefresh | frontend/lib/api.ts:635-695 | an awaiter counts out, and only a reactive one with a terminal outcome goes on to the probe |
| TokenModule.Module.WakeFromProbe | frontend/lib/api.ts:696-712 | a dead session drops the token, and only the first to drop it tells the app |
| TokenModule.RefreshAccessToken | frontend/lib/api.ts:502-512 | the retry loop settles on the first answer that is not transient, or the third |
| TokenModule.AttemptedListsThem | frontend/lib/api.ts:502-512 | the step machine's sequence records exactly the answers the loop consumed |
| TokenSafety.StepKeepsInv | frontend/lib/api.ts:165-712 | every step from any caller keeps single flight, bounded retries, the pin, the timer, the shared probe and the event bound |
| TokenSafety.EveryRunKeepsInv | frontend/lib/api.ts:165-712 | so does every interleaving |
| TokenSafety.OneRefreshInFlight | frontend/lib/api.ts:623-642 | at most one refresh is in flight over timer, focus, preflight and 401 paths; the promise is set exactly while somebody has yet to consume it, and all of them hold that one |
| TokenSafety.RetriesAreBounded | frontend/lib/api.ts:498-512 | a settled refresh made one to three attempts, all but the last transient, and answers transient only after three |
| TokenSafety.PinAfterStore | frontend/lib/api.ts:158-164 | a store never moves a set pin, refuses exactly another identity and then changes nothing |
| TokenSafety.OnlySignInMovesThePin | frontend/lib/api.ts:177-185 | only a deliberate sign-in changes a pin once set |
| TokenSafety.OkIsThePinnedIdentity | frontend/lib/api.ts:483-495 | a refresh that answers ok stored its bearer, and it is the pinned identity's |
| TokenSafety.TransientChangesNothing | frontend/lib/api.ts:313-321 | a transient attempt changes neither token, expiry, pin, timer nor events |
| TokenSafety.EveryDropIsTold | frontend/lib/api.ts:323-328 | outside sign-in and reset the token goes away only on another identity's bearer or a dead session, and each tells the app exactly once |
| TokenSafety.ProactiveWakeIsHarmless | frontend/lib/api.ts:313-321 | a proactive caller wakes without touching the session or starting a probe |
| TokenSafety.TimerAlwaysRefreshes | frontend/lib/api.ts:295-302 | a timer that fires finds its token near expiry, so its caller always joins a refresh |
| TokenSafety.TimersAndEventsAreBounded | frontend/lib/api.ts:279-303 | at most one pending timer, none without a token; a stored token has the pinned identity; sign-out events never outnumber tokens that arrived |
| TokenAnswers.FetchMeans | frontend/lib/api.ts:438-460 | 401 and 403 are terminal and nothing else is; a network error and every other status outside 200 to 299 is transient; a success is decided by its body |
| TokenAnswers.BodyMeans | frontend/lib/api.ts:460-495 | a nonempty bearer that fits the pin is ok, one of another identity terminal, anything else transient |
| TokenAnswers.ReportLeadsOn | frontend/lib/api.ts:502-511 | a transient attempt before the third backs off, every other outcome settles the refresh |
| TokenAnswers.OutageSignsNobodyOut | frontend/lib/api.ts:447-458 | in any run without a 401, a 403 or a bearer of another identity no probe is asked, no sign-out event is sent, and only sign-in and reset take the token away |
| TokenAnswers.WakeMeans | frontend/lib/api.ts:681-696 | a reactive caller of a terminal refresh always awaits the one shared probe, and no other caller does |
| TokenAnswers.ProbeMeans | frontend/lib/api.ts:521-540 | the session is found alive exactly when the probe carried a bearer and was answered 200 |
| TokenAnswers.ProbeDecides | frontend/lib/api.ts:696-714 | a dead session leaves no token and is told to the app exactly when there was one; a live one is left alone |
| TokenAnswers.StoresExactlyWhenItFits | frontend/lib/api.ts:165-185 | a sign-in always takes effect and re-pins, a store exactly when it fits the pin |
| TokenAnswers.UnauthorizedJoins | frontend/lib/api.ts:623-634 | a 401 always joins the shared refresh, starting one when there is none |
| TokenAnswers.RefreshesExactlyWhenNear | frontend/lib/api.ts:245-252 | focus and preflight join one exactly from 65 seconds before the expiry on, and otherwise change nothing |
| TokenAnswers.StoredTokenIsTimed | frontend/lib/api.ts:279-303 | after a token is stored exactly one timer is pending, due in the second in which its lead window begins, or none when the window has begun or the token does not expire |
| TokenAnswers.CallerWakes | frontend/lib/api.ts:330-345 | in every reachable state each suspended caller can get away, even if no server answers again |
| Json.DumpsIsInjective | scripts/ci/normalize_protection.py:135-143 | the sort key determines the value: two JSON values with one canonical text are equal |
| KeySort.SortByWorks | scripts/ci/normalize_protection.py:142-143 | sorting by key permutes and orders |
| KeySort.SortByIsCanonical | scripts/ci/normalize_protection.py:142-143 | under an injective key two lists sort alike exactly when they are permutations |
| StringOrder.Sorted | backend/app/state_db.py:285 | strictly ascending, exactly the elements, each once |
| StringOrder.AscendingIsCanonical | backend/app/state_db.py:285 | a set has one ascending listing |
| Posture.BuildIdentity | scripts/ci/normalize_protection.py:77-106 | the dict filled in the loop is the grantee's id with its first name, or its own text when it has none |
| Posture.BuildReduced | scripts/ci/normalize_protection.py:109-123 | the dict filled key by key is the member reduction |
| Posture.BuildIdentities | scripts/ci/normalize_protection.py:115-117 | a member list is reduced in place, order kept |
| Posture.BuildReducedList | scripts/ci/normalize_protection.py:121-122 | other lists are reduced item by item |
| Posture.SortedAlikeMeansSame | scripts/ci/normalize_protection.py:126-144 | two values with the same sorted form are equal up to the order of lists at any depth |
| Posture.SameMeansSortedAlike | scripts/ci/normalize_protection.py:126-144 | and the other way round |
| Posture.NormalizeIsComplete | scripts/ci/normalize_protection.py:147-148 | two documents normalize alike exactly when, after the first three passes, one is the other with lists permuted at any depth |
| PostureStable.StrippedAndCollapsedIsPlain | scripts/ci/normalize_protection.py:51-74 | the first two passes leave no self-link and no envelope at any depth |
| PostureStable.UnnamedGrows | scripts/ci/normalize_protection.py:102-106 | an unnamed grantee reduces to something longer, so it never settles |
| PostureStable.SortTwice | scripts/ci/normalize_protection.py:126-144 | sorting lists twice is sorting once |
| PostureStable.StableExactlyWhenNamed | scripts/ci/normalize_protection.py:147-148 | normalizing a normalized document changes nothing exactly when, after the first two passes, every object in a users, teams or apps list carries a string login, slug or name |
| PostureStable.UnnamedGranteeMoves | scripts/ci/normalize_protection.py:102-106 | one empty grantee object is enough for the second pass to change the document |
| PostureKept.StripKeepsScalars | scripts/ci/normalize_protection.py:51-62 | a scalar stands at a place of the stripped document exactly when it stands there in the document and no self-link key is on the way |
| PostureKept.VerdictIsKept | scripts/ci/normalize_protection.py:65-74 | exactly the booleans, bare or in envelopes that hold nothing else but self-links, come out as booleans, and with their own value |
| PostureKept.PreparedAt | scripts/ci/normalize_protection.py:147-148 | outside lists of grantees the first three passes leave each value that is no self-link in its place, and add nothing |
| PostureKept.IdentityKeeps | scripts/ci/normalize_protection.py:92-106 | a reduced grantee holds its id, its name or its text, and nothing else |
| PostureKept.GranteesAlikeExactlyWhen | scripts/ci/normalize_protection.py:80-91 | two grantees reduce alike exactly when they have the same id and the same name under the same key, or no name and are equal |
| PostureKept.NothingElseIsLost | scripts/ci/normalize_protection.py:7-14 | along every key path the normalized document holds what a reader finds in the raw one: every key that is no self-link, every scalar and every list length, as often as it is there |
| PostureKept.DriftIsSeen | scripts/ci/normalize_protection.py:7-14 | documents that read differently along some key path never normalize alike |
| PostureKept.ToggleIsKept | scripts/ci/normalize_protection.py:23-26 | a toggle sent with a self-link beside it reads as its own boolean |
| PostureKept.IdIsNoted | scripts/ci/normalize_protection.py:80-84 | below a list of grantees the ids are read off as they are |
| Calendar.OrderIsByNumber | backend/seed.py:141-157 | dates compare like their day numbers |
| Calendar.YearsInClosedForm | backend/seed.py:152-155 | the days before a year, counted month by month, are those of the Gregorian rule in closed form |
| Calendar.LocateNumbers | backend/seed.py:159-166 | counting days on from the first of a month lands on a real date with that day number |
| Calendar.AddDaysNumbers | backend/seed.py:159-179 | adding n days adds n to the day number |
| IsoDate.FourDigitYears | frontend/lib/format.ts:86-91 | from year 1000 to 9999 the client's format is ISO text |
| IsoDate.IsoOrder | frontend/lib/billingPeriodStatus.ts:72-73 | comparing ISO texts compares the dates |
| IsoDate.MatchReadsIso | frontend/lib/format.ts:149-153 | the pattern reads back every ISO text |
| Seed.FailsExactlyInFirstQuarterOfYearOne | backend/seed.py:158-167 | planning fails exactly on an anchor in January to March of year 1 |
| Seed.FirstDayCannotBePlanned | backend/seed.py:158-162 | it fails on the first date Python has |
| Seed.Regimes | backend/seed.py:141-151 | through the 24th two closed periods, from the 25th three, with these boundaries; nothing else about the day matters |
| Seed.TwoAlwaysEnded | backend/seed.py:175-179 | at least two definitions have always ended, so the last one exists |
| Seed.TilesCoverOnce | backend/seed.py:152-156 | contiguous periods and an open end hold no day twice, and every day from their first start on |
| Seed.EveryDayOnce | backend/seed.py:152-157 | for every anchor each day from the first start on is in exactly one period, no earlier day is in any, and the open one has started by the anchor |
| Seed.StatusesAtTheAnchor | frontend/lib/billingPeriodStatus.ts:86-92 | at the anchor every closed row is past and the last one open |
| Seed.OpenRowIsSelected | frontend/lib/billingPeriodStatus.ts:130-160 | for any order of those rows the open one is selected, and the index points at it |
| BillingPeriod.StatusMeans | frontend/lib/billingPeriodStatus.ts:52-92 | the five statuses partition the rows, each given by a condition independent of the branch order |
| BillingPeriod.SelectionIsTop | frontend/lib/billingPeriodStatus.ts:130-147 | the answer is an open row that no open row starts after, and exists exactly when some row is open |
| BillingPeriod.ReduceTakesGreatestId | frontend/lib/billingPeriodStatus.ts:139-145 | among rows tied at the latest start, all with ids, none has a greater id than the answer |
| BillingPeriod.OrderIndependentExactlyWhenDecided | frontend/lib/billingPeriodStatus.ts:123-128 | the answer is the same for every order of the payload exactly when the tied latest rows are one row, or all carry ids and one row has the greatest |
| BillingPeriod.TieWithoutIdsDepends | frontend/lib/billingPeriodStatus.ts:139-145 | of two open rows tied without ids the first listed is the answer, whichever it is |
| BillingPeriod.IndexPointsAtSelection | frontend/lib/billingPeriodStatus.ts:155-160 | the index is the selected row's, or -1 exactly when no row is open |
| Recurrence.NewDate | frontend/lib/format.ts:161-166 | any year, month and day, out of range or not, mean the date that many days after the start of that month, years below 100 being of the twentieth century |
| Recurrence.EachFrequency | frontend/lib/format.ts:154-166 | weekly moves 7 days, biweekly 14, quarterly 3 months, yearly 12 and anything else one, on the same day or the month's last |
| Recurrence.TextStepIsStep | frontend/lib/format.ts:148-167 | from year 100 on the text step spells the calendar step |
| Recurrence.MatchesExactlyFromYear1000 | frontend/lib/format.ts:143-146 | the step is the documented clamped one exactly when it lands in year 1000 or later |
| Recurrence.YearFiftyIsMisread | frontend/lib/format.ts:148-167 | a monthly step from June of the year 50 is not the documented one |
| Recurrence.StepIsForward | frontend/lib/format.ts:148-167 | every step is strictly forward |
| Recurrence.StepKeepsOrder | frontend/lib/format.ts:148-167 | two dates never change places; they meet exactly when both are clamped to one month's last day |
| Recurrence.RepeatedLands | frontend/lib/format.ts:159-166 | n steps of k months land n*k months later on the least of the day and the lengths of all months landed on, and on no other day fitting that description |
| Recurrence.ShortestIsUnique | frontend/lib/format.ts:159-166 | that least is one day only |
| Recurrence.AgainstOneJump | frontend/lib/format.ts:137-141 | never later than one jump of n*k months, and equal exactly when no month landed on is too short for the jump's day |
| Recurrence.EarlyDaysNeverDrift | frontend/lib/format.ts:137-141 | up to the 28th repeating and jumping agree |
| Recurrence.LateDaysDrift | frontend/lib/format.ts:143-146 | from January 31, two month steps give March 28 and one jump March 31 |
| Recurrence.TextStepsAreSteps | frontend/lib/format.ts:148-167 | repeated on texts, until a step leaves year 9999 |
| Recurrence.TextClosedForm | frontend/lib/format.ts:148-167 | the closed form on texts |
| Recurrence.StuckPastYear9999 | frontend/lib/format.ts:149-150 | past year 9999 the text no longer matches and is returned unchanged for ever |
| SessionCutoff.User.TokenCutoff | backend/app/security.py:581-599 | the later of the columns that are set, else the beginning of time |
| SessionCutoff.User.ChangeCredentials | backend/app/routers/users.py:523-527 | a change writes the next whole second to its columns |
| SessionCutoff.User.AcceptInvitation | backend/app/services/invitation_service.py:482-484 | a rejoin writes its own second to both columns and never lowers the cutoff |
| SessionCutoff.Clock.SleepUntil | backend/app/security.py:558-561 | wakes no earlier than asked, capped at two seconds, however late |
| SessionCutoff.Clock.WaitOutCutoff | backend/app/security.py:564-568 | waits for the user's cutoff |
| SessionCutoff.Clock.WaitOutCutoffSecond | backend/app/security.py:571-578 | waits for the end of the cutoff's second |
| SessionCutoff.WaitsNoLongerThanAsked | backend/app/security.py:553-561 | a wait ends at its instant when that is within two seconds, after two seconds when it is further, and at once when it is past, but for the loop's lateness |
| SessionCutoff.CutoffIsHighestBar | backend/app/security.py:537-550 | along any run the cutoff is the highest one written so far, although each write forgets the column's old value |
| SessionCutoff.RejectedExactly | backend/app/deps.py:71-79 | after any run of changes and rejoins an access token is rejected exactly when one of them ends it: a change through its own second, a rejoin before its second |
| SessionCutoff.RejectedThroughTheLatestSecond | backend/app/security.py:541-547 | with changes alone: exactly when minted in or before the second of the latest change |
| SessionCutoff.AgentRejectedExactly | backend/app/agent/auth.py:123-126 | the same for agent tokens, one second later |
| SessionCutoff.RejectionIsFinal | backend/app/services/invitation_service.py:478-482 | no later change or rejoin revives a rejected token |
| SessionCutoff.StorageIsTransparent | backend/app/security.py:545-547 | rounding or cutting to whole seconds on storage changes no column in any run |
| SessionCutoff.RawCutoffLeaks | backend/app/security.py:545-547 | an unrounded cutoff lets an earlier token live exactly when it is of the same second and storage takes the fraction away |
| SessionCutoff.MintAfterWaitExactly | backend/app/security.py:553-568 | a token minted after the wait is accepted for every wake-up exactly when the cutoff is at most two seconds ahead |
| SessionCutoff.ThreeSecondsAreTooFar | backend/app/security.py:553-568 | a cutoff three seconds ahead outlasts the wait |
| SessionCutoff.SignInAfterChanges | backend/app/routers/auth.py:943-945 | after any run, on a clock at most a second behind, the wait suffices; on the same clock it takes at most a second beside the loop's lateness |
| SessionCutoff.AgentMintAfterWaitExactly | backend/app/security.py:571-578 | an agent token floored after its own wait is strictly later than the cutoff for every wake-up exactly when the end of that second is at most two seconds ahead |
| SessionCutoff.AgentMintIsRefusedOrAlive | backend/app/services/api_token_service.py:289-314 | whatever changes run during a mint, it is refused exactly when one raised the cutoff, and otherwise the token is alive |

## Left out

- Database failures: a failed transaction did nothing. Lock waits and deadlocks appear in `SessionRaces` only as a step that waits or a transaction that fails and is rolled back. Row locks are exclusive and held to the end of the transaction.
- The clock of a transaction: one reading per transaction, never going back between transactions; the code reads it in each statement.
- Queries that skip locked rows: what the eviction and purge queries answer is a parameter, any answer the query may give.
- Fresh identifiers: sids, jtis and lease holders are assumed never minted twice (`backend/app/security.py:210-211`), except that a clash with any stored row is handled. In a set of concurrent requests this means that rotations of different families carry different new jtis, and for `SessionRacedStates` that each carries its own, never issued before unless a family no request touches holds it. That a presented jti was minted for the sid it comes with is assumed where a property needs it (signed together, `backend/app/security.py:213-221`).
- SessionSerial.EveryScheduleIsSerial: covers rotate, revoke, revoke of a user and detect; sign-ins, reads and purges are not interleaved at the grain of statements.
- SessionPurge.PurgeIsInvisible: the count `session_revoke_user` answers includes expired rows a purge would have removed, so of it only the live part is compared; and where expiries tie or rows are locked, both runs' sign-ins rank the live families alike, since that order is the database's choice.
- SessionPurge.StepStaysAlike: with the same two limits.
- RateLimit.AtMostTwiceTheLimit: for hits of one key with a clock that does not go back, each counting at least one, all with one window length; times are real numbers, so floating-point rounding is not modelled.
- RateLimit.TableRefinesHistory: for callers whose clocks are at most a minute behind the latest; beyond that the purge can be noticed.
- `mark_webhook_token_seen`, `get_expiry`, `clear` and key hashing: a token or key stands for its hash.
- Token contents: identity, expiry and emptiness are given fields of a token; decoding and base64 are not modelled, nor a fractional `exp`, the limit of `setTimeout`, how long a backoff lasts, or running without a window.
- The requests of `apiFetch` itself, its timeouts, the retry of the original request, telemetry, and error messages: only what the recovery part does to the module's variables.
- TokenModule.RefreshAccessToken: the three possible answers are given in advance; that other code runs between the attempts is in `TokenSafety`.
- Json.DumpsIsInjective: strings with lone surrogates have no value in the model; floats are their canonical text. Values are compared as JSON text: Python's identification of `True`, `1` and `1.0` is not modelled, and the order of keys in a document is not kept.
- Time zones in which a local day is skipped or repeated: `Date` is the Gregorian calendar of local dates.
- BillingPeriod.IndexPointsAtSelection: rows equal in every column are one row; the program compares object identity.
- Clocks of several replicas in `SessionCutoff`: changes are written on one clock that does not go back; the minting clock may differ from it. The cap on live agent tokens and the OAuth grants, which use the same wait, are not modelled.
- `plan_transactions`, posting, the random generator, and the rest of `seed.py`; formatting and amounts in `format.ts`; the server's walk over a recurring schedule.
- Bcrypt, cookies, JWT signing, routers, configuration, React components: no stateful property beyond the ones above.
