# A model of p.stonn's state machines

p.stonn keeps a council parking permit on the number plate its schedule asks for, through a
shared, rate-limited council portal. This project models the parts of it that are state
machines or arithmetic and proves what they promise, for every input and every run:

- `Breaker` is the fleet circuit breaker: admissions, pushbacks, successes, and the row that
  carries a pause across a restart.
- `Calendar` and `Schedule` are the multi-week rotation, the resolution of bookings and
  roster days, and the search for the next plate change.
- `Spread` is how long a scheduled change is held after its boundary.
- `TokenBucket`, `RollingCounter`, `RateLimiter` are the governor's bucket, the per-minute
  traffic counter and the sliding-window limiter, each compared with the full log of events.
- `PlateCache` is the cache of council readings and its forgetting.
- `ApplyClaims` is the per-permit claim and the write-then-record protocol around it.
- `Sessions`, `Recovery`, `ReconnectQueue` are the stored council session, the operations that
  race over it, and the queue of sessions to reconnect.
- `RetryBook` is when a failing permit is tried again.
- `Outbox` and `FailureEpisode` are durable delivery, and what a household is told about a
  change that keeps failing.

Code that updates state in place is a class here. Its methods are proved equal to functions on
the plain value the object stands for (`View()`, or the map, ring or table it holds), and what
the source promises is proved about those functions, in terms that do not name them. The
outbox worker and the session operations take what they meet as inputs (what the channels or
the provider answer, which store calls fail, where they are cancelled); between the calls of a
session operation everyone else may act. The longer results are about runs: a sequence of
events and the sequence of states it passes through, one locked call or one store call at a
time, in any interleaving. Where every instant counts, times are whole nanoseconds, as Go's
are, and the clock is passed in.

Where the code and its own comments disagree the code is followed, and what it does promise
is proved exactly:

- The stored session's generation is seeded with clock milliseconds, forced above the last
  seed issued; increments on top of a seed are not remembered. An expiry read earlier can come
  to retire the session a later link makes if and only if that link's seed does not exceed the
  generation the expiry was read at (`Sessions.StaleSeedRetiresTheNewLink`;
  `Sessions.RelinkWithinAMillisecond` is such a run). While every link's seed exceeds what was
  read, which a strictly advancing clock and links that no read overlaps guarantee, retirement
  is exact (`Sessions.RetireIsExact`).
- The token bucket's returned wait drops the fraction of a nanosecond, so waiting exactly that
  long is enough if and only if there was no fraction; one nanosecond more always is
  (`TokenBucket.ReturnedWaitSuffices`). `loginBudget` still bounds a login that has the buckets
  to itself, because a request waits for the slower bucket and the budget adds both
  (`TokenBucket.LoginBudgetCoversALogin`). It is not the worst case it is called: one
  competitor a request breaks it (`TokenBucket.OneCompetitorBreaksTheBudget`), and k of them
  stretch it at most k + 1 times (`TokenBucket.RacedLoginIsBounded`).
- When the schedule wants no rego the failing target is "", which is also how the episode
  says that nothing was told. One notice per tier holds exactly for targets that are a plate
  (`FailureEpisode.OneNoticePerTierIff`); an empty target is told again at every change of
  tier, a soft notice after an urgent one included, without bound
  (`FailureEpisode.EmptyTargetTellsEveryFlip`, `FailureEpisode.EmptyTargetHasNoBound`).
- Closing a failure episode does not forget the last delivered key, and the next episode reads
  it back: closing re-arms a plate if and only if that key is not about it
  (`FailureEpisode.CloseRearmsIff`). The news of an applied change and drift re-arm every
  plate; the close-out notice of a change that never landed does not, for it is read back as a
  soft failure of its plate (`FailureEpisode.SettledUnappliedStaysSoftlyTold`).
- The comment on `notifyFailure` promises one soft notice per target plate; the columns
  remember one plate, so a target that goes A, B, A is told about A twice
  (`FailureEpisode.AlternatingPlatesAreRetold`).
- A council reading is adopted by compare-and-swap outside the claim, to discard one that an
  apply overtook. It does if the belief has not come back to what it was: drift is misled only
  by a belief that went A, B, A while it read (`ApplyClaims.DriftIsMisledOnlyByABA`), and then
  it is (`ApplyClaims.ABAMisleadsDrift`). A reading older than the belief it is compared with,
  as a cached one may be, takes one apply only (`ApplyClaims.OneApplyMisleadsAnOldReading`).
- The breaker's comment on closing calls same-generation snapshots equivalent in either order.
  They agree on open or closed, but their deadlines differ exactly when a probe was admitted
  in between (`Breaker.EqualGenerationDeadline`).
- The comment on `onPushback` has every failed probe re-open the circuit. With nothing else in
  between, one does if and only if it fails within the probe interval or is the last strike
  the threshold needs (`Breaker.FailedProbeReopensIff`).
- The comment on `restore` says an expired deadline is dropped; the code keeps it, and so does
  the model.
- Probes are spaced by their interval if and only if it is at most the shortest pause a
  re-opening sets, the cooldown or the 30-minute cap (`Breaker.SpacedIff`).
- The limiter's comment says an overflow clears the map; the code keeps the keys that are at
  their limit (`RateLimiter.RefusedThroughOverflow`).
- Noon anchoring counts days exactly if and only if the clock shift between the two noons
  stays under twelve hours, plus one tie each way (`Calendar.RoundDaysExact`).

## Model

| member | source | states |
|---|---|---|
| Breaker.Cell.Allow | internal/parking/breaker.go:83-100 | Closed passes, blocked refuses with the time left, half-open admits one probe and pushes the deadline on by the probe interval |
| Breaker.Cell.CountDistinct | internal/parking/breaker.go:122-129 | The loop that deletes while it counts leaves exactly the owners inside the window and counts them |
| Breaker.Cell.OnPushback | internal/parking/breaker.go:110-145 | The whole new state of a pushback; true exactly when this pushback took the circuit from serving to paused |
| Breaker.Cell.OnSuccess | internal/parking/breaker.go:163-187 | A success always clears its owner's strike and closes only on the current episode's probe |
| Breaker.Cell.RestoreFrom | internal/parking/breaker.go:223-243 | Keeps a stored deadline, elapsed or not, and never lowers the generation |
| Breaker.RunExists | internal/parking/breaker.go:83-187 | From any state, every interleaving of calls is a run, so theorems about runs are about all of them |
| Breaker.GenerationStep | internal/parking/breaker.go:131-142 | Every opening, re-opening and close raises the generation by exactly one, and nothing else moves it |
| Breaker.GenerationOrdersRun | internal/parking/breaker.go:173-184 | Over a run the generation never falls, stands still exactly when nothing opened or closed, and equal generations agree on open versus closed |
| Breaker.ClosesOnlyOnCurrentProbe | internal/parking/breaker.go:163-187 | A success closes the circuit if and only if its permit was a half-open probe's and nothing opened or closed since that admission |
| Breaker.OnlySuccessCloses | internal/parking/breaker.go:163-187 | No admission and no pushback ever closes the circuit |
| Breaker.ClosesOncePerEpisode | internal/parking/breaker.go:173-184 | Between a close and any later open state the circuit opened afresh, so an episode closes at most once |
| Breaker.TallyInvariant | internal/parking/breaker.go:116-129 | The pruned tally is sound and complete against the full history of pushbacks and forgiving successes |
| Breaker.OpensExactlyOnDistinctOwners | internal/parking/breaker.go:110-145 | A pushback opens a circuit that is not blocking exactly when at least threshold distinct owners were pushed back within the window and after their own last success |
| Breaker.PauseIsExact | internal/parking/breaker.go:131-138 | A re-opening pauses for the cooldown or the edge's own wait, whichever is longer, and never more than thirty minutes |
| Breaker.DeadlineIsTheLastSet | internal/parking/breaker.go:83-187 | The circuit is open exactly when some opening or probe has not been closed since, and its deadline is the last one set |
| Breaker.RefusedIff | internal/parking/breaker.go:83-100 | A request is refused exactly while that deadline lies ahead, and told how far; it is the probe exactly when the deadline has passed |
| Breaker.ClosedServes | internal/parking/breaker.go:89-91 | From a closed start, until something opens the circuit, every request is served at once and none as a probe |
| Breaker.WaitIsExact | internal/parking/breaker.go:92-99 | A refusal changes nothing, and with nothing else in between a request is refused until the returned wait is up and is the probe from then on |
| Breaker.LastPushbackIsLatest | internal/parking/breaker.go:115-117 | What is kept as the last pushback is the latest one |
| Breaker.DeadlineHoldsAfterProbe | internal/parking/breaker.go:94-99 | While the circuit stays open after a probe the deadline stays at least a probe interval past it |
| Breaker.ProbesAreSpaced | internal/parking/breaker.go:83-100 | Within an open episode nothing is admitted before the deadline, and successive admissions are at least a probe interval apart |
| Breaker.ShortPauseBreaksSpacing | internal/parking/breaker.go:94-138 | With a positive probe interval longer than the shortest pause, a concrete run from a restored half-open circuit admits twice too soon |
| Breaker.SpacedIff | internal/parking/breaker.go:83-138 | A configuration spaces the admissions of every open episode if and only if its probe interval is at most its shortest pause, or not positive |
| Breaker.FailedProbeReopens | internal/parking/breaker.go:102-145 | A probe pushed back within its interval always re-opens the circuit, for at least the cooldown and the edge's own wait, up to the cap |
| Breaker.FailedProbeReopensIff | internal/parking/breaker.go:102-145 | With nothing else happening to the circuit since a probe, a pushback re-opens it if and only if it comes within the probe interval or at least threshold distinct owners are struck |
| Breaker.SlowProbeFailureDoesNotReopen | internal/parking/breaker.go:102-145 | When every other strike has aged out, a probe pushed back later leaves the circuit half-open and the next caller is admitted at once |
| Breaker.DeadlineIsBounded | internal/parking/breaker.go:131-138 | In every run from a fresh start or a restored pause within the bound, the deadline is at most the larger of the 30-minute cap and the probe interval ahead |
| Breaker.BoundSurvivesRestart | internal/parking/breaker.go:18-23 | Whatever snapshots of a run were stored, the pause a restart restores is within that bound again, so it holds from run to run |
| Breaker.PersistedIsHighest | internal/store/tenant.go:591-608 | Whatever order snapshots are written in, the row ends with the highest generation written, its open or closed state, and its deadline and last pushback to the second |
| Breaker.RestartKeepsThePause | internal/parking/breaker.go:207-243 | Once a snapshot of the final generation has landed, in any write order, a restart comes back closed if and only if the breaker was closed, at the same generation, and if open with a deadline of that generation to the second |
| Breaker.EqualGenerationDeadline | internal/parking/breaker.go:173-184 | Two open snapshots of one generation have the same deadline if and only if no probe was admitted between them |
| Calendar.DayOf | internal/model/model.go:395-396 | The local day of an instant is the one whose midnights enclose it |
| Calendar.DayOfIsUnique | internal/model/model.go:495-497 | No other day's midnights enclose it |
| Calendar.WeekdaysGoRound | internal/model/model.go:373-381 | 1 January 1970 is a Thursday and each day is the next one's yesterday |
| Calendar.SundayIsLast | internal/model/model.go:233-235 | A week's Sunday is the last one not after the day |
| Calendar.RoundDaysExact | internal/model/model.go:236-238 | Rounding noon to noon recovers the exact number of days if and only if the clock shift is under twelve hours, or exactly twelve toward a tie that rounds back |
| Calendar.WeekAtInRange | internal/model/model.go:225-247 | The week index always lies inside the cycle, whatever clock and anchor |
| Calendar.WeekAtCountsWeeks | internal/model/model.go:225-247 | The index is the number of weeks from the anchor's Sunday to this one modulo the cycle, for anchors before and after now |
| Calendar.WeekAtAdvances | internal/model/model.go:225-247 | k weeks later the index has moved by k modulo the cycle, and it is the same all through a week |
| Calendar.ReanchoredAnchor | internal/model/model.go:255-263 | The new anchor is the Sunday as many weeks back as the reduced old index |
| Calendar.ReanchoredRunsOn | internal/model/model.go:249-263 | After re-anchoring the rotation runs on from the reduced index week by week |
| Calendar.ReanchoredKeepsWeek | internal/model/model.go:249-263 | In the week of the edit the index is the old one modulo the new length; growing the cycle leaves it alone |
| Calendar.ReanchoredComposes | internal/model/model.go:253-254 | Two edits inside one week reduce the index by each length in turn |
| Schedule.Resolve | internal/model/model.go:337-399 | The two scans compute the resolution function the lemmas below are about |
| Schedule.BestOverrideIsFreshest | internal/model/model.go:338-355 | The scan finds a booking if and only if one is active, and no active booking was made after it |
| Schedule.BestRuleIsHighest | internal/model/model.go:377-393 | The scan finds a rule if and only if the day has one, and none of the day's has a higher id |
| Schedule.ResolvedFollowsPrecedence | internal/model/model.go:328-399 | A running booking beats the roster and the latest booked wins, field by field; else the day's highest rule, a saved car since the day's midnight; nothing resolves exactly when there is neither |
| Schedule.NormIsPlain | internal/model/model.go:137-148 | The normal form of a plate has no spacing, separator or small letter, and a plate without any is its own |
| Schedule.PlainPlatesDiffer | internal/model/model.go:157-159 | Two plates so written are the same only if they are equal |
| Schedule.SeparatorsAreIrrelevant | internal/model/model.go:130-148 | A space or a separator anywhere in a plate makes no other plate |
| Schedule.CaseIsIrrelevant | internal/model/model.go:130-148 | Nor does a small letter for its capital |
| Schedule.SameTargetIff | internal/model/model.go:401-410 | SameTarget is equality of what is wanted: no rego, or a saved car and a plate in normal form |
| Schedule.ConstantBetweenBoundaries | internal/model/model.go:435-439 | The resolution cannot change except at a local midnight or a booking's edge |
| Schedule.NothingBetweenBoundaries | internal/model/model.go:415-427 | Between boundaries no write falls due and the allocation in place stays |
| Schedule.QuietKeepsTheCar | internal/model/model.go:405-427 | Through any stretch without a write, every allocation wants the car that was in place at its start; SameTarget carries across gaps and hand-backs |
| Schedule.Midnights | internal/model/model.go:443-445 | The walk lists every local midnight in the horizon, in order |
| Schedule.BookingEdges | internal/model/model.go:446-453 | The scan lists exactly the starts and ends inside the horizon |
| Schedule.Candidates | internal/model/model.go:442-454 | The sorted candidates leave no boundary out |
| Schedule.NextChange | internal/model/model.go:440-470 | Exact: the first instant in the horizon at which an app looking at every instant would write, and none exactly when it never would |
| Spread.OffsetInWindow | internal/scheduler/reconcile.go:135-146 | A permit's slot lies inside the window |
| Spread.OffsetIsTheShare | internal/scheduler/reconcile.go:135-146 | The slot takes its share of the window, to the nanosecond |
| Spread.HoldIsExact | internal/scheduler/reconcile.go:49-94 | Which hold it is: none for a change someone asked for, the share for a roster day, and the least of the share, ten minutes and a tenth of its length for a booking made ahead |
| Spread.NeverHeldOutsideTheWindow | internal/scheduler/reconcile.go:49-60 | Before Since and after the window nothing is held |
| Spread.EligibleExactlyAfterHold | internal/scheduler/reconcile.go:49-94 | From Since on, a change becomes eligible at one instant, within the window, and stays so |
| Spread.BookingHoldIsShort | internal/scheduler/reconcile.go:64-93 | An advance booking is held at most a tenth of its length and at most ten minutes, and never to its end |
| Spread.AdvanceBookingIsNotStarved | internal/scheduler/reconcile.go:84-93 | While a booking made in advance is the one resolved, it is eligible from that hold on, whatever window and slot |
| Spread.EffectiveSpreadIsCapped | internal/scheduler/reconcile.go:120-133 | The window is on only when configured and measured, and is then the lesser of the cap and twice the fleet's drain |
| TokenBucket.Bucket.constructor | internal/parking/governor.go:74-76 | A new bucket is full, never used, and refills at a sixtieth of the per-minute rate |
| TokenBucket.Bucket.TryTake | internal/parking/governor.go:80-96 | The whole new state, the grant and the returned wait of one take |
| TokenBucket.TokensStayInRange | internal/parking/governor.go:83-90 | On any run with a clock that does not go back, tokens stay between zero and the burst |
| TokenBucket.GrantsAreBounded | internal/parking/governor.go:80-96 | In any stretch of a run the grants number at most the burst plus the rate times its length |
| TokenBucket.TokensAreConserved | internal/parking/governor.go:80-96 | In any stretch in which the bucket does not fill up, the grants and the tokens left equal the tokens it began with and what accrued |
| TokenBucket.BurstIsGranted | internal/parking/governor.go:66-96 | A bucket new or left alone for as long as its burst takes to accrue grants exactly its burst at one instant |
| TokenBucket.ClosedBucketStaysShut | internal/parking/governor.go:91-93 | Without a rate a refusal lasts for ever, and names an hour |
| TokenBucket.GrantedAfterSpan | internal/parking/governor.go:94-95 | After a refusal with no other taker, a take is granted if and only if the missing token's time has passed |
| TokenBucket.ReturnedWaitSuffices | internal/parking/governor.go:94-95 | The returned wait is enough if and only if the missing time is a whole number of nanoseconds; one more always is |
| TokenBucket.ReturnedWaitCanFallShort | internal/parking/governor.go:94-95 | A concrete refusal after which waiting the returned time is refused again |
| TokenBucket.WaitIsAtMostOneToken | internal/parking/governor.go:154-159 | No wait exceeds one token's accrual |
| TokenBucket.Bucket.Wait | internal/parking/governor.go:98-114 | On a bucket that refills, the loop ends, at an ask that is granted, at the instant and with the state of the waiting function |
| TokenBucket.LeftShrinks | internal/parking/governor.go:94-114 | What a lone waiter is missing shrinks from ask to ask; refused twice it is missing less than a nanosecond |
| TokenBucket.WaitEndsGranted | internal/parking/governor.go:98-114 | Whatever others draw meanwhile, the state the last ask finds grants it |
| TokenBucket.SecondTryIsGranted | internal/parking/governor.go:98-114 | Alone, a refused waiter is granted at the returned time or a nanosecond after, and the loop is over by then |
| TokenBucket.WaitedIsShort | internal/parking/governor.go:98-114 | A wait ends granted after at most a token's time and a nanosecond, and as much again for each of its rests in which others draw |
| TokenBucket.RequestIsShort | internal/parking/governor.go:167-188 | Alone, a login request waits for the slower of its two buckets, because what it waits in the login bucket the total accrues too |
| TokenBucket.BudgetIsSixOfEach | internal/parking/governor.go:150-161 | loginBudget is six tokens' time of each bucket, less the fractions dropped |
| TokenBucket.WaitsAreBudgeted | internal/parking/governor.go:167-188 | Alone, n login requests are held at most n token times of the slower bucket, and a nanosecond a request |
| TokenBucket.LoginBudgetCoversALogin | internal/parking/governor.go:138-161 | Whatever the two buckets hold, a whole login that has them to itself is held no longer than loginBudget |
| TokenBucket.RacedLoginIsBounded | internal/parking/governor.go:138-161 | With other traffic racing each wait in at most k of its rests, and drawing freely in between, a login is held at most k + 1 times its budget and twelve nanoseconds |
| TokenBucket.BeatenLoginWaits | internal/parking/governor.go:167-188 | n requests each beaten to one token of a slow total wait twice its time each |
| TokenBucket.OneCompetitorBreaksTheBudget | internal/parking/governor.go:138-161 | A concrete login, raced once a request, is held past loginBudget |
| RollingCounter.Counter.Record | internal/parking/metrics.go:63-75 | Counts the minute in its slot, resetting the slot if it held another minute |
| RollingCounter.Counter.Window | internal/parking/metrics.go:80-94 | For any clock and any window, the sum is exactly the number of logged events of the window whose slot no later event has taken for another minute |
| RollingCounter.SlotAfter | internal/parking/metrics.go:67-74 | What one more event keeps and what it displaces |
| RollingCounter.AddTracks | internal/parking/metrics.go:63-75 | Recording any minute keeps every slot in step with the full log |
| RollingCounter.RunTracks | internal/parking/metrics.go:44-75 | From an empty ring, any run at all ends in step with its log |
| RollingCounter.SumIsKept | internal/parking/metrics.go:88-93 | Summing the slots whose tag is in the window counts the kept events of those slots |
| RollingCounter.NothingLost | internal/parking/metrics.go:77-94 | With a clock that has not gone back and a window that fits the ring, every event of the window is kept |
| RollingCounter.LongWindowForgets | internal/parking/metrics.go:57-61 | A window one minute longer than the ring, and a clock a full cycle back, each lose an event, for a ring of any size |
| PlateCache.Cache.RegGeneration | internal/parking/parking.go:662-666 | An unknown key is at generation zero |
| PlateCache.Cache.StoreRegIfCurrent | internal/parking/parking.go:668-677 | Stores if and only if the captured generation still stands: the step the interleavings are made of |
| PlateCache.Cache.Bump | internal/parking/parking.go:650-656 | The locked half of a forget raises the key's generation and nothing else |
| PlateCache.Cache.ForgetPermit | internal/parking/parking.go:648-660 | Raises the key's generation and drops its entry |
| PlateCache.GenerationsRise | internal/parking/parking.go:650-660 | A key's generation never falls and stands still exactly when the key was not forgotten |
| PlateCache.StoreLandsIffNotForgotten | internal/parking/parking.go:668-677 | In any interleaving a store lands if and only if its key was not forgotten since it captured |
| PlateCache.ForgottenStaysForgotten | internal/parking/parking.go:650-677 | After a forget has returned, any entry for its key was stored by an operation that captured after the bump |
| PlateCache.OthersAreUntouched | internal/parking/parking.go:650-677 | Forgetting one permit or storing for it touches no other's entry or generation |
| RateLimiter.Limiter.Sweep | internal/server/contact.go:123-134 | The sweep drops exactly the other keys whose newest timestamp has left the window |
| RateLimiter.Limiter.Evict | internal/server/contact.go:145-165 | On overflow exactly the keys at their limit stay, or nothing if they alone overflow |
| RateLimiter.Limiter.Trim | internal/server/contact.go:167-173 | Keeps the timestamps after the cutoff, in order |
| RateLimiter.Limiter.Prune | internal/server/contact.go:121-165 | The sweep and the overflow guard at the head of a call |
| RateLimiter.Limiter.Allow | internal/server/contact.go:114-180 | The answer and the whole new state of one call |
| RateLimiter.AllowKeepsOk | internal/server/contact.go:167-179 | Timestamps stay sorted, none lies ahead, and no key holds more than the limit |
| RateLimiter.MapStaysBounded | internal/server/contact.go:101-104 | No call leaves more than maxLimiterKeys + 1 keys |
| RateLimiter.AllowAgrees | internal/server/contact.go:114-180 | Without overflow a call answers as the log that forgets nothing, and agreement with it goes on |
| RateLimiter.RunIsOk | internal/server/contact.go:114-180 | The invariant holds throughout any run |
| RateLimiter.SweepIsExact | internal/server/contact.go:121-134 | A sweep drops exactly the other keys with nothing left in the window |
| RateLimiter.EvictionIsExact | internal/server/contact.go:145-165 | On overflow, and only then, exactly the keys at their limit are kept, or none if they do not fit |
| RateLimiter.SweepsEvery256 | internal/server/contact.go:121-123 | Over any run every 256th call sweeps, and no other |
| RateLimiter.RunAgreesWithLog | internal/server/contact.go:114-180 | Until the first overflow every call of a run is decided as the full log would decide it |
| RateLimiter.LogIsEarned | internal/server/contact.go:175-179 | Every entry of the log was allowed on what came before it |
| RateLimiter.EarnedIsRateLimited | internal/server/contact.go:79-82 | Any log whose entries were each allowed has at most limit of a key in any window of the configured length |
| RateLimiter.GrantsAreLogged | internal/server/contact.go:114-180 | Absent overflow the limiter's own grants to a key are the full log's entries |
| RateLimiter.LimiterLimits | internal/server/contact.go:79-82 | In any run of the limiter without overflow, any window of the configured length, ending anywhere, holds at most limit grants to a key |
| RateLimiter.AtLimitSurvives | internal/server/contact.go:135-165 | A key at its limit keeps its timestamps through sweep and overflow unless the blocked keys alone overflow |
| RateLimiter.RefusedThroughOverflow | internal/server/contact.go:135-165 | Over any stretch of calls without a total reset, a key still at its limit at the end is refused |
| RateLimiter.Limiter.RetryAfterFor | internal/server/contact.go:190-212 | The scan finds the oldest counted attempt, and zero when another would pass |
| RateLimiter.RetryAfterMatchesAllow | internal/server/contact.go:182-212 | Zero only if the next attempt passes; positive only if it is refused, total reset aside; negative exactly when no attempts are allowed at all |
| RateLimiter.OldestLeaves | internal/server/contact.go:198-211 | Once the oldest counted attempt leaves the window, fewer are counted |
| RateLimiter.WaitingFreesASlot | internal/server/contact.go:182-212 | When the returned time is up the key is below its limit |
| RateLimiter.WaitIsNeeded | internal/server/contact.go:182-212 | At every instant before the returned time is up a key left alone is still refused, total reset aside |
| RateLimiter.WaitingIsEnough | internal/server/contact.go:182-212 | A refused key that waits the returned time is then allowed, whatever the other keys did meanwhile |
| ApplyClaims.Claims.TryApply | internal/scheduler/scheduler.go:675-683 | A fresh claim if the permit is free, else nothing changes: the acquisition step of the protocol |
| ApplyClaims.Claims.Release | internal/scheduler/scheduler.go:684-693 | Frees its own claim and no other, once; late or repeated it leaves a newer holder in place: the release step of the protocol |
| ApplyClaims.ApplyKeepsExclusive | internal/scheduler/scheduler.go:675-694 | No step of any writer breaks the match between unreleased cycles and held claims |
| ApplyClaims.RunIsExclusive | internal/scheduler/scheduler.go:675-694 | That match holds throughout any run |
| ApplyClaims.ClaimsAreExclusive | internal/scheduler/scheduler.go:628-646 | Two writers are never inside their cycles on one permit at once |
| ApplyClaims.StaleReleaseFreesNothing | internal/scheduler/scheduler.go:684-693 | In any run, a release by anyone but the holder leaves every claim in place |
| ApplyClaims.ApplyKeepsAgreement | internal/scheduler/reconcile.go:583-634 | Every step of claim, council write, record, release and adoption keeps council and belief in agreement, save for the listed faults |
| ApplyClaims.AgreementLastsUntilAFault | internal/scheduler/reconcile.go:583-634 | Agreement once reached is lost only through a fault on that permit, under any interleaving of writers and adopters |
| ApplyClaims.UnclaimedMeansAgreed | internal/server/guest_public.go:303-334 | In a fault-free run, whenever a permit's claim is free its stored plate is the council's plate |
| ApplyClaims.ConfirmedWriteHeals | internal/scheduler/reconcile.go:583-634 | Whatever went wrong before, one confirmed write with no fault after it restores agreement |
| ApplyClaims.StepDoes | internal/scheduler/reconcile.go:605-614 | A write lands exactly when confirmed or failed though landed, a commit stores the plate written, an edit and an adoption change one record each, and nothing else touches either |
| ApplyClaims.ClaimDoes | internal/scheduler/scheduler.go:675-694 | A free permit is claimed at once, a held one is not, and only its own release frees it |
| ApplyClaims.AdoptionKeepsAgreementIff | internal/store/permits.go:297-319 | Adopting a council reading keeps agreement exactly when its swap fails, a write is waiting to be recorded over it, or the council still shows the reading |
| ApplyClaims.TimelyAdoptionAgrees | internal/store/permits.go:297-319 | If the permit was not applied or edited between reading and swap the adoption is no fault, and a swap brings the belief to the council's plate from wherever it was |
| ApplyClaims.StaleAdoptionNeedsAReturn | internal/store/permits.go:300-308 | In an otherwise fault-free run a swap to a stale plate takes a belief that was that plate since the reading and is what was compared now |
| ApplyClaims.DriftIsMisledOnlyByABA | internal/scheduler/drift.go:183-300 | Drift, which reads the belief first, is misled only by a belief that left its value and came back |
| ApplyClaims.OneApply | internal/server/guest_public.go:303-334 | From any point at which the permit is unclaimed a whole cycle can run, and ends agreed on its plate |
| ApplyClaims.ABAMisleadsDrift | internal/scheduler/drift.go:288-300 | From any agreed point two plain applies can make a drift adoption store a plate the council does not hold |
| ApplyClaims.OneApplyMisleadsAnOldReading | internal/server/schedule.go:325-351 | From any agreed point one apply can do so to a reading older than the belief |
| Sessions.MatchMeansUnchanged | internal/store/tenant.go:373-391 | While seeds exceed every generation read, a generation read earlier still matches if and only if nothing at all happened to the row since, and no live row is below it |
| Sessions.SeedsRise | internal/store/tenant.go:373-391 | Within one run of the process seeds strictly rise whatever the clock does, none is behind it, and each is the clock or one above the last |
| Sessions.UserHasTheSay | internal/store/tenant.go:323-367 | A link leaves a session with the password the user chose to save, an unlink none, an opt-out one without a password |
| Sessions.AppKeepsTheChoice | internal/store/tenant.go:399-478 | A renewal keeps whether a password is saved, a reconnect leaves it saved, and neither makes or ends a session |
| Sessions.RetireIsExact | internal/scheduler/reconnect.go:429-502 | Under any interleaving of links, opt-outs, unlinks, renewals and reconnects, the worker deletes a session if and only if it is untouched since its expiry was seen |
| Sessions.StaleWritesLandNowhere | internal/store/tenant.go:399-426 | A renewal or a reconnect changes nothing if and only if the row changed since it was read |
| Sessions.OptOutSticks | internal/store/tenant.go:480-488 | After an opt-out no reconnect in flight puts a saved password back before the next link |
| Sessions.BehindTheClock | internal/store/tenant.go:377-391 | Under a strictly advancing clock neither the seed memory nor any row's generation runs ahead of it, restarts included |
| Sessions.StrictClockIsFresh | internal/store/tenant.go:377-391 | Then seeds are fresh, if no session is read between a link's drawing its seed and its landing |
| Sessions.StaleSeedIsRetired | internal/store/tenant.go:377-391 | A link whose seed is no higher than a generation read can be followed by the worker retiring it |
| Sessions.StaleSeedRetiresTheNewLink | internal/store/tenant.go:373-391 | An expiry read earlier can come to retire the session of a link about to land if and only if the link's seed does not exceed the generation it was read at |
| Sessions.RelinkWithinAMillisecond | internal/store/tenant.go:382-391 | A concrete run: an opt-out, a queued expiry, and an unlink and re-link in one millisecond, after which the new session is retired |
| Recovery.Store.NewSessionGeneration | internal/store/tenant.go:382-391 | The clock, forced above the last seed issued |
| Recovery.Store.SaveTenantSession | internal/store/tenant.go:323-367 | A fresh row takes the seed drawn for it, an existing one counts up |
| Recovery.Store.ClearTenantPassword | internal/store/tenant.go:484-488 | An opt-out drops the password and counts the generation up |
| Recovery.Store.UpdateTenantCookie | internal/store/tenant.go:462-478 | Lands if and only if the store accepts it and the row is at the expected generation |
| Recovery.Store.SaveReconnectedSessionIfGen | internal/store/tenant.go:399-426 | Likewise, and writes the saved password back |
| Recovery.Store.DeleteTenantSessionIfGen | internal/store/tenant.go:544-560 | Likewise, and deletes |
| Recovery.WithSession | internal/parking/parking.go:307-363 | Which error it is, from the row read, the cooldown, the circuit and the provider's answer: every dead session is an expiry, at the generation read. A failing operation writes nothing; a success that rotated or must persist rewrites the row once, at the generation read (while seeds are fresh, only that very row), unless that generation is gone |
| Recovery.Reconnect | internal/parking/parking.go:393-474 | Which error it is, from the row read, the password and the sign-in; a sign-in whose save the store takes succeeds unless the generation read is gone, and replaces a row at that generation, while seeds are fresh that very row; otherwise nothing has changed |
| Recovery.RecoverOrRetire | internal/scheduler/reconnect.go:429-502 | A missing or rejected password ends in deleting the row at the queued generation, while seeds are fresh exactly the row whose expiry was queued, and in the prompt, unless the store refuses (then it defers) or that generation is gone; nothing else deletes or prompts; a passing failure or an unrecognised form always defers, and a deferral has changed nothing |
| ReconnectQueue.Pending.QueueReconnectItem | internal/scheduler/reconnect.go:164-184 | A queued key keeps its item, at most upgraded to count; true exactly when the queue changed |
| ReconnectQueue.Pending.CancelReconnect | internal/scheduler/reconnect.go:233-259 | Drops exactly the owner's items, everywhere or at one council |
| ReconnectQueue.Pending.NextDueReconnect | internal/scheduler/reconnect.go:274-290 | The item whose next attempt is earliest, ties broken by owner and tenant, and how long until then; none if and only if the queue is empty |
| ReconnectQueue.Pending.DequeueReconnect | internal/scheduler/reconnect.go:304-310 | Removes the item only if it is still the attempted one |
| ReconnectQueue.Pending.BackoffReconnect | internal/scheduler/reconnect.go:318-337 | Backs off only the attempted item, and alerts exactly at the fifth attempt |
| ReconnectQueue.AddedWhen | internal/scheduler/reconnect.go:176-183 | A queued item keeps the generation and instant it was added with through upgrades and backoffs |
| ReconnectQueue.SameItemMeansNeverLeft | internal/scheduler/reconnect.go:292-300 | When an attempt ends, what is queued passes for the attempted item if and only if its key never left the queue, or came back at the same generation and instant |
| ReconnectQueue.StaleFinishIsNoOp | internal/scheduler/reconnect.go:298-337 | In every other case, a cancel or a cancel and a fresh enqueue, a finishing attempt changes nothing |
| ReconnectQueue.RequeuedAlikeIsDequeued | internal/scheduler/reconnect.go:292-310 | A concrete run of that exception: cancelled while attempted and queued again alike, the new item is dequeued by the old attempt |
| ReconnectQueue.BackoffGrows | internal/scheduler/reconnect.go:325-331 | More attempts never shorten the delay, which stays between five minutes and an hour |
| ReconnectQueue.BackoffDoubles | internal/scheduler/reconnect.go:325-331 | Five minutes, then twice as long each time, up to an hour |
| ReconnectQueue.StepDoes | internal/scheduler/reconnect.go:164-184 | A new item is due at once and untried, a second report changes only whether it counts, a cancel or a finished attempt takes the item out, a deferred one puts it off by its delay |
| ReconnectQueue.StepLeavesOthers | internal/scheduler/reconnect.go:164-337 | No step touches another key's item |
| ReconnectQueue.AttemptsRise | internal/scheduler/reconnect.go:318-337 | While an item stays queued its attempts never fall |
| ReconnectQueue.BackoffsOfOneResidency | internal/scheduler/reconnect.go:318-337 | Within one residency delays do not shrink and stay in bounds, and the stalled alert fires at most once |
| RetryBook.Book.DeferRetry | internal/scheduler/scheduler.go:551-559 | A transient failure moves the next attempt by the jittered backoff of its streak and leaves any parking |
| RetryBook.Book.ParkRetry | internal/scheduler/scheduler.go:576-584 | A refusal parks the permit for its plate for a year |
| RetryBook.Book.Unpark | internal/scheduler/scheduler.go:593-602 | Another target, and only another, clears the parking and its window |
| RetryBook.Book.ClearRetry | internal/scheduler/scheduler.go:617-622 | Clears both |
| RetryBook.StaysParked | internal/scheduler/scheduler.go:561-615 | No run of ticks for the same plate, and nothing other permits do, ends a parking |
| RetryBook.RefusalHoldsForItsPlateOnly | internal/scheduler/reconcile.go:571-581 | For a year after a refusal a tick attempts a write if and only if it wants another plate |
| RetryBook.OthersUntouched | internal/scheduler/scheduler.go:551-622 | One permit's failures never delay another's |
| RetryBook.DeferGrows | internal/scheduler/scheduler.go:548-559 | A longer streak never shortens the backoff, which stays within half an hour |
| RetryBook.DeferDoubles | internal/scheduler/scheduler.go:548-559 | One minute, then twice as long for each failure in a row, up to half an hour |
| RetryBook.ClearedIsForgotten | internal/scheduler/scheduler.go:617-622 | After a landed change or a user's kick the permit's next target is attempted, whatever it is |
| RetryBook.RefusalParks | internal/scheduler/scheduler.go:576-584 | A refused attempt parks its plate for a year; a deferred tick changes nothing |
| RetryBook.JitterIsWithin | internal/scheduler/scheduler.go:888-898 | Jitter moves a backoff by at most its fraction, either way |
| RetryBook.FailureIsRetried | internal/scheduler/scheduler.go:548-559 | After a transient failure the permit is attempted exactly from the jittered backoff on: never sooner than its streak's backoff less the fraction, always once half an hour and the fraction have passed |
| Outbox.MailDecides | internal/notify/outbox.go:316-383 | With a reachable address an acceptance is needed and enough, whatever the push did; without one the push decides; a row with addresses pushes on its first attempt alone; with nothing to address there is nothing to do |
| Outbox.OnlyHardRefusalsGiveUp | internal/notify/outbox.go:304-388 | A row is given up at once exactly when every address it could reach refused for good and no push failed beside it |
| Outbox.Deliver | internal/notify/outbox.go:310-388 | The loop over the addresses and the push decide just that |
| Outbox.OutboxBackoff | internal/notify/outbox.go:390-400 | The loop computes one minute tripling, capped at three hours |
| Outbox.BackoffGrows | internal/notify/outbox.go:390-400 | Retries never come closer together |
| Outbox.BackoffTriples | internal/notify/outbox.go:390-400 | A minute, then three times as long each time, up to three hours |
| Outbox.DeliveredAtMostOnce | internal/notify/outbox.go:144-189 | Under the invariant a row is delivered at most once and tried at most eight times, plus one for each outcome lost in a crash; at most one outcome is parked |
| Outbox.TryKeepsInv | internal/notify/outbox.go:144-189 | A delivery made while nothing is owed keeps the invariant, whatever its outcome |
| Outbox.RecordKeepsInv | internal/notify/outbox.go:207-234 | An accepted write settles what was owed and keeps it |
| Outbox.EnqueueAddsARow | internal/store/notify.go:168-190 | The new row is pending, untried, due from its time on, names what it was given, and touches no other |
| Outbox.CrashKeepsInv | internal/notify/outbox.go:117-142 | A crash forgets the parked outcome and keeps it |
| Outbox.EnqueueKeepsInv | internal/store/notify.go:168-190 | A new row keeps it |
| Outbox.PurgeKeepsInv | internal/store/notify.go:261-270 | Purging settled rows keeps it |
| Outbox.CrashCanDuplicate | internal/notify/outbox.go:107-189 | From any state with an open row, delivering, losing the outcome in a crash and delivering again is a second delivery |
| Outbox.Service.Record | internal/notify/outbox.go:207-246 | Settles its row, or parks the outcome and changes nothing else when the store refuses |
| Outbox.Service.FlushUnrecorded | internal/notify/outbox.go:265-276 | Everything owed is recorded exactly when nothing was owed or the pass was not cancelled and the store took it; else nothing changed |
| Outbox.Service.DueOutbox | internal/store/notify.go:194-219 | The pending rows that are due, by id, the first fifty of them |
| Outbox.Service.Try | internal/notify/outbox.go:171-184 | One delivery, allowed only while nothing is owed; it owes sent exactly when delivered, dead exactly when not and given up or at the eighth attempt, else a retry at the backoff |
| Outbox.Service.Attempt | internal/notify/outbox.go:169-188 | One more row of the batch tried, and settled or parked by whether the store takes the write |
| Outbox.Service.DeliverBatch | internal/notify/outbox.go:162-188 | Tries the rows of a batch in order, each once, up to the first cancellation or the first refused write |
| Outbox.Service.DrainOutbox | internal/notify/outbox.go:144-189 | A pass sends nothing while anything is owed and cannot be recorded, or while the rows cannot be read; else it tries the due rows in turn, each once, until cancelled or a write is refused; each tried row ends sent exactly if its channels took it, but for a refused last one, whose outcome is parked; and no other row is touched |
| Outbox.Service.Enqueue | internal/store/notify.go:168-190 | Adds a pending row under a new id |
| Outbox.Service.Crash | internal/notify/outbox.go:98-102 | A restart finds the rows as they were and nothing parked |
| FailureEpisode.PermitNotify.MarkFailureTold | internal/store/notify.go:317-333 | For one plate the tier only rises; another plate, the empty one included, replaces it |
| FailureEpisode.PermitNotify.NotifyFailure | internal/scheduler/notify.go:133-174 | Whether a notice goes out, and the episode and key after it |
| FailureEpisode.PermitNotify.CloseFailureEpisode | internal/scheduler/notify.go:239-251 | Empties an episode that told something, keeps the key, and says whether it did; one that told nothing it leaves as it is |
| FailureEpisode.PermitNotify.NotifyUser | internal/scheduler/notify.go:452-526 | An outcome goes out unless it is the last delivered one, and becomes that once delivered |
| FailureEpisode.PermitNotify.SettleUnapplied | internal/scheduler/reconcile.go:367-412 | The close-out notice, then the close |
| FailureEpisode.PermitNotify.ChangeApplied | internal/scheduler/reconcile.go:692-699 | The close, then the news of the applied change, which resolves exactly an episode that told something |
| FailureEpisode.OneMoreFailure | internal/scheduler/notify.go:151-174 | A plate's failure is told if and only if nothing was, or it is urgent after a soft notice |
| FailureEpisode.OneNoticePerTier | internal/scheduler/notify.go:107-174 | From whatever the columns and the last delivered key say, any sequence of causes, tiers and spellings of a plate's failures delivers nothing, one soft, one urgent, or a soft and then an urgent notice |
| FailureEpisode.DeliverableIsTold | internal/scheduler/notify.go:107-174 | In an episode that opened with nothing about the plate told, something has been told exactly once a failure could be delivered, and the urgent notice exactly once an urgent one could |
| FailureEpisode.CoveredTellsOnlyUrgently | internal/scheduler/notify.go:139-174 | In one that opened with the last delivered key about the plate, the notices are the urgent one alone, once it could be delivered, and none at all if that key was urgent |
| FailureEpisode.OpenEpisodeTellsIff | internal/scheduler/notify.go:151-168 | In an episode that told a plate, an urgent failure of any plate is told unless an urgent notice is on record, a soft one if the council is not down and it is about another plate, and neither if it is the last outcome delivered |
| FailureEpisode.DeliveredIsRecorded | internal/scheduler/notify.go:168-174 | A delivered notice is what the episode and the key then say; an undelivered one leaves the failure to be told |
| FailureEpisode.UrgentIsNeverSwallowed | internal/scheduler/notify.go:120-124 | However the target moves between plates, with nothing urgent on record at the start, an urgent notice has gone out if and only if some urgent failure could be delivered |
| FailureEpisode.EmptyTargetRule | internal/scheduler/notify.go:139-168 | For an empty target a failure is told if and only if the last notice delivered was not the same failure at the same tier |
| FailureEpisode.EmptyTargetTellsEveryFlip | internal/scheduler/notify.go:139-168 | Its deliverable failures are told exactly at every change of tier |
| FailureEpisode.EmptyTargetHasNoBound | internal/scheduler/reconcile.go:538-542 | For every n, n failures of an empty target alternating urgent and soft, all of them told |
| FailureEpisode.OneNoticePerTierIff | internal/scheduler/notify.go:120-124 | At most one notice a tier, and none soft after the urgent, holds from every state and of every sequence of failures if and only if the target is a plate |
| FailureEpisode.NextEpisodeTellsIff | internal/scheduler/notify.go:253-282 | After a close, a failure is told if and only if the last delivered key neither is about its plate at this tier or above nor is its own |
| FailureEpisode.ClosedIsBlank | internal/store/notify.go:335-342 | A close leaves an episode that says nothing and the last delivered key as it was |
| FailureEpisode.CloseRearmsIff | internal/scheduler/notify.go:139-150 | Closing re-arms a plate, so that its failures are told at either tier, if and only if the last delivered key is not about it |
| FailureEpisode.AppliedRearms | internal/scheduler/reconcile.go:692-699 | The delivered news of an applied change re-arms every plate |
| FailureEpisode.DriftRearms | internal/scheduler/drift.go:304-315 | So does drift's clearing of the key, once the episode is closed |
| FailureEpisode.SettledUnappliedStaysSoftlyTold | internal/scheduler/reconcile.go:390-412 | After a delivered close-out of a change that never landed, the plate's whole next episode is told by the urgent notice alone, once one can be delivered, and otherwise not at all |
| FailureEpisode.ClosedInSilenceStaysSilent | internal/scheduler/notify.go:140-149 | A concrete episode that is told, closed without a word, and silent the second time |
| FailureEpisode.RetoldOnlyAfterAnother | internal/scheduler/notify.go:151-161 | A plate is told softly again only after another target was told |
| FailureEpisode.AlternatingPlatesAreRetold | internal/scheduler/notify.go:151-161 | A target going A, B, A gets three soft notices |
| FailureEpisode.OutageIsToldOnce | internal/scheduler/notify.go:151-161 | In an outage, once a plate was told no soft notice follows, and after an urgent one nothing does |

## Left out

- Widths and rounding: generations are unbounded where Go has uint64 and int64, and token counts are reals where Go has float64.
- Disabled features: nil receivers (breaker, limiter, counter, governor) that allow everything.
- Time zones: a zone is its local midnights and noons, strictly increasing and less than a day from UTC's; zones that skip a local midnight, and the zone database itself, are not modelled.
- Anchor dates: a day number, with one value for an empty or unreadable date; parsing and printing are left out.
- Plates: white space and separators are Unicode's, as in the code, but upper-casing is ASCII only.
- FindDisplaced, the cycle-length ladder, expiry and inactivity of permits: easy beside Resolve.
- RolloverBound: an estimate rather than a bound.
- Slot hash and jitter: any slot in [0, 1) and any jittered duration.
- Clocks read before the lock: the limiter's allow, the breaker's calls and the token bucket take the time first, so calls can be admitted out of clock order by a little; the runs here are in clock order where their theorem asks for it.
- TokenBucket: the concurrency slots of acquire, and cancellation while waiting.
- TokenBucket.Bucket.Wait: a timer is exact and the clock moves by a nanosecond between asks; a bucket that never refills, on which the loop asks hourly until it is cancelled, is left out.
- TokenBucket.LoginBudgetCoversALogin: rates above one request a nanosecond.
- PlateCache: reading ages, the failure streak and the deduplication of refreshes.
- AcquireApply's wait: modelled as repeated tries; waking and cancellation, and so fairness, are left out.
- ApplyClaims.TimelyAdoptionAgrees: equal plates in different spellings, which drift and the dashboard leave alone, are plain different plates here.
- Settling and reporting: reconcilePermit's activity rows and reports after the claim is released.
- Sessions: the access-token column and its own conditional write, idle retirement by clock, and the secondary-account guard of SaveTenantSession.
- Recovery: cooldown, strikes and the health clock of classify, the per-owner lock and the login-flow slot; they only remove interleavings. Cryptography appears as "unreadable".
- ReconnectQueue: owners and tenants are compared by rank; churn counters and alert texts are left out.
- Outbox: deduplication at enqueue, the split of one message into rows, delayed rows, enqueues in the middle of a pass, alerts and redaction; the time of a purge; the deletion of an account's rows, pending or parked.
- FailureEpisode: overlapping deliveries, the hold on a claim after an unreachable send, tenant-unavailable and older key forms, plates containing the separator of a key, and writes of the episode that fail after the notice was delivered.
- HTTP handlers, templates, mail, push and the council's wire protocol, SQLite: outcomes of calls are arbitrary.
