# RateReplay, verified

A Dafny model of the parts of RateReplay where correctness is hardest to see, with proofs over all
inputs and all runs. `dafny verify dfyconfig.toml` checks everything. Automatic induction is switched off on
every lemma, so each proof is the one that is written.

## What is modelled

**The exact optimizer** (`Scenarios`, `Identities`, `Admission`, `Billing`, `BillSplit`, `BillTotals`, `BillMeaning`, `Cp`,
`Lowering`, `LoweredModel`, `Exactness`, `Bounds`, `Compiler`, `Staged`, `Optimizer`). A scenario is admitted, billed, lowered to
a constraint model, searched in four stages and verified again. `Exactness.LoweringIsSound` and
`Exactness.LoweringIsComplete` show that the model and the independent verifier accept the same schedules
and score them alike, to the cent. `Staged.PublishedIsOptimal` turns that into the promise of the
optimizer. `Optimizer.OptimizeExact` is the program itself. The constraint solver is any function whose
answers are honest.

**The request limiter** (`Limiter`), **sessions** (`Sessions`) and **jobs** (`Jobs`, `JobHistory`) are state machines with
classes that update their tables in place. Their theorems speak about every interleaving and every run:
the limiter and the sessions refine specifications that only read the history, and job publication is fenced.

**The scenario preview** (`Preview`, `PreviewServer`, `PreviewGrid`): the greedy fill dominates every other
schedule, and what the browser offers the server admits exactly when the profile is a uniform, contiguous grid.

**Allocation, listing, codecs and qualification** (`Apportion`, `Pagination`, `Codec`, `Oracle`,
`OracleAgreement`, `Rounding`, `Decimals`, `Tiling`, `Ranks`), over the shared `Results`, `Arithmetic`, `Sums`,
`Ordering` and `Text`.

## Properties that do not hold

Each has a concrete counterexample, and a theorem that says exactly when the property does hold.

- The browser does not accept every Retry-After value (`Limiter.BackwardClockLeavesClientRange`); it does exactly
  when the oldest live admission is not in the future (`Limiter.ClientAcceptsRetryAfter`).
- A session is not always accepted when its lifetimes say so (`Sessions.BackwardClockBreaksThePromise`); the exact
  rule for any clock is `Sessions.AuthenticateIsExact`.
- A preview that reports a minimum-power violation may have a schedule (`PreviewGrid.ViolationIsNotInfeasibility`);
  when the fill succeeds and when a schedule exists are `PreviewGrid.FillSucceedsExactly` and
  `PreviewGrid.ScheduleExists`.
- Base64url decoding is not one-to-one (`Codec.TwoStringsOneByte`); which strings are encodings is
  `Codec.ReencodesExactly`.
- The decimal and the integer derivation of a line can differ beyond 28 digits (`Decimals.GoldenLinesPart`), and
  the decimal one can refuse; exactly when is `Decimals.RoundRatioIsExact`, and for whole lines
  `Decimals.DerivedLineIsExact`.
- A terminal job can have an open attempt (`Jobs.CancelLeavesAttemptOpen`); exactly when is
  `Jobs.OpenAttemptsOfTerminalJobs`.

## Model

| member | source | states |
|---|---|---|
| `Limiter.SlidingWindowRateLimiter.constructor` | apps/api/ratereplay_api/abuse.py:27-54 | a new limiter has no buckets and holds its configuration |
| `Limiter.SlidingWindowRateLimiter.Create` | apps/api/ratereplay_api/abuse.py:27-54 | refused exactly by the argument checks; otherwise an empty limiter holding the given configuration |
| `Limiter.SlidingWindowRateLimiter.DiscardExpired` | apps/api/ratereplay_api/abuse.py:96-104 | the in-place purge leaves exactly the times after the cutoff and no empty bucket |
| `Limiter.SlidingWindowRateLimiter.Check` | apps/api/ratereplay_api/abuse.py:62-94 | one call is one step: purge, route, refuse or append, and nothing else changes |
| `Limiter.SlidingWindowRateLimiter.SelectBucket` | apps/api/ratereplay_api/abuse.py:69-74 | the routing rule: own bucket while there is one or room for one, else the shared bucket |
| `Limiter.SlidingWindowRateLimiter.ChargeBucket` | apps/api/ratereplay_api/abuse.py:74-94 | a full bucket refuses with its Retry-After and is not charged; otherwise the time is appended |
| `Limiter.StepKeepsBounded` | apps/api/ratereplay_api/abuse.py:67-84 | under any clock, at most the maximum number of buckets, one place reserved, none empty or over the limit |
| `Limiter.RunIsBounded` | apps/api/ratereplay_api/abuse.py:62-104 | the same memory bound after every run of calls, even with a decreasing clock |
| `Limiter.RunRefinesLog` | apps/api/ratereplay_api/abuse.py:62-104 | with a nondecreasing clock the retained map is exactly the live part of the complete admission log |
| `Limiter.DecisionsRefineLog` | apps/api/ratereplay_api/abuse.py:62-94 | every bucket, admission and refusal equals that of a limiter that scans the whole unbounded log and states the routing rule by free direct places |
| `Limiter.ChargedExactly` | apps/api/ratereplay_api/abuse.py:67-84 | a call is charged to its own bucket exactly when that bucket has a live admission, is the shared one or a direct place is free, else to the shared one, and admitted exactly when fewer than `limit` live admissions were charged there |
| `Limiter.RunLogIsLogRun` | apps/api/ratereplay_api/abuse.py:62-94 | the bounded limiter and the log-scanning limiter admit the same calls to the same buckets over a run |
| `Limiter.RejectionsAreFree` | apps/api/ratereplay_api/abuse.py:76-94 | deleting a refused call from a run changes no later admission |
| `Limiter.BucketBound` | apps/api/ratereplay_api/abuse.py:76-84 | in any window at most `limit` admissions enter one bucket |
| `Limiter.IdentifierBound` | apps/api/ratereplay_api/abuse.py:67-84 | in any window at most twice `limit` admissions belong to one identifier |
| `Limiter.TotalBound` | apps/api/ratereplay_api/abuse.py:67-84 | in any window at most `maximum_identifiers` times `limit` admissions in all |
| `Limiter.AdmissionBounds` | apps/api/ratereplay_api/abuse.py:62-94 | the three bounds for the log that the limiter itself produces |
| `Limiter.IdentifierBoundIsReached` | apps/api/ratereplay_api/abuse.py:67-84 | the factor two is attained by a concrete run |
| `Limiter.RetryAfterExact` | apps/api/ratereplay_api/abuse.py:76-94 | for every run and clock, the value sent is the least number of seconds after which the refusing bucket has room |
| `Limiter.RetryAfterWithinWindow` | apps/api/ratereplay_api/abuse.py:76-94 | with a nondecreasing clock it lies between 1 and the window in whole seconds |
| `Limiter.ClientAcceptsRetryAfter` | apps/web/src/api.ts:77-83 | a one-minute limiter's value is accepted by the browser exactly when the oldest live time is not in the future |
| `Limiter.ClientAcceptsOnForwardClock` | apps/api/ratereplay_api/main.py:105-134 | for the one-minute limiters the browser accepts every value sent under a nondecreasing clock |
| `Limiter.BackwardClockLeavesClientRange` | apps/web/src/api.ts:77-83 | a clock stepped back two seconds makes the limiter send 62, which the browser ignores |
| `Limiter.HeaderIsRead` | apps/web/src/api.ts:77-83 | the headers the browser accepts are exactly the decimal notations of 1 to 60, after any number of zeros |
| `Sessions.AuthService.Create` | apps/api/ratereplay_api/auth.py:109-127 | refused exactly for a session key shorter than 32 bytes; otherwise a service with no accounts and no sessions |
| `Sessions.AuthService.CreateSession` | apps/api/ratereplay_api/auth.py:141-182 | a new session row with both lifetimes counted from now |
| `Sessions.AuthService.RegisterAccount` | apps/api/ratereplay_api/auth.py:184-214 | registration is one step: a taken name changes nothing, else account and session appear together |
| `Sessions.AuthService.LogIn` | apps/api/ratereplay_api/auth.py:216-248 | login is one step: wrong credentials change nothing; a presented prior session is revoked, then a session is created |
| `Sessions.AuthService.AuthenticateSession` | apps/api/ratereplay_api/auth.py:250-281 | authenticate is one step: activity gate, expiry with revocation, sliding extension capped by the absolute expiry |
| `Sessions.AuthService.LogOut` | apps/api/ratereplay_api/auth.py:294-309 | logout is one step: it revokes a session that is not yet revoked |
| `Sessions.SessionsAgree` | apps/api/ratereplay_api/auth.py:141-309 | under any clock each session row, with its owner, last use, expiries and time of revocation, is what the history of events determines |
| `Sessions.AuthenticateIsExact` | apps/api/ratereplay_api/auth.py:250-281 | under any clock, accepted exactly when the history promises it and no earlier attempt found the session expired |
| `Sessions.AnswersArePromised` | apps/api/ratereplay_api/auth.py:184-309 | under any clock every answer, with its owner and both expiries or its refusal, is the one the history of events calls for |
| `Sessions.AuthenticateRefinesHistory` | apps/api/ratereplay_api/auth.py:250-281 | under a nondecreasing clock, accepted iff active account, not logged out or replaced, before creation + 24 h and before last acceptance + 30 min |
| `Sessions.LapsedIsExpired` | apps/api/ratereplay_api/auth.py:262-270 | under a nondecreasing clock a session once found expired is expired at every later time |
| `Sessions.BackwardClockBreaksThePromise` | apps/api/ratereplay_api/auth.py:262-270 | with a clock running backwards the promise fails: a concrete history |
| `Sessions.RevocationIsWrittenOnce` | apps/api/ratereplay_api/auth.py:244-300 | under any clock rows persist, owner and absolute expiry are fixed, and a revoked row never changes |
| `Sessions.RejectionIsPermanent` | apps/api/ratereplay_api/auth.py:262-270 | a session refused while its account is active is refused forever, even if the clock runs back |
| `Preview.FindBoundary` | apps/web/src/ScenarioWorkspace.tsx:832-856 | the first slot that starts at the instant, or for a deadline that no slot starts at, the end of the last slot; nothing exactly when there is none |
| `Preview.BoundaryIsExact` | apps/web/src/ScenarioWorkspace.tsx:832-856 | an index is the boundary exactly when no earlier slot starts at the instant and it does |
| `Preview.GreedyDominates` | apps/web/src/ScenarioWorkspace.tsx:651-675 | at every slot the greedy fill has delivered at least as much as any schedule within maximum power |
| `Preview.GreedyFinishesFirst` | apps/web/src/ScenarioWorkspace.tsx:651-675 | so it is finished no later than any of them |
| `Preview.RoomIsExact` | apps/web/src/ScenarioWorkspace.tsx:656-662 | a vector fits the room of the slots exactly when it stays in the window and within maximum power |
| `Preview.FillDominates` | apps/web/src/ScenarioWorkspace.tsx:651-675 | the fill delivers the energy within maximum power whenever any schedule does, and is ahead of each of them at every slot |
| `Preview.GreedyFits` | apps/web/src/ScenarioWorkspace.tsx:651-675 | the greedy fill delivers what is required, or all that fits |
| `Preview.TooSmallMeansInfeasible` | apps/web/src/ScenarioWorkspace.tsx:676-680 | when the room is too small no schedule within maximum power delivers the energy |
| `Preview.FillReference` | apps/web/src/ScenarioWorkspace.tsx:651-680 | success exactly when the room suffices and the greedy vector meets minimum power; the two failures are told apart exactly |
| `Preview.PlaceShape` | apps/web/src/ScenarioWorkspace.tsx:641-649 | the spliced shape, zero elsewhere |
| `Preview.BuildReference` | apps/web/src/ScenarioWorkspace.tsx:640-681 | either reference is built exactly when it exists |
| `Preview.CheckReference` | apps/web/src/ScenarioWorkspace.tsx:690-733 | accepted exactly when the background is nonnegative, both caps hold everywhere and a shift is attested |
| `Preview.BuildPreview` | apps/web/src/ScenarioWorkspace.tsx:572-808 | a request exactly for an acceptable form; its window is the one asked for and its reference starts there; totals reconcile; a refused form is refused for the first check that fails |
| `Preview.ComputeTotals` | apps/web/src/ScenarioWorkspace.tsx:797-807 | the four displayed totals are the sums over the slots |
| `Preview.ShownReconciles` | apps/web/src/ScenarioWorkspace.tsx:797-807 | the totals of a shown preview add up: the reference moves or adds exactly the required energy |
| `Preview.ReferenceExecutes` | apps/web/src/ScenarioWorkspace.tsx:640-681 | the reference sums to the required energy, stays in the window and is executable by the load |
| `PreviewServer.AdmittedExactly` | packages/optimizer/ratereplay_optimizer/scenario.py:263-333 | the server admits the request of an accepted preview exactly when its slots form a uniform, contiguous grid |
| `PreviewServer.SendPreview` | apps/web/src/ScenarioWorkspace.tsx:572-808 | browser and server composed: what is sent says what the form says, and is admitted exactly on a uniform grid |
| `PreviewServer.RequestAsks` | apps/web/src/ScenarioWorkspace.tsx:757-796 | the request has the mode, load, instants, energy, reference and caps of the form |
| `PreviewGrid.FillSucceedsExactly` | apps/web/src/ScenarioWorkspace.tsx:651-680 | on a uniform grid: exactly when the needed slots fit, and a full slot and the remainder meet minimum power where they occur |
| `PreviewGrid.ScheduleExists` | apps/web/src/ScenarioWorkspace.tsx:651-680 | on a uniform grid a schedule exists exactly when the least number of slots fits and its minimum does not exceed the energy |
| `PreviewGrid.ViolationIsNotInfeasibility` | apps/web/src/ScenarioWorkspace.tsx:663-672 | "minimum power violated" does not mean infeasible: a concrete window with a schedule |
| `Ordering.Rank` | scripts/generate_demo_profile.py:63-67 | insertion by any strict total order lists every index once, in that order |
| `Apportion.RankByRemainder` | scripts/generate_demo_profile.py:63-67 | the ranking lists every index once, larger remainder first, then smaller index |
| `Apportion.HandOut` | scripts/generate_demo_profile.py:68-69 | the in-place increments add one to exactly the first indices of the ranking |
| `Apportion.Allocate` | scripts/generate_demo_profile.py:58-72 | floors plus increments are a largest-remainder allocation with the exact total |
| `Apportion.AllocateIntegerWh` | scripts/generate_demo_profile.py:54-72 | only an empty shape is refused; the conservation check can never fail |
| `Apportion.RemainderCount` | scripts/generate_demo_profile.py:62 | the number of increments is always between 0 and n - 1 |
| `Apportion.AllocationIsUnique` | scripts/generate_demo_profile.py:63-69 | there is only one allocation that follows the ranking |
| `Apportion.WithinQuota` | scripts/generate_demo_profile.py:58-69 | every share is the floor or the ceiling of its exact quota |
| `Apportion.WholeQuotaIsExact` | scripts/generate_demo_profile.py:58-69 | a whole quota is given exactly |
| `Apportion.NothingDue` | scripts/generate_demo_profile.py:58-69 | a zero weight receives nothing |
| `Apportion.LargerWeightGetsNoLess` | scripts/generate_demo_profile.py:58-69 | a strictly larger weight never receives fewer units |
| `Apportion.UnitsGoFirst` | scripts/generate_demo_profile.py:63-69 | extra units go to the larger remainder first, and of equal remainders to the smaller index |
| `Apportion.AllocationIsOptimal` | scripts/generate_demo_profile.py:58-69 | no integer vector with the same total has a smaller sum of absolute deviations from the quotas |
| `Apportion.PositiveKeys` | packages/tariffs/ratereplay_tariffs/billing.py:626 | the keys with positive weight, in increasing order |
| `Apportion.ApportionInteger` | packages/tariffs/ratereplay_tariffs/billing.py:625-650 | only a nonzero total without positive weight is refused; otherwise the magnitude is allocated over the positive weights and signed |
| `Apportion.ApportionConserves` | packages/tariffs/ratereplay_tariffs/billing.py:625-650 | the days are given the signed total, each with its sign |
| `Apportion.EarlierDayFirst` | packages/tariffs/ratereplay_tariffs/billing.py:640-648 | of two days with equal remainders the earlier is never the only one without an extra unit |
| `Apportion.ImplementationsAgree` | packages/tariffs/ratereplay_tariffs/billing.py:625-650 | both implementations give the same shares: zero weights may be dropped first |
| `Pagination.TopIsSorted` | apps/api/ratereplay_api/import_routes.py:359-363 | ordering and limit: sorted, from the set, complete up to the limit |
| `Pagination.PageIsExact` | apps/api/ratereplay_api/import_routes.py:338-368 | a page holds everything that remains down to its next cursor, and everything if it has none |
| `Pagination.ListedExactly` | apps/api/ratereplay_api/import_routes.py:340-357 | what a user is shown: exactly their own active profiles of their own active imports |
| `Pagination.NewestFirst` | apps/api/ratereplay_api/import_routes.py:359-363 | the order of a page: newest first, then the greater id |
| `Pagination.NothingTwice` | apps/api/ratereplay_api/import_routes.py:338-372 | whatever changes between requests, keys only go down and each was visible when returned |
| `Pagination.NothingSkipped` | apps/api/ratereplay_api/import_routes.py:338-372 | a profile listed throughout a finished traversal is returned, whatever else changes |
| `Pagination.TraversalIsComplete` | apps/api/ratereplay_api/import_routes.py:338-372 | over one table any page sizes return each listed profile exactly once, descending |
| `Pagination.TraversalFinishes` | apps/api/ratereplay_api/import_routes.py:364-368 | over one table the cursor becomes null within one request more than there are profiles |
| `Codec.RoundTrip` | apps/api/ratereplay_api/import_routes.py:423-437 | encode, strip, re-pad and decode is the identity on every byte string |
| `Codec.AlphabetIsListed` | apps/api/ratereplay_api/import_routes.py:423-431 | the symbols are those of RFC 4648, in order |
| `Codec.QuadIsNumber` | apps/api/ratereplay_api/import_routes.py:423-431 | four symbols write the number of three bytes, most significant first |
| `Codec.StripIsUndone` | apps/api/ratereplay_api/import_routes.py:430-434 | re-padding undoes stripping, with the exact length and only URL-safe symbols |
| `Codec.ReencodesExactly` | apps/api/ratereplay_api/import_routes.py:433-437 | a decodable string is an encoding exactly when URL-safe with zero unused bits |
| `Codec.TwoStringsOneByte` | apps/api/ratereplay_api/import_routes.py:433-437 | decoding is not one-to-one: a concrete pair |
| `Codec.CursorIsExact` | apps/api/ratereplay_api/import_routes.py:433-454 | a cursor is accepted exactly when it decodes to a payload and its signature and the payload reads as a key with a 32-character id; that key comes back |
| `Codec.CursorRoundTrip` | apps/api/ratereplay_api/import_routes.py:423-454 | a cursor the server wrote for a profile is read as written |
| `Codec.ReceiptAcceptedExactly` | apps/api/ratereplay_api/deletion_routes.py:54-75 | the server accepts exactly 43 readable symbols, in either alphabet |
| `Codec.RecognisedExactly` | apps/web/src/PrivacyControls.tsx:526-535 | the browser recognises exactly what the server accepts in the URL-safe alphabet |
| `Codec.SecretArrives` | apps/web/src/PrivacyControls.tsx:526-535 | 32 bytes leave the browser as 43 recognised symbols and arrive as the same bytes |
| `Codec.ReplacedIsUrl` | apps/web/src/PrivacyControls.tsx:530-534 | replacing two symbols of standard base64 gives the URL-safe form |
| `Oracle.ListCompositions` | scripts/qualify_m4.py:112-118 | the list version returns the enumeration |
| `Oracle.YieldCompositions` | scripts/qualify_m8_correctness.py:336-342 | the generator yields the same sequence |
| `Oracle.CompositionsAreComplete` | scripts/qualify_m4.py:112-118 | exactly the nonnegative tuples of that length and sum |
| `Oracle.CompositionsIncrease` | scripts/qualify_m4.py:112-118 | strictly increasing lexicographically, so none twice |
| `Oracle.CompositionCount` | scripts/qualify_m4.py:112-118 | as many as the binomial coefficient |
| `Oracle.Minimum` | scripts/qualify_m4.py:175 | a member that no member is below |
| `Oracle.RunOracle` | scripts/qualify_m4.py:171-176 | for any cost, the least objective of any feasible tuple and exactly its attainers |
| `Oracle.CheapestReferenceIsKept` | scripts/qualify_m8_correctness.py:464-469 | if no tuple is cheaper than the reference, the optimum set is the reference alone |
| `OracleAgreement.AdmittedIsEnumerated` | scripts/qualify_m8_correctness.py:345-388 | on the oracle's scenarios the admitted schedules are exactly the enumerated tuples |
| `OracleAgreement.ScriptScenarioIsReady` | scripts/qualify_m8_correctness.py:345-389 | every scenario the script builds, from any reference, meets the conditions of the comparison |
| `OracleAgreement.ScoreIsObjective` | scripts/qualify_m8_correctness.py:428-444 | script and verifier score a schedule alike |
| `OracleAgreement.ExactMatchesOracle` | scripts/qualify_m4.py:175-192 | a proved optimum has the oracle's objective and lies in its optimum set, so the comparisons cannot fail |
| `Rounding.HalfUpIsNearest` | scripts/validate_m3_goldens.py:44-49 | `_half_up` is the nearest integer, ties away from zero, and only that integer |
| `Rounding.HalfUpIsOdd` | scripts/validate_m3_goldens.py:44-49 | rounding commutes with negation |
| `Rounding.HalfUpIsMonotone` | scripts/validate_m3_goldens.py:44-49 | rounding is monotone |
| `Rounding.HalfUpIgnoresScale` | packages/tariffs/ratereplay_tariffs/ir.py:106-113 | reducing the fraction does not matter |
| `Rounding.HalfUpByFloor` | packages/optimizer/ratereplay_optimizer/lowering.py:481-502 | adding half and dividing rounds half up |
| `Rounding.LineErrorBound` | scripts/validate_m3_goldens.py:122-142 | a line is within half a cent |
| `Rounding.BillErrorBound` | scripts/validate_m3_goldens.py:122-145 | a bill of n lines is within n half-cents of its exact total |
| `Decimals.DropDigitsIsHalfUp` | benchmarks/reference/m8_golden_derivations.py:28-30 | quantizing by the first dropped digit rounds half up |
| `Decimals.RoundRatioMeans` | benchmarks/reference/m8_golden_derivations.py:28-30 | the decimal division and quantization, as arithmetic: round to 28 digits half-even, then to cents half up, or refuse |
| `Decimals.RoundRatioIsExact` | benchmarks/reference/m8_golden_derivations.py:28-30 | for every numerator and every power of ten: refused exactly when the result needs more than 28 digits, and equal to integer rounding exactly when the number does not part (a condition on its digits alone) |
| `Decimals.RoundRatioAgrees` | benchmarks/reference/m8_golden_derivations.py:28-30 | numerators of up to 28 digits are never refused and never part |
| `Decimals.DerivedLineIsExact` | benchmarks/reference/m8_golden_derivations.py:33-61 | every derived line: refused exactly on more than 28 digits of cents, and equal to the integer derivation exactly when it does not part |
| `Decimals.PartsDownward` | benchmarks/reference/m8_golden_derivations.py:28-30 | for every power of ten there is a half after an even cent that the first rounding drops |
| `Decimals.GoldenLinesPart` | benchmarks/reference/m8_golden_derivations.py:33-61 | three concrete lines on which the two derivations differ |
| `Tiling.ProfileIntervals` | apps/api/ratereplay_api/replay_routes.py:174-200 | accepted exactly when the readings are imports covering each instant of the period once |
| `Tiling.ChainedIffTiled` | apps/api/ratereplay_api/comparison_routes.py:116-142 | for selected readings an unbroken chain and an exact cover are the same |
| `Tiling.ProfileSlots` | apps/api/ratereplay_api/scenario_routes.py:135-162 | accepted exactly for a tiling from a whole second with readings of at most an hour; same tiling, same energy |
| `Ranks.GateIsExact` | scripts/qualify_m8_release.py:95-96 | the percentile is within the threshold exactly when that share of samples is |
| `Ranks.PercentilesAreOrdered` | benchmarks/scripts/m8_performance.py:282-284 | percentiles are ordered and the greatest sample, which is attained, bounds them all |
| `Ranks.NearestRankIgnoresOrder` | benchmarks/scripts/m8_performance.py:282-284 | the order of the samples does not matter |
| `Ranks.PassedIsExact` | scripts/qualify_m8_release.py:121 | passed exactly when all hashes agree and 95 of 100 samples are within the threshold |
| `Ranks.LastIsMaximum` | scripts/qualify_m8_release.py:108 | the last sorted sample is a sample, and no sample is larger |
| `Ranks.SortPermutes` | scripts/qualify_m8_release.py:95-96 | sorting only rearranges the samples |
| `Ranks.NearestRankIsSample` | benchmarks/scripts/m8_performance.py:282-284 | every reported percentile is one of the samples |
| `Billing.EvaluateTiers` | packages/tariffs/ratereplay_tariffs/billing.py:941-988 | the tier loop computes the tier lines, with the same refusals |
| `Billing.TiersPartition` | packages/tariffs/ratereplay_tariffs/billing.py:943-988 | the tiers hold exactly the energy, none a negative amount |
| `Billing.TiersAreMarginal` | packages/tariffs/ratereplay_tariffs/billing.py:943-988 | the tiers up to the j-th hold the lesser of the energy and that tier's bound |
| `Billing.PeriodTotals` | packages/tariffs/ratereplay_tariffs/billing.py:600-622 | every period's energy, unless an interval cannot be classified |
| `Billing.EvaluatePeriods` | packages/tariffs/ratereplay_tariffs/billing.py:1003-1025 | one line for each rate whose period has energy |
| `Billing.EvaluateRule` | packages/tariffs/ratereplay_tariffs/billing.py:936-1090 | the lines of one operator |
| `Billing.ReplayCompiledTariff` | packages/tariffs/ratereplay_tariffs/billing.py:919-1091 | the whole bill, with the same refusals in the same order |
| `BillMeaning.BaselineExactly` | packages/tariffs/ratereplay_tariffs/billing.py:523-542 | the baseline is the daily allowance of the only one that applies, times the billing days; refused exactly when there is no such one |
| `BillMeaning.TiersEnd` | packages/tariffs/ratereplay_tariffs/billing.py:941-988 | the tier loop ends where the marks between the tiers say: all energy placed, a bound that is not whole, bounds that cross, or energy left over |
| `BillMeaning.TiersHold` | packages/tariffs/ratereplay_tariffs/billing.py:943-988 | up to a tier the lines hold the lesser of the energy and its share of the daily allowance over the billing days |
| `BillMeaning.RuleMeans` | packages/tariffs/ratereplay_tariffs/billing.py:936-1090 | every rule has the block of lines its terms determine in closed form, each with its own quantity, rate and rounding, or the reason it gives for having none |
| `BillMeaning.OneBlock` | packages/tariffs/ratereplay_tariffs/billing.py:936-1090 | a rule has only one such block, and none when it fails |
| `BillMeaning.ReplayMeans` | packages/tariffs/ratereplay_tariffs/billing.py:919-1091 | the bill is the blocks of all rules in order, or the reason of the first that fails |
| `BillMeaning.ReplayRefuses` | packages/tariffs/ratereplay_tariffs/billing.py:908-934 | the refusals before any rule, each exactly when its condition holds and the earlier ones do not |
| `BillTotals.ReplayErrorBound` | packages/tariffs/ratereplay_tariffs/billing.py:487-519 | every bill is within half a cent per line of the exact sum of its own lines |
| `BillTotals.PeriodsPartition` | packages/tariffs/ratereplay_tariffs/billing.py:1003-1025 | the period lines and the energy of periods without a rate make up all of the energy, so the lines alone do exactly when there is none |
| `BillTotals.UnpricedIsZero` | packages/tariffs/ratereplay_tariffs/billing.py:1003-1025 | there is none exactly when every slot that used energy falls into a priced period |
| `BillSplit.BillSplits` | packages/optimizer/ratereplay_optimizer/lowering.py:317-437 | bills of two placements of the same energy differ only in their time-of-use lines |
| `BillSplit.ConstantCostIsExact` | packages/optimizer/ratereplay_optimizer/lowering.py:623-633 | constant plus variable part is the fresh bill of any placement, to the cent |
| `Scenarios.ProfileEnergyIsInvariant` | packages/optimizer/ratereplay_optimizer/lowering.py:532-534 | every admitted schedule has the same total energy |
| `Scenarios.InstantIsBoundary` | packages/optimizer/ratereplay_optimizer/scenario.py:83-113 | on contiguous slots the boundary table is the inverse of the instants |
| `Scenarios.WindowIsExact` | packages/optimizer/ratereplay_optimizer/scenario.py:83-113 | on contiguous slots an occurrence has exactly the window that begins and ends at its instants |
| `Scenarios.AlignedExactly` | packages/optimizer/ratereplay_optimizer/scenario.py:116-146 | a schedule is aligned exactly when it is the slots of the profile with energies written into them |
| `Admission.CheckInterruptible` | packages/optimizer/ratereplay_optimizer/scenario.py:149-178 | accepted exactly when window and power limits hold in every slot |
| `Admission.CheckFixedShape` | packages/optimizer/ratereplay_optimizer/scenario.py:181-207 | accepted exactly when the vector is the shape at some start |
| `Admission.CheckExecution` | packages/optimizer/ratereplay_optimizer/verification.py:244-302 | accepted exactly when the vector is feasible for the occurrence |
| `Admission.CheckGrid` | packages/optimizer/ratereplay_optimizer/scenario.py:33-49 | accepted exactly for uniform, contiguous slots |
| `Admission.CheckOccurrence` | packages/optimizer/ratereplay_optimizer/scenario.py:210-222 | window, alignment and execution, accepted exactly when all hold |
| `Admission.CheckCaps` | packages/optimizer/ratereplay_optimizer/scenario.py:238-260 | accepted exactly when both caps hold in every slot |
| `Admission.Decompose` | packages/optimizer/ratereplay_optimizer/scenario.py:283-323 | the parts add up to the measured and to the resulting profile |
| `Admission.ValidateAndDecompose` | packages/optimizer/ratereplay_optimizer/scenario.py:263-333 | accepted exactly when identities are distinct, occurrences apart and the reference is an admitted schedule over a nonnegative background; else refused for the first check that fails |
| `Identities.CheckIdentities` | packages/optimizer/ratereplay_optimizer/scenario.py:52-62 | accepted exactly when load ids, assets and occurrence ids are each distinct; the first kind that is not is reported |
| `Identities.CheckLoad` | packages/optimizer/ratereplay_optimizer/verification.py:215-241 | neighbours in start order are apart exactly when all occurrences of the load are |
| `Identities.NeighboursSuffice` | packages/optimizer/ratereplay_optimizer/scenario.py:64-81 | in start order, neighbours that do not overlap are enough for none to overlap |
| `Identities.ApartExactly` | packages/optimizer/ratereplay_optimizer/scenario.py:64-81 | two windows are apart exactly when no instant lies in both |
| `Identities.DisjointExactly` | packages/optimizer/ratereplay_optimizer/verification.py:215-241 | occurrences are disjoint exactly when one load never has two at one instant |
| `Identities.CheckDisjoint` | packages/optimizer/ratereplay_optimizer/scenario.py:64-81 | accepted exactly when no two occurrences of one load overlap, for either sort key |
| `Lowering.InterruptibleMeaning` | packages/optimizer/ratereplay_optimizer/lowering.py:229-254 | the interruptible constraints say exactly that the load can execute the vector |
| `Lowering.ShapeMeaning` | packages/optimizer/ratereplay_optimizer/lowering.py:255-284 | the fixed-shape constraints say exactly that the vector is the shape at the chosen start |
| `Lowering.CompletionMeaning` | packages/optimizer/ratereplay_optimizer/lowering.py:583-592 | the completion variable is the last active slot |
| `Lowering.TaskMeaning` | packages/optimizer/ratereplay_optimizer/lowering.py:561-592 | one occurrence's constraints hold exactly for feasible vectors with their auxiliary values |
| `LoweredModel.CapRowsMeaning` | packages/optimizer/ratereplay_optimizer/lowering.py:597-618 | the cap constraints hold exactly within the caps |
| `LoweredModel.DivisionIsHalfUp` | packages/optimizer/ratereplay_optimizer/lowering.py:481-502 | solver division is the evaluator's half-up rounding |
| `Compiler.PricedExactly` | packages/optimizer/ratereplay_optimizer/lowering.py:455-470 | a time charge prices a schedule exactly when no energy of any profile is left without a rate |
| `LoweredModel.LoweredMeaning` | packages/optimizer/ratereplay_optimizer/lowering.py:554-662 | the model's solutions are exactly the feasible, capped, correctly priced schedules |
| `LoweredModel.CostTermsValue` | packages/optimizer/ratereplay_optimizer/lowering.py:634-662 | the cost expression is the variable part of the bill |
| `LoweredModel.ChangedTermsValue` | packages/optimizer/ratereplay_optimizer/lowering.py:663 | the changed expression counts changed slots |
| `LoweredModel.CompletionVarsValue` | packages/optimizer/ratereplay_optimizer/lowering.py:664 | the completion expression sums last active slots |
| `LoweredModel.StableTermsValue` | packages/optimizer/ratereplay_optimizer/lowering.py:665 | the stable expression is the position-weighted energy |
| `Exactness.AdmittedBill` | packages/optimizer/ratereplay_optimizer/lowering.py:623-633 | every admitted schedule can be billed, at constant plus variable cents |
| `Exactness.LoweringIsSound` | packages/optimizer/ratereplay_optimizer/lowering.py:505-755 | every solution is an admitted schedule with a fresh bill, and the four expressions are the verifier's four numbers |
| `Exactness.LoweringIsComplete` | packages/optimizer/ratereplay_optimizer/lowering.py:505-755 | every admitted schedule is a solution |
| `Compiler.CpModel.AddInterruptible` | packages/optimizer/ratereplay_optimizer/lowering.py:229-254 | appends exactly the interruptible constraints |
| `Compiler.CpModel.AddFixedShape` | packages/optimizer/ratereplay_optimizer/lowering.py:255-284 | appends exactly the fixed-shape constraints |
| `Compiler.CpModel.AddTask` | packages/optimizer/ratereplay_optimizer/lowering.py:561-592 | appends one occurrence's constraints, or refuses a shape without a start |
| `Compiler.CpModel.AddCaps` | packages/optimizer/ratereplay_optimizer/lowering.py:597-618 | appends exactly the cap constraints |
| `Compiler.CpModel.AddRates` | packages/optimizer/ratereplay_optimizer/lowering.py:637-656 | appends the quantity and rounding constraints of one rule |
| `Compiler.CheckLowerable` | packages/optimizer/ratereplay_optimizer/lowering.py:440-478 | refused exactly when a time charge does not resolve or leaves a slot unpriced |
| `Compiler.CompileTasks` | packages/optimizer/ratereplay_optimizer/lowering.py:561-592 | the occurrences' constraints, refused exactly when a shape has no start |
| `Compiler.CompileScenarioModel` | packages/optimizer/ratereplay_optimizer/lowering.py:505-662 | refused exactly when a slot cannot be priced or a shape has no start, with the first reason; otherwise exactly the lowered model |
| `Bounds.ComputeBounds` | packages/optimizer/ratereplay_optimizer/lowering.py:634-698 | the objective bounds, refused exactly when one of them leaves the signed 64-bit range |
| `Bounds.ScoreWithinBounds` | packages/optimizer/ratereplay_optimizer/lowering.py:634-713 | the four objective values of every admitted schedule lie within the bounds |
| `Bounds.NoObjectiveOverflows` | packages/optimizer/ratereplay_optimizer/lowering.py:690-698 | when the bounds pass, every solution's four objective expressions are signed 64-bit numbers |
| `Staged.IncumbentSatisfies` | packages/optimizer/ratereplay_optimizer/solver.py:236-288 | whatever the search returns satisfies the model it started from |
| `Staged.StagesAreLexicographic` | packages/optimizer/ratereplay_optimizer/solver.py:236-288 | fixing optima one after another finds the lexicographic minimum of the proved stages |
| `Staged.PrefixesCompare` | packages/optimizer/ratereplay_optimizer/verification.py:532-560 | of two objectives one is less in the components compared, or they agree in all of them |
| `Staged.SearchConcludes` | packages/optimizer/ratereplay_optimizer/solver.py:231-288 | status, incumbent and number of proved stages follow from the solver's answers: one stage for each optimal one, and the first that is not decides the status |
| `Staged.IncumbentsVerify` | packages/optimizer/ratereplay_optimizer/solver.py:139-177 | every incumbent verifies at the solver's own values, and the model is never contradictory |
| `Staged.ProvedMeansOptimal` | packages/optimizer/ratereplay_optimizer/solver.py:267-272 | on the stages proved so far, however many, no admitted schedule has a smaller objective |
| `Staged.PublishedIsVerified` | packages/optimizer/ratereplay_optimizer/verification.py:532-560 | what is published is admitted: the reference unless an incumbent is strictly better, and then nothing worse than the incumbent |
| `Staged.PublishedIsOptimal` | packages/optimizer/ratereplay_optimizer/solver.py:200-330 | no admitted schedule is better than the published one on the proved stages, and with all four proved none is better at all |
| `Optimizer.CheckVerifierGrid` | packages/optimizer/ratereplay_optimizer/verification.py:85-115 | accepted exactly for the verifier's stricter grid |
| `Optimizer.ComputeBackground` | packages/optimizer/ratereplay_optimizer/verification.py:305-329 | the background, exactly when references align and nothing is negative |
| `Optimizer.ScoreRow` | packages/optimizer/ratereplay_optimizer/verification.py:366-396 | changed slots, last active slot and weighted energy of one occurrence |
| `Optimizer.ComputeObjective` | packages/optimizer/ratereplay_optimizer/verification.py:366-396 | one pass computes the three counted objectives |
| `Optimizer.CheckTasks` | packages/optimizer/ratereplay_optimizer/verification.py:440-449 | accepted exactly when every occurrence verifies; the flexible energy is their sum |
| `Optimizer.CheckScenario` | packages/optimizer/ratereplay_optimizer/verification.py:215-241 | grid, identities and disjointness, accepted exactly when all hold |
| `Optimizer.ScheduleMap` | packages/optimizer/ratereplay_optimizer/verification.py:118-138 | submitted schedules are looked up by occurrence id, refused exactly when the ids are not those of the scenario, once each |
| `Optimizer.VerifySchedules` | packages/optimizer/ratereplay_optimizer/verification.py:440-529 | schedules in task order are accepted exactly when they verify, with the recomputed objective; else rejected for the first check that fails |
| `Optimizer.VerifyCandidate` | packages/optimizer/ratereplay_optimizer/verification.py:420-529 | in whatever order the schedules are submitted, accepted exactly when they verify, with the objective recomputed from them alone; else rejected for the first check that fails |
| `Optimizer.VerifyInOrder` | packages/optimizer/ratereplay_optimizer/verification.py:420-529 | a candidate submitted in task order is judged as its schedules are |
| `Optimizer.OneTaskOrder` | packages/optimizer/ratereplay_optimizer/verification.py:118-138 | a submission has only one arrangement in task order |
| `Optimizer.ComputeConstant` | packages/optimizer/ratereplay_optimizer/lowering.py:623-633 | the reference bill without the lines the lowering makes variable |
| `Optimizer.VerifySolverIncumbent` | packages/optimizer/ratereplay_optimizer/solver.py:139-177 | accepted exactly when the candidate verifies at the claimed cost and all four values agree |
| `Optimizer.SearchStages` | packages/optimizer/ratereplay_optimizer/solver.py:231-288 | the stage loop is the staged search, with every incumbent verified |
| `Optimizer.OptimizeExact` | packages/optimizer/ratereplay_optimizer/solver.py:200-330 | fails only when the reference does not verify or a slot cannot be priced; otherwise publishes the selected schedule with its recomputed objective |
| `Jobs.JobService.constructor` | packages/persistence/ratereplay_persistence/jobs.py:74-76 | no jobs, attempts, scopes or claims |
| `Jobs.JobService.RescueOne` | packages/persistence/ratereplay_persistence/jobs.py:430-478 | one expired lease is one rescue step |
| `Jobs.JobService.RescueExpired` | packages/persistence/ratereplay_persistence/jobs.py:419-479 | every overdue lease is rescued, counted once each, and none is overdue afterwards |
| `Jobs.JobService.FindOldest` | packages/persistence/ratereplay_persistence/jobs.py:97-108 | the waiting job with the least creation time and id |
| `Jobs.JobService.VisitOne` | packages/persistence/ratereplay_persistence/jobs.py:114-177 | one waiting job is fenced, exhausted or leased under a new generation |
| `Jobs.JobService.LeaseNext` | packages/persistence/ratereplay_persistence/jobs.py:78-177 | rescues first, then visits, each of the job that was then the oldest waiting; it ends with a live lease or with nothing waiting |
| `Jobs.JobService.StartLease` | packages/persistence/ratereplay_persistence/jobs.py:481-515 | starts exactly a leased job under its live fence |
| `Jobs.JobService.ExtendLease` | packages/persistence/ratereplay_persistence/jobs.py:233-260 | extends exactly a live lease on a held job |
| `Jobs.JobService.FailLease` | packages/persistence/ratereplay_persistence/jobs.py:262-343 | closes the attempt; retry, failure or fencing exactly as the scope and budget say |
| `Jobs.JobService.CancelJob` | packages/persistence/ratereplay_persistence/jobs.py:345-376 | cancels the owner's job unless it is terminal |
| `Jobs.JobService.CompleteSystemLease` | packages/persistence/ratereplay_persistence/jobs.py:378-417 | an error exactly for a lease that is not retention work; completes exactly a running job under its fence |
| `Jobs.JobService.FinalizeResult` | packages/persistence/ratereplay_persistence/artifacts.py:288-387 | every answer of finalize and the state it leaves: accepted, repeated, already terminal, stale, mismatched, invalid artifacts or missing attempt |
| `Jobs.RunIsValid` | packages/persistence/ratereplay_persistence/jobs.py:78-515 | in every reachable state the generation counts the attempts within the budget and only the current attempt can be open |
| `JobHistory.StateChangesExactly` | packages/persistence/ratereplay_persistence/jobs.py:78-515 | in any state an event brings a job to another state exactly by a table of causes over rows and lease fields, and writes exactly one row |
| `JobHistory.AttemptsChangeExactly` | packages/persistence/ratereplay_persistence/jobs.py:139-150 | attempt records are created by a lease and closed as expired, failed, cancelled or succeeded by exactly what closed them |
| `JobHistory.StateHasCause` | packages/persistence/ratereplay_persistence/jobs.py:78-515 | over every history a job that is leased, running or terminal was brought there by an event of the table |
| `JobHistory.FailedOnlyForCause` | packages/persistence/ratereplay_persistence/jobs.py:300-343 | over every history a job has failed only with its budget used up or after a failure that must not be retried |
| `JobHistory.RetriedAfterDelay` | packages/persistence/ratereplay_persistence/jobs.py:300-343 | a retryable failure with budget left can be leased again exactly from the end of the delay, under the next generation |
| `JobHistory.RescuedAtOnce` | packages/persistence/ratereplay_persistence/jobs.py:430-478 | a lease that ran out with budget left can be leased again at once, under the next generation |
| `JobHistory.AttemptsAreGrants` | packages/persistence/ratereplay_persistence/jobs.py:134-150 | over every history the attempt count and the generation are the number of leases |
| `JobHistory.VisitedIsFirst` | packages/persistence/ratereplay_persistence/jobs.py:97-108 | first come, first served: what leasing visits is due and nothing due of those kinds was created before it |
| `JobHistory.GrantedExactly` | packages/persistence/ratereplay_persistence/jobs.py:114-177 | a visit grants a lease exactly when the job is due, its scopes intact and its budget not used up, and the lease names the new generation |
| `JobHistory.OverdueIsLate` | packages/persistence/ratereplay_persistence/jobs.py:419-430 | the leases that are rescued are exactly the held ones that ran out |
| `Jobs.TerminalIsAbsorbing` | packages/persistence/ratereplay_persistence/jobs.py:345-376 | a terminal job never changes again |
| `Jobs.SupersededLeaseIsInert` | packages/persistence/ratereplay_persistence/jobs.py:522-557 | after a new lease nothing an earlier one attempts has an effect, ever |
| `Jobs.CompletedOnce` | packages/persistence/ratereplay_persistence/artifacts.py:432-468 | a job is completed at most once |
| `Jobs.MovedScopeNeverPublishes` | packages/persistence/ratereplay_persistence/jobs.py:574-617 | once a captured scope has moved on, the job never publishes |
| `Jobs.ClaimsAreWrittenOnce` | packages/persistence/ratereplay_persistence/artifacts.py:338-380 | a claim never changes |
| `JobHistory.ClaimsChangeExactly` | packages/persistence/ratereplay_persistence/artifacts.py:348-380 | a claim is written exactly when a job is finalised for a calculation without one, with that result and job |
| `JobHistory.ClaimsHaveJobs` | packages/persistence/ratereplay_persistence/artifacts.py:360-387 | over every history a claim names a job that succeeded with it |
| `JobHistory.RefusedExactly` | packages/persistence/ratereplay_persistence/artifacts.py:288-347 | each refusal of finalize has exactly one reason and changes nothing |
| `JobHistory.NoAttemptIsMissing` | packages/persistence/ratereplay_persistence/artifacts.py:432-455 | over every history the record of a live attempt is never missing |
| `Jobs.SameCalculationSameResult` | packages/persistence/ratereplay_persistence/artifacts.py:338-347 | jobs of one user that finalised the same calculation have the same result |
| `Jobs.OneAnswerPerCalculation` | packages/persistence/ratereplay_persistence/artifacts.py:288-387 | after a result was accepted, every later accepted answer to that calculation is the same result, marked repeated |
| `Jobs.RepeatIsAnswered` | packages/persistence/ratereplay_persistence/artifacts.py:301-318 | finalising the same job again, at any time, returns the accepted result and changes nothing |
| `Jobs.CancelLeavesAttemptOpen` | packages/persistence/ratereplay_persistence/jobs.py:345-376 | cancelling leaves the attempt record open: a concrete run |
| `Jobs.OpenAttemptsOfTerminalJobs` | packages/persistence/ratereplay_persistence/jobs.py:345-376 | a terminal job has an open attempt exactly when its owner cancelled it while it was held |

## Left out

- Compiler.CompileScenarioModel: does not model the refusal of unequal tariff versions, of the tariff compiler's own lowering report, or the per-slot signed 64-bit checks; the objective bounds are checked by `Bounds.ComputeBounds`, apart from it.
- Optimizer.OptimizeExact: does not model the 64-bit refusals, nor the lower bounds and gaps reported with an unproved stage; the solver's answer is an assignment and a status.
- Optimizer.CheckScenario: reports a clash of identities before an overlap; the source checks load by load, so when a scenario has both it may name the other one.
- Billing.ReplayCompiledTariff: does not model the refusals of the diagnostic allocation to days and slots, which come after the lines are computed; `Apportion.ApportionInteger` models the allocation of one amount.
- Codec.CursorIsExact: the JSON text of a payload is a parameter, as a pair of a writer and a reader.
- Concurrency inside a transaction: every database transaction is one atomic step; row locking and isolation levels are not modelled.
- Cryptography and randomness: digests, signatures, password hashes and tokens are opaque values or functions; fresh tokens are parameters, and a repeated one is refused as the unique index does.
- Floating point: the limiter's `total_seconds`, the preview's division and the percentile product are exact.
- Decimal precision in the profile generator: quotas and ranking keys are exact rationals.
- The heuristic optimizer and its off-peak ranks.
- Applicability rules and time-zone classification: a rule carries whether it applies, an account whether it is eligible and bounded, and a schedule the period of every slot.
- Reconciliation, hashes and manifests of a bill.
- The canonical order of occurrences: tasks are given in that order, and load and occurrence ids are numbers.
- The ownership links between account, import and profile: a job captures a set of scopes with generation and lifecycle; import-row state changes, audit events and retry jitter are not modelled.
- The format checks of finalize on hash, contract version and result identity, artifact staging, orphan sweeps and the integrity-error retry of publication: claims are a table with a unique key, and whether the staged artifacts are those of the attempt is a parameter.
- Session rows removed or revoked by account deletion and retention; usernames and passwords are already canonical.
- The slot counts of the preview and the witnesses attached to its issues.
- Parsing of form fields and HTTP: requests are already parsed values.
- Deletion ledger, restore, backups, imports, reports and the user interface.
- Constructor validation of readings and intervals: durations are positive and energies valid when they reach the tiling loops.
