# Construction twin services: a verified model

Dafny models of the stateful services of a construction digital twin, with proofs about all
their inputs and all their runs. Three parts carry the weight:

- **Critical path analysis** (`cpm.py`). `Nodes`, `TopologicalSort`, `Passes`, `Analysis` and
  `Propagation` are the loops over mutable nodes, each proved against equations on dates
  (`Schedules`) and delays (`Delays`). From the equations alone follow the theorems: early
  dates are the least schedule, exactly when late dates are the greatest and total floats
  right (`LateDates`), free floats and the critical chain (`Floats`), the delay leaving an
  activity is the worst path, and exactly when the reported impact covers, and when it equals,
  the growth of a re-run forward pass (`Chains`, `ExactChains`; simpler where first links bind:
  `Coverage`, `Exactness`).
- **Distributed asset build** (`asset_jobs.py`, `distributed_asset_pipeline.py`,
  `geometry_service.py`). `AssetJobs` gives every committed transaction as a step on the
  stored rows; `AssetInvariants`, `AssetRuns`, `AssetManifests` and `AssetRequests` prove
  what holds in every interleaving of claims, crashes, lease recovery, cancellation and
  resumption; `AssetWorker` proves progress and `AssetResume` which jobs can still be
  completed. `AssetStore.Pipeline` is the same state updated in place by methods with
  the loops of the services, each of which commits exactly the step of its name, with the
  effect on the rows that `AssetEffects` states; its worker loop therefore inherits every
  theorem about runs. `Planner` is the greedy partitioner and `Geometry` the choice between
  exact and proxy meshes.
- **Approval, dispatch and execution of agent actions** (`action_execution.py`,
  `approve_action`). `Actions` holds the row and its commits, `ActionRuns` every interleaving
  of approvals, dispatches, reports, returning calls and crashes.

Three smaller parts: the audit hash chain (`Audit`, `AuditChains`), the fixed-window limiter
(`Limiter`) and the GLB writer against a reader for section 4.4 of the glTF 2.0 specification
(`Glb`).

Times in the network are whole hundredths of a day, the precision every date is rounded to,
so rounding is the identity. Hashes are injective: a cache key is the hashed content itself,
and the audit hash is a parameter without collisions. Clocks, worker names, the order in which
a database offers eligible rows, the answers of remote systems and what fails when are
arguments of the steps, so the theorems hold for all of them.

## What the code does, and what its documentation says

- The backward pass reads a successor's late start only over the first link of a pair, and only
  when that link is finish-to-start; for other links it takes the successor's late finish, and
  its floats can be wrong (`Counterexamples`). For any mix of links, the late dates are the
  greatest schedule, and all total floats exact, if and only if from every activity the
  longest chain to the end, with each pair weighed as the pass reads it, is as long as the
  longest chain by all links (`LateDates.LateIsGreatestIffChainsAgree`,
  `LateDates.FloatsExactIffChainsAgree`). A check of each linked pair is enough for that
  (`LateDates.ReadsRight`), and on two activities it is exact
  (`Counterexamples.PairIsExactIff`). Finish-to-start networks pass it, also with leads up to
  the successor's duration and repeated links whose first has the largest lag; so does a
  finish-to-finish link without lag.
- The reported project impact can hide a slip over a start-to-start link
  (`Counterexamples.StartToStartHidesSlip`) or over the second of two links
  (`Counterexamples.SecondLinkHidesSlip`), and overstate one that the slack of another
  successor masks (`Counterexamples.UnevenSlackOverstates`). For every mix of links it covers
  the growth of the project for all slips if and only if every chain of links has a path to
  the end of the network that passes all activities whose slip moves the chain and holds no
  more free float than the chain leaves to the finish (`Chains.CoversAllSlipsIffChainsFit`).
  It equals the growth for all slips if and only if, besides, chains that no slip shortens meet
  every path to the end and hold the project finish (`ExactChains.ExactForAllSlipsIffMet`): over
  a link that hands on only the start of an activity whose finish is held, a slip can bring the
  project forward unnoticed (`Shortening.ShorteningIsUnnoticed`). If the first link of every
  pair has its largest lag, there are simpler conditions on single activities: for start-driven
  links that the slack fits (`Coverage.CoversAllSlipsIffSlackFits`), and for links driven by the
  predecessor's finish that, besides, every successor can be reached, directly or not, with no
  more slack than the free float (`Exactness.ExactForAllSlipsIffEven`).
- Free float is measured from the finish of an activity by the lag of the first link of a pair.
  For every mix of links it is exact if and only if that measure agrees with the room that all
  links and the finish leave (`Floats.FreeFloatIsExactIffGapsAgree`).
- The comment on the sort says that any activity left over sits in a cycle
  (`apps/api/app/services/cpm.py:130`). Left over are exactly the activities on or behind a
  cycle (`TopologicalSort.TopologicalOrder`), so one that only follows a cycle is reported too
  (`Counterexamples.BehindIsNotOnCycle`).
- A job that crashes while finalizing is never recovered by leases
  (`AssetRuns.FinalizingIsNeverRecovered`); cancelling, recovering and resuming frees it. A job
  whose planning breaks off after a batch was flushed, before its total is set, keeps partitions
  without a total: it can be resumed and built, but never completes
  (`AssetRuns.BrokenPlanNeverCompletes`). From every
  consistent state exactly the other jobs, those with something to build, can still be
  completed, whatever their status and whoever held them, by any one worker alone
  (`AssetResume.CanCompleteIff`).
- The refusal of unfinished partitions in finalization, the re-planning of a job that has
  partitions and the cancellation of partitions of a queued job are unreachable
  (`AssetRuns.RefusalsAreUnreachable`).
- A request joins an active job for the same content, but a resume does not look for one: it
  leaves two active jobs exactly when another is active already
  (`AssetRequests.ResumeSingleFlight`).
- The status of an action is documented as a one-way progression
  (`apps/api/app/domain/models.py:176-183`). Exactly four things move it against that: an
  approval of anything but a proposal, a dry-run report on a dispatched action, and a refusal
  or a final report that arrives while the action is approved (`ActionRuns.StepProgresses`,
  `ActionRuns.RunProgressesIff`); runs without them send at most one message
  (`ActionRuns.ProgressSendsOnce`). So an executed action can be approved, sent and reported on
  again (`ActionRuns.ExecutedCanBeSentAgain`), one whose dispatch was reported as a dry run can
  be sent again without another approval (`ActionRuns.RehearsedIsSentAgain`), and a refusal
  that returns after a dry-run report takes the approval with it
  (`ActionRuns.RefusalUndoesRehearsal`). Only an approval reopens an outcome
  (`ActionRuns.OnlyApprovalReopens`).
- The audit module says that deletions are detectable. What is left of a chain verifies if and
  only if it is a prefix: removing the latest entries goes unnoticed
  (`AuditChains.RemovalsNoticed`). So does replacing the latest one by an entry that is hashed
  again, and no other replacement (`AuditChains.EditsInTable`).
- A mesh with one or two coordinates is not written: the box around it has an empty axis
  (`Glb.RoundTrip`).
- The limiter allows up to twice its limit in an interval as long as its window, and this bound
  is reached (`Limiter.BoundIsSharp`).

## Model

| member | source | states |
|---|---|---|
| Schedules.EarlyIsLeast | apps/api/app/services/cpm.py:176-194 | for all link types and lags of either sign, the early starts are the pointwise least non-negative starts that meet every link |
| LateDates.LateIsGreatestIffChainsAgree | apps/api/app/services/cpm.py:198-214 | for every mix of links and lags of either sign: the late starts are the pointwise greatest schedule that keeps the project finish if and only if the longest chains agree, which the network alone decides |
| LateDates.FloatsExactIffChainsAgree | apps/api/app/services/cpm.py:60-62 | for every mix of links: total floats say exactly how late each activity can start if and only if the longest chains agree |
| LateDates.ReadsRightAgrees | apps/api/app/services/cpm.py:204-212 | the chains agree where what the pass reads for each pair is the heaviest of its links and hands the finish on, or is no lighter and amounts to the finish of a last activity |
| LateDates.LateIsGreatest | apps/api/app/services/cpm.py:198-214 | where every pair is read right the late starts are the greatest schedule that keeps the project finish |
| LateDates.FinishToStartReadsRight | apps/api/app/services/cpm.py:204-212 | finish-to-start networks without overlong leads and with the largest lag first are read right |
| LateDates.TotalFloatIsNonNegative | apps/api/app/services/cpm.py:60-62 | where the chains agree no activity has negative total float |
| LateDates.TotalFloatIsExact | apps/api/app/services/cpm.py:60-62 | where the chains agree an activity can start late by a delay with everything done within a given extra time exactly when the delay is at most float plus that extra: the finish moves by precisely the excess |
| LateDates.LateShifts | apps/api/app/services/cpm.py:198-214 | where the chains agree, allowing the whole project an extra time allows each activity no more than that past its late start |
| Floats.FreeFloatIsExactIffGapsAgree | apps/api/app/services/cpm.py:216-230 | for every mix of links: free float says exactly how late an activity can start alone if and only if the gaps it is measured by agree with the room that all links and the finish leave |
| Floats.FreeFloatIsExact | apps/api/app/services/cpm.py:216-230 | on finish-to-start networks without overlong leads and with the largest lag first, moving one activity alone breaks neither a link nor the finish exactly when the move is within its free float |
| Floats.FreeFloatIsWithinTotal | apps/api/app/services/cpm.py:216-230 | on those networks free float is non-negative and at most total float |
| Floats.CriticalChainExists | apps/api/app/services/cpm.py:64-66 | where the chains agree, a chain of linked zero-float activities, each tight against the one before, runs from a start at 0 to the project finish |
| LateDates.CriticalCannotMove | apps/api/app/services/cpm.py:64-66 | where the chains agree an activity has no float exactly when it cannot start any later |
| Delays.DelayIsWorstPath | apps/api/app/services/cpm.py:308-314 | in every acyclic network the delay leaving an activity is the maximum over paths ending there of summed slip less free float, or 0 |
| Delays.ImpactWithinTotal | apps/api/app/services/cpm.py:350-355 | the project impact lies between 0 and the total slip, so what float absorbs is non-negative |
| Delays.ShareWithinSlip | apps/api/app/services/cpm.py:319-340 | each contribution, the impact less the impact without that slip, lies between 0 and the slip |
| Delays.StartsMoveAtMost | apps/api/app/services/cpm.py:308-314 | for every link type, where the first link of each pair has its largest lag, re-running the forward pass with the slips moves no start by more than the delay that arrives there |
| Delays.ImpactCoversGrowth | apps/api/app/services/cpm.py:308-317 | where the first link of each pair has its largest lag and the slack fits, the impact is at least the growth of the re-run project duration |
| Coverage.ImpactIsNeverTooSmall | apps/api/app/services/cpm.py:308-317 | where the first link of a pair has the largest lag and each activity that has successors hands its finish on over some link, the impact is never smaller than the growth |
| Chains.CoversAllSlipsIffChainsFit | apps/api/app/services/cpm.py:308-317 | for every mix of links, lags of either sign and repeated pairs: the impact covers the growth for all slips if and only if every chain that slips can move has a path to the end through all activities that move it, holding no more free float than the chain leaves to the finish |
| ExactChains.ExactForAllSlipsIffMet | apps/api/app/services/cpm.py:308-317 | for every mix of links, lags of either sign and repeated pairs: the impact equals the growth for all slips if and only if every chain fits in that sense, every path to the end is moved whole by a chain that loses no slip and leaves no more to the finish than the path holds free float, and such a chain holds the finish |
| ExactChains.ExactWhereNothingShortens | apps/api/app/services/cpm.py:308-317 | where no activity whose finish a link holds hands on its start alone, the finish is always held and the first two of these conditions decide |
| ExactChains.StartDrivenNeverShortens | apps/api/app/services/cpm.py:181-192 | links that do not drive a finish never let a slip make anything earlier, so the condition above is about all such networks |
| Shortening.ShorteningIsUnnoticed | apps/api/app/services/cpm.py:181-192 | on three activities every chain fits and every path is moved whole by some chain that leaves no more to the finish than its float, but only a chain that slips shorten holds the finish: a slip makes the project two shorter and is reported as no impact |
| Coverage.CoversAllSlipsIffSlackFits | apps/api/app/services/cpm.py:308-317 | for links that do not drive a finish, the largest lag of each pair first: the impact covers the growth for all slips if and only if from each activity some path to the end holds no more free float than the time left |
| Coverage.UncoveredSlip | apps/api/app/services/cpm.py:308-317 | for links that do not drive a finish, where the slack does not fit, one late enough activity makes the project grow by more than the impact |
| Exactness.ExactForAllSlipsIffEven | apps/api/app/services/cpm.py:308-317 | for links driven by the predecessor's finish, the largest lag of a pair first: the impact equals the growth for all slips if and only if the slack fits and every successor can be reached, directly or not, with no more slack than the free float |
| Exactness.CarriedExactIffEven | apps/api/app/services/cpm.py:308-317 | for links driven by the predecessor's finish, the largest lag of a pair first, with finishes handed on: the impact equals the growth for all slips if and only if all routes are even in that sense |
| Exactness.ImpactIsExact | apps/api/app/services/cpm.py:308-317 | for links driven by the predecessor's finish, the largest lag of a pair first, with finishes handed on and even routes: the impact of any slips is the growth of the re-run project duration |
| Exactness.SingleSuccessorIsEven | apps/api/app/services/cpm.py:216-230 | for links driven by the predecessor's finish, at most one successor and one link a pair give equal slack and so even routes |
| Exactness.FinishToStartIsCarried | apps/api/app/services/cpm.py:216-230 | finish-to-start networks without overlong leads and with the largest lag first hand every finish on |
| Exactness.PlainImpact | apps/api/app/services/cpm.py:308-317 | with finish-to-start links, lags of at least 0 and one link a pair, the impact is never smaller than the growth, and equal to it if each activity has at most one successor |
| Coverage.EarlyExists | apps/api/app/services/cpm.py:176-194 | every acyclic network has early dates, so statements about a re-run are never empty |
| Coverage.PushedExists | apps/api/app/services/cpm.py:308-314 | every acyclic network has propagated delays for all slips |
| Kahn.SuccessorsCount | apps/api/app/services/cpm.py:109-124 | a successor list names each activity exactly as often as it links back, repeated links included |
| Kahn.OrderedHasNoCycle | apps/api/app/services/cpm.py:129-142 | an order of all activities with predecessors first rules out every cycle |
| Kahn.OrderedIsNotBehind | apps/api/app/services/cpm.py:129-142 | no activity of a predecessor-first order lies on or behind a cycle |
| Kahn.StuckIsBehind | apps/api/app/services/cpm.py:129-142 | where each activity waits for another of them, each lies on or behind a cycle |
| Nodes.ReadRows | apps/api/app/services/cpm.py:92-107 | one node of its own for the first row of each id, in row order, and exactly the repeated ids are reported |
| Nodes.ResolveOne | apps/api/app/services/cpm.py:109-124 | one node gets exactly the links that name an activity, its predecessors list it once per link, and exactly the missing references are reported |
| Nodes.BuildNetwork | apps/api/app/services/cpm.py:86-126 | the built nodes carry the network of the schedule, keyed in row order, and exactly the repeated ids and the missing references are reported |
| Nodes.NetworkOfRow | apps/api/app/services/cpm.py:92-124 | the first row of an id gives its activity its duration, its slip and, in their order, exactly those of its links that name an activity |
| Nodes.AllBuilt | apps/api/app/services/cpm.py:86-126 | nodes that carry that network are those of the ids of the rows, each with the duration, slip and resolved links of the first row of its id, and with one successor entry for every link that names it |
| TopologicalSort.InitialQueue | apps/api/app/services/cpm.py:131-132 | the queue starts with exactly the activities without links, and the counts are those of all links |
| TopologicalSort.Release | apps/api/app/services/cpm.py:136-140 | settling an activity crosses each of its links off once and queues exactly those that reach 0 |
| TopologicalSort.TopologicalOrder | apps/api/app/services/cpm.py:129-142 | the loop ends, lists each activity at most once after all its predecessors, and leaves over exactly the activities on or behind a cycle, so none exactly without a cycle |
| Passes.ForwardPass | apps/api/app/services/cpm.py:176-194 | the nodes end with early dates that meet every link and are each held by 0 or by some link |
| Passes.LatestFinish | apps/api/app/services/cpm.py:196 | the largest early finish, 0 without activities |
| Passes.BackwardPass | apps/api/app/services/cpm.py:198-214 | the nodes end with late dates that satisfy the branch of each successor and are each held by one |
| Passes.FreeFloatPass | apps/api/app/services/cpm.py:216-230 | the nodes end with the smallest gap to a successor, at least 0, or total float at the end of the network |
| Analysis.CountLinked | apps/api/app/services/cpm.py:155-156 | the count of linked activities is 0 exactly when the network has no links |
| Analysis.ComputeNodes | apps/api/app/services/cpm.py:151-232 | which of the four outcomes occurs, exactly, how many activities are reported without logic and which with a cycle, and for an analysed network the figures of all passes on its nodes |
| Analysis.Compute | apps/api/app/services/cpm.py:145-232 | from imported rows: nothing to analyse, no logic or a cycle are reported exactly when they are there, and otherwise the nodes carry figures of the network |
| Analysis.CriticalIsStuck | apps/api/app/services/cpm.py:64-66 | where the chains agree, a node is flagged critical exactly when its activity cannot start later without moving the finish |
| Propagation.LargestIncoming | apps/api/app/services/cpm.py:313 | the largest delay arriving over the links |
| Propagation.PushDelays | apps/api/app/services/cpm.py:308-327 | the recursion fills delays that satisfy its equation at every activity, with or without one slip left out |
| Propagation.LargestTerminal | apps/api/app/services/cpm.py:316-317 | the impact is the largest delay leaving an activity without successors |
| Propagation.TotalSlip | apps/api/app/services/cpm.py:351-352 | the total is the sum of the slips over any order of the activities |
| Propagation.PropagateDelay | apps/api/app/services/cpm.py:296-355 | the report: impact, total and absorbed slip, each non-negative, and each share between 0 and its slip |
| Propagation.Shares | apps/api/app/services/cpm.py:332-346 | every activity with a slip gets the impact less the impact of the run without it |
| Counterexamples.PairIsGenuine | apps/api/app/services/cpm.py:176-230 | on two activities, for every list of links of any kind, all figures in closed form: early start, finish, late start and free float |
| Counterexamples.PairIsExactIff | apps/api/app/services/cpm.py:204-212 | on two activities the late dates are the greatest schedule exactly when, with a first finish-to-start link, its lead is no longer than the successor and no link is heavier, and otherwise no link weighs more than the difference of the durations; that is when the pair is read right |
| Counterexamples.StartToStartFloatIsWrong | apps/api/app/services/cpm.py:204-212 | over a start-to-start link an activity that cannot start late is given three days of float |
| Counterexamples.LongLeadFloatIsWrong | apps/api/app/services/cpm.py:204-212 | with a lead longer than its successor a late finish lies after the project finish |
| Counterexamples.SecondLinkFloatIsWrong | apps/api/app/services/cpm.py:204-212 | of two links between the same activities the second, binding one is missed |
| Counterexamples.StartToStartHidesSlip | apps/api/app/services/cpm.py:308-317 | a five-day growth of the project is reported as no impact |
| Counterexamples.SecondLinkHidesSlip | apps/api/app/services/cpm.py:216-230 | with two links between the same activities, the second binding, a one-day growth is reported as no impact, though slack fits and routes are even |
| Counterexamples.BehindIsNotOnCycle | apps/api/app/services/cpm.py:129-142 | an activity that follows a cycle is left over by the sort without being on a cycle |
| Counterexamples.UnevenSlackOverstates | apps/api/app/services/cpm.py:216-230 | the smallest gap charges a slip to a successor that has room for it, and the impact exceeds the growth |
| AssetOptions.NormalizeHonours | apps/api/app/services/asset_jobs.py:36-48 | a given coordinate is kept and a missing one is its default; a given limit is kept as far as its range allows, and the setting stands in for a missing or zero one; the compression is the text asked for in lower case, and the options are refused exactly when that is none of the four known ones |
| AssetOptions.NormalizeIsIdempotent | apps/api/app/services/asset_jobs.py:36-48 | normalizing normalized options changes nothing, whatever the settings are by then |
| AssetOptions.KeyOfNormalForm | apps/api/app/services/asset_jobs.py:51-60 | the key made from normalized options is the key of the options as given, and two requests share it exactly when source and normal form agree |
| Planner.ReadStream | apps/api/app/services/asset_jobs.py:488-496 | what is flushed and what is still open together are the stream read so far, in order, within the limits and with no batch that had room for the next entity |
| Planner.PlanBatches | apps/api/app/services/asset_jobs.py:468-497 | the batches are consecutive stretches that make up the stream, each a single entity or within both limits, and no other split within the limits has fewer |
| Planner.FullIsFewest | apps/api/app/services/asset_jobs.py:488-497 | a split whose batches have no room for the next entity is a smallest one |
| Geometry.StreamLists | apps/api/app/services/asset_jobs.py:458-489 | the stream of a model lists, in table order, exactly the rows of its document with their triangle estimates |
| Geometry.IndexByGuid | apps/api/app/services/geometry_service.py:129 | each guid is looked up once, as the last row that has it |
| Geometry.ExactGeometry | apps/api/app/services/geometry_service.py:60-97 | exact meshes are for exactly the looked-up rows whose guid triangulates, once each |
| Geometry.ProxyGeometry | apps/api/app/services/geometry_service.py:156-158 | proxies are for exactly the rows without an exact mesh, once each |
| Geometry.GeometryForModel | apps/api/app/services/geometry_service.py:126-159 | every selected entity gets exactly one mesh, exact or proxy as it should be, whatever fails to triangulate |
| Geometry.SelectsExactly | apps/api/app/services/geometry_service.py:127-128 | selecting by a partition without repeats whose entities still exist gives each of them once |
| AssetInvariants.CancelStep | apps/api/app/services/asset_jobs.py:262-283 | cancelling keeps a job consistent and changes nothing that is settled |
| AssetInvariants.ResumeStep | apps/api/app/services/asset_jobs.py:286-313 | resuming keeps completed partitions and their outputs, and recounts them correctly |
| AssetInvariants.RecoveredStep | apps/api/app/services/asset_jobs.py:316-379 | lease recovery keeps a job consistent and changes nothing that is settled |
| AssetInvariants.CompletedIsStill | apps/api/app/services/asset_jobs.py:316-379 | lease recovery finds nothing to do on a completed job |
| AssetInvariants.PlanStep | apps/api/app/services/asset_jobs.py:436-513 | planning starts a job with fitting, waiting partitions and matching counters |
| AssetInvariants.FailPlanningStep | apps/api/app/services/distributed_asset_pipeline.py:373-377 | a planning error before the total is set keeps a job consistent even when flushed batches are committed with it |
| AssetInvariants.CompletePartStep | apps/api/app/services/distributed_asset_pipeline.py:155-184 | completing a partition leaves the count equal to the completed rows |
| AssetInvariants.ClaimFinalStep | apps/api/app/services/asset_jobs.py:537-554 | only a job whose partitions are all completed can be claimed for finalization |
| AssetInvariants.FinalizedStep | apps/api/app/services/distributed_asset_pipeline.py:350-359 | a finalized job is completed with all its partitions and the manifest of its own key |
| AssetInvariants.HeldPartStep | apps/api/app/services/distributed_asset_pipeline.py:201-212 | claiming, renewing, failing or stopping a partition keeps its job consistent |
| AssetInvariants.JobStepOk | apps/api/app/services/distributed_asset_pipeline.py:380-412 | every transaction on a job keeps it consistent and keeps entity lists, completed outputs and completion |
| AssetInvariants.OnlyFinalizeCompletes | apps/api/app/services/distributed_asset_pipeline.py:350-362 | no other transaction completes a job |
| AssetInvariants.CreateStep | apps/api/app/services/asset_jobs.py:143-229 | a request joins, hits or queues so that the cache still counts the completed jobs of each key |
| AssetInvariants.FinalizeStep | apps/api/app/services/distributed_asset_pipeline.py:323-362 | finalization keeps reference counts equal to completed jobs |
| AssetInvariants.StepOk | apps/api/app/services/distributed_asset_pipeline.py:380-412 | every committed transaction keeps the database consistent |
| AssetRuns.RunKeeps | apps/api/app/services/distributed_asset_pipeline.py:380-412 | over every run: counters agree with rows, partition entity lists are written once, completed partitions, their outputs and completed jobs never change again |
| AssetRuns.RefusalsAreUnreachable | apps/api/app/services/distributed_asset_pipeline.py:224-226 | in every reachable state a finalizing job has all partitions completed, so the refusal cannot occur; planning never meets partitions; the completed count is that of the rows |
| AssetRuns.PlanIsKept | apps/api/app/services/asset_jobs.py:468-497 | whatever happens after planning, the partitions still cut exactly the planned stream |
| AssetRuns.ManifestListsEachEntityOnce | apps/api/app/services/distributed_asset_pipeline.py:224-252 | across every interleaving between planning and finalization the stored manifest names each planned entity as often as the stream does |
| AssetRuns.CacheAgreesWithRebuild | apps/api/app/services/asset_jobs.py:160-208 | two completed jobs, hit or built, carry the same manifest exactly when source and options agree, and reference counts are the numbers of completed jobs |
| AssetRuns.ClaimsAreBounded | apps/api/app/services/asset_jobs.py:332-351 | the claims of a partition are its attempts and never exceed the configured number plus the resumes of its job |
| AssetRuns.BetweenTwoClaims | apps/api/app/services/asset_jobs.py:516-534 | between two claims of a partition lies a resume or the recovery of its expired lease |
| AssetRuns.NoClaimAfterCancel | apps/api/app/services/asset_jobs.py:402-406 | after a cancel request on an active job no claim of any kind succeeds for it until a resume |
| AssetRuns.FinalizingIsNeverRecovered | apps/api/app/services/asset_jobs.py:316-337 | without a cancel, a job whose finalizing worker is gone stays held by it in every run |
| AssetRuns.CancelThenResumeFrees | apps/api/app/services/asset_jobs.py:352-376 | cancel, recovery and resume make such a job claimable again with all its partitions |
| AssetRuns.BrokenPlanNeverCompletes | apps/api/app/services/distributed_asset_pipeline.py:373-377 | a job with partitions flushed before a planning error that comes before the total is set never completes in any run |
| AssetRequests.RequestIsAnswered | apps/api/app/services/asset_jobs.py:143-229 | a request joins the latest active job for its content unless it is forced; else an unforced one gets a completed job with the result in service, counted once more; any other queues a new job, and a forced one takes the result out of service |
| AssetRequests.SharedBuildSharedSite | apps/api/app/services/asset_jobs.py:143-229 | in every run two requests that get the same job, or jobs with the same manifest, are for the same model and agree on every coordinate |
| AssetRequests.RequestsAreSingleFlight | apps/api/app/services/asset_jobs.py:162-169 | over every run without forced requests and resumes at most one job is active for the same source and options |
| AssetRequests.ResumeSingleFlight | apps/api/app/services/asset_jobs.py:286-313 | a resume keeps that so exactly when no other active job is for the same content |
| AssetRequests.ForcedSingleFlight | apps/api/app/services/asset_jobs.py:202-223 | a forced request keeps that so exactly when no job for the same content is active |
| AssetRequests.ForcedIsNotServed | apps/api/app/services/asset_jobs.py:202-208 | after a forced request none is answered from the cache until a build is finalized |
| AssetRequests.LeaseProtects | apps/api/app/services/asset_jobs.py:332-349 | recovery takes a claimed or renewed partition away exactly when the lease time has passed |
| AssetRequests.PlanningLeaseProtects | apps/api/app/services/asset_jobs.py:319-330 | recovery frees a planning job exactly when the lease time has passed |
| AssetManifests.EveryManifestIsComplete | apps/api/app/services/distributed_asset_pipeline.py:226-324 | in every run every stored manifest, whichever build wrote it, lists exactly the entities of the stream of its model, so a cache hit gets what a fresh build would list |
| AssetManifests.ManifestListsTheTable | apps/api/app/services/distributed_asset_pipeline.py:226-324 | in every run that plans from lists of the entity table, every stored manifest names the entity of each row of its document once and nothing else |
| AssetWorker.WorkDecreases | apps/api/app/services/distributed_asset_pipeline.py:380-412 | in any interleaving of workers every claim and every outcome strictly lowers a well-founded measure of all jobs |
| AssetWorker.WorkIsBounded | apps/api/app/services/distributed_asset_pipeline.py:380-412 | once nothing is left to plan, runs of pure work are no longer than two steps for each waiting partition, one for each held one and two for each open job |
| AssetWorker.SettledIsStill | apps/api/app/services/asset_jobs.py:316-379 | recovery changes nothing where no lease is held and no cancellation is pending |
| AssetWorker.CycleProgress | apps/api/app/services/distributed_asset_pipeline.py:380-412 | an undisturbed cycle that reports work lowers the measure, one that does not changes nothing and nothing was claimable |
| AssetWorker.LoneJobCompletes | apps/api/app/services/distributed_asset_pipeline.py:415-425 | a lone job of n partitions that all succeed completes after exactly n + 2 working cycles |
| AssetResume.CanCompleteIff | apps/api/app/services/asset_jobs.py:286-379 | from every consistent state, whatever the status of the job, whoever holds its rows and whatever its model holds, some run to which any one worker alone contributes completes it if and only if it is not half planned (partitions without a total) and, unless completed, has something to build |
| AssetResume.BrokenPlanCompletesIff | apps/api/app/services/distributed_asset_pipeline.py:373-377 | after a planning error before the total is set any one worker can complete the job if and only if nothing had been flushed and the model has an entity |
| AssetRows.CancelQueued | apps/api/app/services/asset_jobs.py:274-277 | exactly the waiting partitions are cancelled |
| AssetRows.RequeueParts | apps/api/app/services/asset_jobs.py:293-299 | exactly the failed, cancelled and running partitions go back to the queue, without holder |
| AssetRows.CountDone | apps/api/app/services/asset_jobs.py:306 | the number of completed partitions |
| AssetRows.FindActive | apps/api/app/services/asset_jobs.py:163-169 | the latest active job for the key, if any |
| AssetRows.FreePlanners | apps/api/app/services/asset_jobs.py:319-330 | exactly the planning jobs with an expired lease are freed |
| AssetRows.RecoverPartsOf | apps/api/app/services/asset_jobs.py:332-351 | expired partitions go back or fail with their job by their attempts; nothing changes if none is counted |
| AssetRows.FinishCancel | apps/api/app/services/asset_jobs.py:352-376 | a cancelled job ends when nothing of it runs in the committed rows |
| AssetRows.CombineOutputs | apps/api/app/services/distributed_asset_pipeline.py:236-241 | the outputs of the partitions one after the other, in partition order |
| AssetEntities.StreamHolds | apps/api/app/services/asset_jobs.py:458-466 | the stream of a model names the entity of each row of its document once and nothing else, and can be built from the table |
| AssetEntities.StepCovered | apps/api/app/services/asset_jobs.py:488-496 | whatever is committed, every partition can be built from the entity table |
| AssetStore.Pipeline.CreateJob | apps/api/app/services/asset_jobs.py:143-229 | the returned job is for the given source and honours the given options; the request joins, is served or queues exactly as it should, and fails only for an unknown compression |
| AssetStore.Pipeline.CancelJob | apps/api/app/services/asset_jobs.py:262-283 | a terminal job stays, a queued one ends with its waiting partitions, any other is asked to stop; or there is no such job |
| AssetStore.Pipeline.ResumeJob | apps/api/app/services/asset_jobs.py:286-313 | a failed or cancelled job runs again, or is planned again without partitions, with exactly its unfinished partitions queued and the completed ones recounted; every other is refused |
| AssetStore.Pipeline.RecoverStaleLeases | apps/api/app/services/asset_jobs.py:316-379 | frees exactly the partitions and plannings whose lease is over, fails a job with a partition tried too often, and ends a cancelled job of which nothing runs |
| AssetStore.Pipeline.ClaimJobForPlanning | apps/api/app/services/asset_jobs.py:402-416 | claims the oldest queued job for the lease time, with one attempt more, or there is none to plan |
| AssetStore.Pipeline.ClaimPartition | apps/api/app/services/asset_jobs.py:516-534 | claims a waiting partition of a running job for the lease time, with one attempt more, or there is none |
| AssetStore.Pipeline.ClaimJobForFinalization | apps/api/app/services/asset_jobs.py:537-554 | claims a running job whose partitions are all completed for the lease time, or there is none |
| AssetStore.Pipeline.PlanJob | apps/api/app/services/asset_jobs.py:436-513 | plans exactly the rows of the document, in table order, into a smallest number of waiting partitions; stops a cancelled job, fails one of an empty model, and fails with what was flushed before an error |
| AssetStore.Pipeline.PartitionMeshes | apps/api/app/services/distributed_asset_pipeline.py:92-101 | the geometry of a partition is never empty and has exactly its entities |
| AssetStore.Pipeline.StoreMeshes | apps/api/app/services/distributed_asset_pipeline.py:115-153 | one record per mesh, in order; of the stored rows only the lease of that partition changes, and only if there is a mesh |
| AssetStore.Pipeline.ProcessPartition | apps/api/app/services/distributed_asset_pipeline.py:75-212 | completes the partition with exactly its entities and counts it, fails it with its job only if something broke, or stops both exactly on a cancel request; every other partition stays |
| AssetStore.Pipeline.FinalizeJob | apps/api/app/services/distributed_asset_pipeline.py:215-370 | completes the job exactly when nobody asked to stop it and storing succeeds; its manifest then joins the outputs in order, lists each entity of the model once and is in service; the refusal does not occur |
| AssetStore.Pipeline.RunWorkerCycle | apps/api/app/services/distributed_asset_pipeline.py:380-412 | commits recovery and at most one unit of work, planning before building before finishing, and reports whether there was one |
| AssetStore.Pipeline.RunUntilTerminal | apps/api/app/services/distributed_asset_pipeline.py:415-425 | returns only a terminal job, and a lone job of n succeeding partitions exactly when more than n + 2 cycles are allowed |
| Actions.AgentAction.ApproveAction | apps/api/app/services/intelligence.py:624-655 | every status but approved becomes approved by this user at this time, with one audit entry; what earlier dispatches recorded stays |
| Actions.AgentAction.CheckDispatch | apps/api/app/services/action_execution.py:151-174 | exactly an approved action with an approver, recipients and a project passes |
| Actions.AgentAction.BeginDispatch | apps/api/app/services/action_execution.py:187-199 | the intent, its time and recipients are committed before the call, and a refused request changes nothing |
| Actions.AgentAction.EndDispatch | apps/api/app/services/action_execution.py:218-258 | a refusal is recorded with its reason unless an outcome is; an accepted call leaves its task id, and its answer unless an outcome is recorded |
| Actions.AgentAction.RecordExecution | apps/api/app/services/action_execution.py:267-369 | a report about a dispatched or approved action is written to the row, files one evidence row for each record with content, and its audit entry says how many; one about a terminal action changes nothing, and any other is refused |
| Actions.AgentAction.AddEvidence | apps/api/app/services/action_execution.py:328-353 | exactly the records with content become evidence, in order, with that content, the given or default source and the reported outcome, and are counted |
| Actions.AgentAction.DispatchAction | apps/api/app/services/action_execution.py:138-258 | the executor reports any number of times during the call: the first outcome it reports is final whatever the call returns, and without one a refusal, a dry run or the dispatch decides |
| ActionRuns.RunAccounted | apps/api/app/services/action_execution.py:193-198 | in every interleaving the audit entries determine status, approver, evidence count and dispatch time |
| ActionRuns.TrailsAreLegal | apps/api/app/services/action_execution.py:138-369 | the sequences of audit entries that some interleaving leaves are exactly the legal ones |
| ActionRuns.ExecutedIsEarned | apps/api/app/services/action_execution.py:288-306 | an executed action was approved by the user it names and, after that, reported executed |
| ActionRuns.OutcomesNeedApprovals | apps/api/app/services/action_execution.py:290-294 | between two reported outcomes there is an approval, so no outcome gains second evidence without one |
| ActionRuns.SendsAreAuthorised | apps/api/app/services/action_execution.py:153-158 | messages sent never outnumber approvals plus dry runs |
| ActionRuns.EvidenceOnlyGrows | apps/api/app/services/action_execution.py:328-353 | evidence is only ever added, in every interleaving |
| ActionRuns.UnheardIsVisible | apps/api/app/services/action_execution.py:379-392 | a sent action without word since is dispatched, and listed once the threshold passes, exactly when it was not approved again |
| ActionRuns.WaitingApprovalsKeepItVisible | apps/api/app/services/action_execution.py:379-392 | with approvals only of proposals and refused dispatches, every such action is listed exactly once the threshold has passed |
| ActionRuns.Unconfirmed | apps/api/app/services/action_execution.py:379-392 | exactly the dispatched rows past the threshold or without a time |
| ActionRuns.OnlyApprovalReopens | apps/api/app/services/intelligence.py:634-639 | on a reported outcome nothing but an approval changes status, outcome, time, evidence or audit entries, and an approval always does |
| ActionRuns.ReturnMovesStatus | apps/api/app/services/action_execution.py:220-245 | a returning call moves the status exactly when it was refused and no outcome is reported, and an accepted one leaves its task id whatever was reported meanwhile |
| ActionRuns.RefusalUndoesRehearsal | apps/api/app/services/action_execution.py:311-315 | a refusal that returns after a dry-run report overwrites the approval it restored |
| ActionRuns.StepProgresses | apps/api/app/domain/models.py:176-183 | a step keeps the status or follows the documented progression exactly when it is none of: an approval of anything but a proposal, a dry-run report on a dispatched action, a refused return or a final report on an approved one |
| ActionRuns.RunProgressesIff | apps/api/app/domain/models.py:176-183 | a run progresses as documented if and only if it has no such step |
| ActionRuns.ProgressSendsOnce | apps/api/app/services/action_execution.py:151-158 | a run that progresses as documented sends at most one message and reports at most one outcome |
| ActionRuns.RehearsedIsSentAgain | apps/api/app/services/action_execution.py:311-315 | some interleaving sends an action twice on one approval, with a dry-run report between |
| ActionRuns.ExecutedCanBeSentAgain | apps/api/app/services/intelligence.py:634-639 | some interleaving approves, sends and reports an executed action a second time |
| Audit.AuditTrail.Tail | apps/api/app/services/audit.py:54-65 | the latest entry of the tenant in chain order, if any |
| Audit.AuditTrail.Audit | apps/api/app/services/audit.py:68-100 | one entry is added that continues the chain of its tenant and whose hash covers all it records |
| Audit.AuditTrail.VerifyAuditChain | apps/api/app/services/audit.py:103-152 | on the tenant's entries in order, up to the limit: intact, with counts and head, exactly when each chained entry continues the one before it, is the next in sequence and hashes to all it records; otherwise the first that does not, with the reason |
| AuditChains.HonestTrailVerifies | apps/api/app/services/audit.py:103-136 | serial entries of any tenants on an empty or legacy table verify for every tenant with the right counts, and as a prefix under a limit |
| AuditChains.SameHeadSameChain | apps/api/app/services/audit.py:30-51 | two verified chains with the same head hash record the same, entry by entry and field by field |
| AuditChains.RemovalsNoticed | apps/api/app/services/audit.py:120-128 | a list made of the entries of a verified chain verifies exactly when it is a prefix of it |
| AuditChains.EditsNoticed | apps/api/app/services/audit.py:120-128 | replacing an entry goes unnoticed exactly when every field stays the same, or it is the latest and hashed again |
| AuditChains.EditsInTable | apps/api/app/services/audit.py:103-136 | whatever replaces one chained entry of an honest table, the check stays intact exactly when the replacement records the same, or the entry is the latest and the replacement is hashed again in its place or leaves the chain |
| AuditChains.EditedContentIsReported | apps/api/app/services/audit.py:120-128 | an entry of an honest table whose content was changed is reported as the first break, with that reason |
| AuditChains.ReportDecides | apps/api/app/services/audit.py:103-152 | the check answers intact exactly for a linked chain, in whatever order the tenant's entries are stored |
| AuditChains.RemovedFromTable | apps/api/app/services/audit.py:103-136 | taking rows out of an honest table passes the check exactly when what is left of the chain is a prefix |
| AuditChains.KeepSort | apps/api/app/services/audit.py:105-117 | leaving out legacy entries and ordering by sequence commute |
| Limiter.Window.Hit | apps/api/app/api/routes/public_demo.py:80-92 | a call is allowed exactly when the calls of its key since its window was opened, itself included, are at most the limit; only expired keys are forgotten, and only above the capacity |
| Limiter.Window.EvictExpired | apps/api/app/api/routes/public_demo.py:88-91 | exactly the expired keys are deleted |
| Limiter.WindowDecides | apps/api/app/api/routes/public_demo.py:80-92 | over every run the call times alone decide: a window opens with the first call of a key and with each later one that comes no sooner than the open window is over, and it allows as many calls as the limit |
| Limiter.NewWindowAllows | apps/api/app/api/routes/public_demo.py:83-87 | with a limit of at least 1 a call that comes no sooner than the open window is over is always allowed |
| Limiter.EvictionIsInvisible | apps/api/app/api/routes/public_demo.py:80-92 | no decision differs from that of a limiter that never evicts |
| Limiter.AtMostTwiceTheLimit | apps/api/app/api/routes/public_demo.py:80-92 | with one limit and window a key is allowed at most twice the limit in any interval as long as the window |
| Limiter.BoundIsSharp | apps/api/app/api/routes/public_demo.py:80-92 | for every limit and window some calls reach that bound |
| Limiter.EmptyWindowLimitsNothing | apps/api/app/api/routes/public_demo.py:84-86 | with a window that is not positive and a limit of at least 1 every call is allowed |
| Glb.PackRoundTrip | apps/api/app/services/asset_pipeline.py:112-115 | little-endian words are read back from their bytes |
| Glb.ContainerRoundTrip | apps/api/app/services/asset_pipeline.py:138-142 | the header length is the file length, both chunks are aligned, and a reader of section 4.4 gets both back |
| Glb.ViewsTile | apps/api/app/services/asset_pipeline.py:112-129 | the two buffer views tile the buffer without gap or overlap and no padding is added to either |
| Glb.RoundTrip | apps/api/app/services/asset_pipeline.py:74-143 | writing succeeds exactly when there is a whole vertex or no coordinate at all and indices and length fit in words, and a reader recovers name, indices and the coordinates of whole vertices |
| Glb.WrittenFile | apps/api/app/services/asset_pipeline.py:109-143 | every byte of a written file: the glTF header with version and length, the document filled up with spaces as the JSON chunk, and the little-endian coordinates and then indices as the binary chunk |
| Glb.FilesAreDistinct | apps/api/app/services/asset_pipeline.py:109-143 | two meshes of whole vertices with the same file are the same mesh |

## Left out

- Steps are serializable: each commit, with what it reads, is one atomic step. Two requests that read the same row before either commits (two dispatches of one approved action, two audit entries of one tenant, two workers completing partitions of a job at once) are not modelled.
- A worker writes the outcome of a partition, a plan or a finalization only while it still holds the row; the services do not check this again, so a worker that writes after losing its lease is not modelled. A cancel request that lands after a worker's check counts as landing after its commit.
- The entity table stays as it is between planning and building; entities deleted meanwhile, and rows of one model that differ in organization, are not modelled.
- Which eligible partition or job a claim gets (creation order of partitions, last update of jobs, locked rows skipped) is left open in `AssetJobs`; `AssetStore.Pipeline` takes the first in job and partition order.
- Progress, phases, checkpoints, timestamps other than leases, event rows, metrics, wake-ups, temporary files and everything in a manifest but its list of entities.
- Document lookup and access control, the reading of the source hash, the triangle estimate of an entity and the trimming and parsing of options: their results are inputs.
- Durations and slips from dates, trimming of ids, the listing part of `analyse` (distribution, disagreements, warnings) and the sorting of contributors and their cut to twenty.
- Text of messages, validation of recipients, composition of notifications, and the merging of metadata into evidence; the two lists of unconfirmed actions are one, without its order.
- JSON, SHA-256 and the packing of floats: the audit hash, the content key and the JSON text are injective or readable by assumption, coordinates are given as words.
- An error raised after the fields of a result are set, by the event query (`apps/api/app/services/distributed_asset_pipeline.py:178-185` and line 361) or the address of the manifest (line 355), is recorded in the session that holds these fields, so a raised completion count, or a ready cache entry with one more reference, is committed with the failure. So is the total of a plan, by an error of the event query of planning (`apps/api/app/services/asset_jobs.py:510`): such a job is failed but not half planned, and a resume can complete it. The failures of the model happen before the fields are set.
- Meshes themselves (`_bbox` but for its error, `_decimate`, proxies, compression) and the single-process pipeline `build_streaming_assets`.
- Organization and role checks, routes, settings and user interface.
