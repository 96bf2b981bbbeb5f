# Verification of the hooka core

A Dafny model of the parts of the repository where correctness is hard: protocols between workers that may be stale,
a learner whose contract is spread over several functions, budgets shared by many callers, and loops over arbitrary
answers. Every main result holds for all inputs, all runs or all reachable states of the model.

Time is an integer passed to each step; each database transaction is one atomic step that commits or leaves the store
unchanged. Where the source mutates an object, the model has a class whose methods are proved to be a step of a
value-level specification, and the properties are proved about that specification.

## Components

- **Run queue** (`RunQueue`, `RunQueueInvariant`, `RunQueueRuns`, `RunQueueMeaning`, `RunStore`): rows, events and the claims held by any
  number of workers, stale ones included. Fencing by claim tokens, an event log that replays to the rows, attempt budgets
  and termination, per-target concurrency, deduplication. `RunStore.Store` is the store, loops and all.
- **Recommendation learner** (`Recommendations`, `Evidence`, `Scoring`, `ScoringResult`, `ScoringIndependence`,
  `ScoringMeaning`, `Sampler`, `Registrations`, `LearningStore`, `LearningBuild`, `LearningModel`, `LearningInvariant`,
  `LearningRuns`, `ModelMeaning`, `StoreMeaning`, `RecommendationStore`): scoring in exact reals, sampling without
  replacement, and a store in which manifests must follow the sampler, aggregates converge to their highest revision, and a
  built model is always fit for scoring. Digests are modelled as the content they digest, so that they are injective.
- **Shared affiliate account** (`SharelinkLease`, `SharelinkBudget`, `SharelinkStore`): the fenced lease, call pacing and a
  daily budget whose limits can shrink during the day.
- **Refresh preview and the work it predicts** (`RefreshPreview`, `RefreshPlan`, `RefreshBudget`, `RefreshMeaning`,
  `SharelinkProvider`, `ResolveSubject`, `ResolveMeaning`, `RefreshRun`): floor shares, three greedy passes over shared
  counters, a static estimate, and the nested page loop that it bounds whatever the provider answers; a trace of the search
  says what its answer owes to each page and product; joined end to end with the daily budget.
- **Two refinements** (`BoundedOutput`, `RateLimiter`): output capture that does not depend on chunking, and a sliding window
  whose lazy sweep is invisible.

The modules named `...Meaning` state what the operations answer in the terms of the stored data alone, without the functions
that compute it. `Prelude` and `Ordering` hold shared vocabulary: options and results, named products and quotients, and sorting.

## What the model shows about the code

- A result with status `queued` or `running` is admitted by the result type; recording it breaks the account of the run.
  The account stays sound exactly when the status is terminal (`OnlyTerminalResultsAreSound`).
- A worker that lost its run can still append a preflight event after retention deleted the run
  (`PreflightOrphansIffDeleted`, `OrphanEventsExist`).
- Pacing keeps calls apart only if one owner paces one call at a time (`CallsAreSpaced`, `OverlappingPacesAreNotSpaced`);
  the code always awaits each call before the next.
- After a budget shrank below the usage of the day, the reported remainder is cut off at zero, and a reservation that fits
  the report can be refused (`AcceptedIffRemaining`, `FittingTheReportIsNotEnough`).
- With `explorationFraction` zero a subject nobody asked for is reported as deferred for "capacity" although the workset is
  empty (`CapacityWithoutExploration`); otherwise "capacity" means a full workset (`CapacityMeansFull`).
- With a limit of zero the retry hint of the rate limiter is never honoured (`RetryHintIsHonoured`). A first admission stamped
  with time zero is taken for none, and the hint is then the whole window (`RetryHintIsTight`, `HintWithoutAFirst`).
- "Invalid offer" cannot happen for a reviewed product; for an automatic one it takes a clock behind the one that
  checked the product (`Resolve`).
- The failures "Missing app allowance", "Conflicting producer ownership", "Aggregate assignment evidence is missing" and
  "Invalid planned result" cannot happen.

## Model

| member | source | states |
|---|---|---|
| `RunQueueInvariant.StepKeepsInvariant` | packages/run-store/src/store.ts:104-738 | Every step of the queue, by any worker and in any order, keeps the whole invariant: the log replays to the rows, attempts stay inside their budgets, tokens are unique, claims are numbered, event ids and coalesce keys are unique, per-target limits hold. |
| `RunQueueRuns.ReachableInvariant` | packages/run-store/src/store.ts:104-951 | The invariant holds in every state of every interleaving of enqueue, claim, renew, record, requeue, retry, preflight report and cleanup. |
| `RunQueueRuns.AccountOfARun` | packages/run-store/src/store.ts:321-738 | In every reachable state the events of a stored run replay over legal edges to its status, its attempt count is the number of attempts the log ended, claims equal attempts ended plus the one under way, and queued or running implies attempts left. |
| `RunQueueRuns.FencedForever` | packages/run-store/src/store.ts:1144-1164 | A claim that lost its run, by settling, requeue, reclaim or deletion, never holds it again, and every later renewal or result under it leaves rows, events and claims untouched. |
| `RunQueueRuns.SettlesOnce` | packages/run-store/src/store.ts:570-738 | Each claim token settles its run at most once over a whole run of the system. |
| `RunQueueRuns.SettledTokensAreSpent` | apps/worker/src/lib/worker.ts:108-181 | After a token has recorded a result, no later result under the same token is accepted. |
| `RunQueueRuns.ConcurrencyLimit` | packages/run-store/src/store.ts:484-535 | Whenever the running rows of a target share one limit, at most that many of them run; the invariant behind it also covers limits that change between runs. |
| `RunQueueInvariant.ClaimKeepsWithinLimits` | packages/run-store/src/store.ts:484-535 | A claim keeps, for every running row with a limit, the number of same-target rows still running and claimed no later within that limit. |
| `RunQueueRuns.MovesAreBounded` | apps/worker/src/lib/worker.ts:113-154 | A run that stays stored changes status at most twice per attempt of its budget: the remaining budget strictly decreases with every claim and settlement. |
| `RunQueueRuns.ClaimsAreBounded` | packages/run-store/src/store.ts:517-563 | No run is handed out more often than its attempt budget, also counting claims of runs that were deleted since. |
| `RunQueueRuns.RetryWaits` | packages/run-store/src/store.ts:462-535 | A scheduled retry keeps its time until it is claimed, and is not claimed before that time. |
| `RunQueueRuns.SweepIsComplete` | packages/run-store/src/store.ts:321-437 | After the expiry sweep no lapsed lease is still running, and no other row was touched. |
| `RunQueueRuns.RequeueAllExact` | packages/run-store/src/store.ts:343-433 | The sweep changes exactly the lapsed rows it visits, each to queued or to dead-lettered by its attempt count. |
| `RunQueueInvariant.KeepEventsReplay` | packages/run-store/src/store.ts:910-931 | Deleting the events of deleted runs does not change how the events of any other run replay. |
| `RunQueueRuns.OrphanEvents` | packages/run-store/src/store.ts:740-750 | The only events without a stored run are preflight rejections. |
| `RunQueueRuns.PreflightOrphansIffDeleted` | apps/worker/src/lib/worker.ts:361-379 | A preflight report leaves such an orphan exactly when retention had already deleted the run of its claim. |
| `RunQueueRuns.OrphanEventsExist` | apps/worker/src/lib/worker.ts:361-379 | A concrete run of five steps that leaves an orphan event behind. |
| `RunQueueRuns.EventIdReturnsItsRun` | packages/run-store/src/store.ts:113-122 | While a run with an event id is stored, every enqueue of that event id returns it and changes nothing. |
| `RunQueueRuns.CoalesceReturnsTheActiveRun` | packages/run-store/src/store.ts:124-138 | While a coalesced run is active, an enqueue without event id for the same task and key returns it and changes nothing. |
| `RunQueueRuns.OnlyTerminalResultsAreSound` | packages/run-store/src/store.ts:570-627 | Recording a result keeps the account of runs exactly when the reported status is terminal; the result type also admits queued and running. |
| `RunStore.Store.EnqueueRun` | packages/run-store/src/store.ts:104-199 | The row and event inserted, or the duplicate returned: the new state is the enqueue step of the protocol. |
| `RunStore.Store.RetryRun` | packages/run-store/src/store.ts:207-258 | A retry of a terminal run copies target, limit, policy and attempt budget; it fails exactly for a missing or a non-terminal run, without effect. |
| `RunStore.Store.RequeueExpiredRuns` | packages/run-store/src/store.ts:321-437 | The loop over expired rows is the sweep step of the protocol, in the order of the leases. |
| `RunStore.Store.RenewRunLease` | packages/run-store/src/store.ts:443-460 | Extends the lease and answers true exactly for the claim that holds the running row. |
| `RunStore.Store.ClaimNextQueuedRun` | packages/run-store/src/store.ts:462-568 | Claims the first claimable run in queue order under the eligibility filter and the target limits, or nothing exactly when none is claimable. |
| `RunStore.Store.FinishRun` | packages/run-store/src/store.ts:570-627 | Finishes the run exactly for the claim that holds it, otherwise fails and changes nothing. |
| `RunStore.Store.ScheduleRetry` | packages/run-store/src/store.ts:629-684 | Returns the run to the queue with a retry time exactly for the claim that holds it, otherwise changes nothing. |
| `RunStore.Store.DeadLetterRun` | packages/run-store/src/store.ts:686-738 | Dead-letters the run exactly for the claim that holds it, otherwise changes nothing. |
| `RunStore.Store.CleanupRetention` | packages/run-store/src/store.ts:893-951 | Deletes exactly the terminal runs finished before the bound together with their events, and counts both. |
| `RunStore.RecordRunResult` | apps/worker/src/lib/worker.ts:108-181 | Finish, retry or dead-letter by the outcome and the attempts left, the record step of the protocol with no effect when the lease was lost; a first failure is retried the base delay later, the n-th a delay later that doubled n-1 times from the base, five minutes at most. |
| `RunStore.RetryDelays` | apps/worker/src/lib/worker.ts:458-463 | The delay after the n-th attempt is the n-th of any sequence that starts at the base and doubles, cut off at five minutes; after the first it is the base itself. |
| `RunStore.BackoffGrows` | apps/worker/src/lib/worker.ts:458-463 | The retry delay starts at the base, doubles with each attempt up to its cap and never shrinks. |
| `RunQueueMeaning.ReadyIsClaimable` | packages/run-store/src/store.ts:484-516 | What may be claimed, field by field: queued, due, eligible for the worker by capability, and its target below its limit. |
| `RunQueueMeaning.ClaimTakesTheOldest` | packages/run-store/src/store.ts:484-566 | A claim takes the ready run that has waited longest, starts it now and holds it for exactly the lease asked for; nothing else of it changes. |
| `RunQueueMeaning.EnqueueReusesOnly` | packages/run-store/src/store.ts:113-138 | A returned run is the oldest of the same event, or without one the oldest active run of the same task and key. |
| `RunQueueMeaning.EnqueueCreates` | packages/run-store/src/store.ts:140-199 | A new run starts queued with no attempt made, under exactly the constraints asked for. |
| `RunQueueMeaning.LeaseProtects` | packages/run-store/src/store.ts:321-568 | Until its lease ends or is used up, nothing takes a run away from its claim: no sweep, no other worker, no retention. |
| `RunQueueMeaning.LapsedGoesBack` | packages/run-store/src/store.ts:343-433 | A lapsed lease costs one attempt: back to the queue exactly while attempts are left, otherwise dead-lettered now. |
| `RunQueueMeaning.ResultIsRecorded` | packages/run-store/src/store.ts:570-738 | A recorded result costs one attempt, frees the claim, and leaves the reported status, a retry at its time, or a dead letter, with its times and error. |
| `RunQueueMeaning.FinishedRunsStand` | packages/run-store/src/store.ts:893-951 | A finished run never changes again and stays stored until retention asks for runs finished after it. |
| `RunQueueMeaning.CleanupDeletesOnlyOld` | packages/run-store/src/store.ts:893-951 | Retention deletes a run exactly when it finished before the bound. |
| `Sampler.SampleRecommendations` | packages/pack-recommendations/src/engine.ts:305-350 | The loop that splices the remaining candidates and pushes draws computes the specified sample, or refuses a count outside 0..1000. |
| `Sampler.EveryDrawInverts` | packages/pack-recommendations/src/engine.ts:314-344 | Every draw inverts the cumulative distribution of what is left at its own uniform number, and reports the length of the chosen interval as its probability. |
| `Sampler.ChosenIff` | packages/pack-recommendations/src/engine.ts:322-331 | An entry is chosen exactly for the uniform numbers between its cumulative probability and the next, also when all weights are zero. |
| `Sampler.LeftIsUndrawn` | packages/pack-recommendations/src/engine.ts:309-332 | What a draw chooses among is exactly the entries not drawn before it. |
| `Sampler.ProbabilitiesSum` | packages/pack-recommendations/src/engine.ts:339-343 | The conditional probabilities of one draw add up to one. |
| `Sampler.PrefixStable` | packages/pack-recommendations/src/engine.ts:314-349 | The first draws of a longer sample are the shorter sample; a sample is short only when the candidates run out. |
| `Sampler.DrawsAreDistinct` | packages/pack-recommendations/src/engine.ts:332-338 | No candidate is drawn twice, and only candidates of the result are drawn. |
| `Sampler.OrderIrrelevant` | packages/pack-recommendations/src/engine.ts:309-311 | The order in which a result lists its entries does not influence the sample. |
| `Recommendations.KeyInjective` | packages/pack-recommendations/src/contracts.ts:118-119 | Two candidates have the same key text exactly when they are the same subject and entity. |
| `Evidence.CollectAll` | packages/pack-recommendations/src/engine.ts:149-189 | One pass over the rows fills the local and the shared table with the statistics of every key, or fails exactly when some total leaves the safe integers. |
| `Evidence.AddStats` | packages/pack-recommendations/src/engine.ts:63-79 | Adds a row under a key, failing exactly when the total of exposures overflows: clicks and per-app totals cannot overflow first. |
| `Evidence.CollectOrder` | packages/pack-recommendations/src/engine.ts:151-189 | Statistics do not depend on the order of rows. |
| `Scoring.ScoreRecommendations` | packages/pack-recommendations/src/engine.ts:116-272 | Computes the specified result or refusal: request, model age, registrations, overflow, in that order. What that result means is the subject of the theorems that follow. |
| `ScoringMeaning.ResultMeans` | packages/pack-recommendations/src/engine.ts:190-271 | For every entry: the score times prior strength plus own exposures is prior strength times prior mean plus own clicks, with prior and totals as sums over the model rows; weights above the exploration share are proportional to scores, ranks follow them, confidence names the evidence used. |
| `ScoringMeaning.AssessedMeans` | packages/pack-recommendations/src/engine.ts:190-234 | The score of each candidate is the posterior mean of its own rows over the prior that the policy and the gates determine. |
| `ScoringMeaning.ScoreIsUnique` | packages/pack-recommendations/src/engine.ts:205-220 | The rows, the policy and the registrations leave one possible score. |
| `ScoringMeaning.MoreClicksRaise` | packages/pack-recommendations/src/engine.ts:216-220 | More own clicks at equal own exposures strictly raise the score. |
| `ScoringMeaning.ClosedGatesIgnoreOthers` | packages/pack-recommendations/src/engine.ts:195-215 | While a sharing gate is closed (exposures, days, or share of one app) the score is that of the policy prior and the own rows alone. |
| `ScoringMeaning.OpenGatesFollowOthers` | packages/pack-recommendations/src/engine.ts:195-215 | While all gates are open, more clicks of others at equal exposures strictly raise the score. |
| `ScoringMeaning.OwnMean` | packages/pack-recommendations/src/engine.ts:149-170 | Own statistics are sums over the rows of the app, context and subject or product, training rows of the window alone. |
| `ScoringMeaning.OthersMean` | packages/pack-recommendations/src/engine.ts:171-189 | Shared statistics are sums over the rows of other apps in contexts that learn together and with the same meaning. |
| `ScoringMeaning.ResolvesIff` | packages/pack-recommendations/src/engine.ts:81-113 | A request resolves exactly when it is current for the registered revision of its app, policy and context. |
| `ScoringMeaning.ScoredIff` | packages/pack-recommendations/src/engine.ts:116-189 | A request is scored exactly when request, candidates, evidence and model are current and no total overflows. |
| `ScoringIndependence.OrderIrrelevant` | packages/pack-recommendations/src/engine.ts:136-138 | Reordering the model rows and the request candidates changes nothing: not the entries, the digests, the decision id, nor whether and how scoring fails. |
| `ScoringIndependence.HoldoutIrrelevant` | packages/pack-recommendations/src/engine.ts:130-135 | Two usable models with the same training rows give the same entries or the same failure. |
| `ScoringIndependence.OthersIrrelevantWithoutSharing` | packages/pack-recommendations/src/engine.ts:171-189 | With sharing off, two usable models that agree on the app's own training rows of the context give the same entries or the same failure. |
| `ScoringResult.ScoresInside` | packages/pack-recommendations/src/engine.ts:205-220 | Every score lies strictly between zero and one. |
| `ScoringResult.WeightBounds` | packages/pack-recommendations/src/engine.ts:262-266 | Every weight lies between the uniform exploration share and one. |
| `ScoringResult.WeightsSumToOne` | packages/pack-recommendations/src/engine.ts:260-270 | The weights of a nonempty result add up to exactly one. |
| `ScoringResult.RanksPermute` | packages/pack-recommendations/src/engine.ts:236-240 | Every rank from one to the number of entries is given to exactly one entry. |
| `ScoringResult.RankOrders` | packages/pack-recommendations/src/engine.ts:236-267 | One entry ranks before another exactly when its score is higher, or equal with a smaller key. |
| `ScoringResult.ScoresAreSound` | packages/pack-recommendations/src/engine.ts:190-271 | The entries are the assessed candidates, each once; weights, ranks and scores are in range, and a higher score never has a smaller weight. |
| `ScoringResult.ResultIsValid` | packages/pack-recommendations/src/contracts.ts:205-241 | Whatever is scored meets the result schema and covers exactly the candidates of the request. |
| `ScoringResult.ScoredIsAccepted` | packages/pack-recommendations/src/engine.ts:353-396 | What is scored for a request is accepted for that request exactly from its generation to its expiry. |
| `ScoringResult.AcceptedAnswersAll` | packages/pack-recommendations/src/engine.ts:384-392 | A result that a consumer accepts has an entry for every candidate of the request. |
| `Registrations.AcceptedHistoriesEvolve` | packages/pack-recommendations/src/store.ts:157-217 | Over any sequence of accepted and refused configurations, two accepted revisions of an app agree on its producer and on every shared context, and no shared subject regresses, also if it was absent in between. |
| `Registrations.MappingDeterminesCanonical` | packages/pack-recommendations/src/store.ts:203-215 | App, subject and mapping version determine the canonical subject over every sequence of configurations. |
| `Registrations.NeverForgets` | packages/pack-recommendations/src/store.ts:149-156 | What is registered stays registered unchanged: revisions, policies and entities are write-once. |
| `Registrations.AcceptedEvolves` | packages/pack-recommendations/src/store.ts:157-216 | A revision that is not refused evolves from every earlier stored one, not only from the latest. |
| `Registrations.RegisteredIsLatest` | packages/pack-recommendations/src/store.ts:163-164 | An accepted configuration holds the newest revision of each of its apps. |
| `StoreMeaning.AppAcceptedIff` | packages/pack-recommendations/src/store.ts:157-217 | A revision is accepted exactly when it repeats the newest stored one or is newer than all and evolves from the whole history. |
| `StoreMeaning.ConfigAcceptedIff` | packages/pack-recommendations/src/store.ts:127-227 | A configuration is accepted exactly when every app follows from its history and no policy version and no entity changes. |
| `LearningInvariant.StepKeepsInv` | packages/pack-recommendations/src/store.ts:244-731 | No transaction of the store, successful or rolled back, breaks its invariant. |
| `LearningRuns.AssignmentsAreTheFirstDraws` | packages/pack-recommendations/src/store.ts:288-325 | At every moment of every run the sampler assignments of a stored decision are exactly its first draws, with their probabilities and one arm, across any split into manifests and any re-sends; pruning included. |
| `LearningRuns.AssignmentsBelong` | packages/pack-recommendations/src/store.ts:326-358 | At every moment each stored assignment of a stored decision belongs to it: its app and producer, started while the decision was valid, in its context, for one of its very candidates and with the registered lineage. |
| `LearningInvariant.SamplesAfterManifest` | packages/pack-recommendations/src/store.ts:296-300 | What was checked against the sampler before the insert is what is stored after it. |
| `LearningInvariant.NewDecisionUnused` | packages/pack-recommendations/src/store.ts:612-642 | A decision that is recorded anew has no assignments: those of a pruned decision refer to a request that has expired. |
| `LearningInvariant.PlannedResultIsValid` | packages/pack-recommendations/src/store.ts:628-629 | The failure "Invalid planned result" cannot happen. |
| `LearningInvariant.ProducerNeverConflicts` | packages/pack-recommendations/src/store.ts:449-450 | The failure "Conflicting producer ownership" cannot happen in a reachable store. |
| `LearningRuns.EvidenceNeverMissing` | packages/pack-recommendations/src/store.ts:525-526 | The failure "Aggregate assignment evidence is missing" cannot happen in a reachable store: a build fails exactly for size or overflow. |
| `LearningRuns.HighestRevisionWins` | packages/pack-recommendations/src/store.ts:436-473 | At every moment a stored day holds the highest revision accepted for it so far; a day without a snapshot was never accepted or is before the kept days. |
| `LearningRuns.DeliveriesConverge` | packages/pack-recommendations/src/store.ts:448-473 | Two runs that accepted the same deliveries for a day, in any order and number, hold the same snapshot. |
| `LearningRuns.OnlyConflictsAreRefused` | packages/pack-recommendations/src/store.ts:452-455 | A delivery is refused for its revision only if another content was accepted under that very revision. |
| `StoreMeaning.ManifestAcceptedIff` | packages/pack-recommendations/src/store.ts:244-389 | A manifest is applied exactly when its producer, time and configuration are in order, it is new, every assignment belongs to a stored decision of the app, and its sampled ones keep to the first draws. |
| `StoreMeaning.AggregateAcceptedIff` | packages/pack-recommendations/src/store.ts:399-474 | An aggregate is accepted exactly when its producer, profile, day and assignments are in order and its revision is undisputed. |
| `StoreMeaning.PruneLeaves` | packages/pack-recommendations/src/store.ts:705-730 | Pruning leaves exactly the ninety days before the current one and whatever is at most a hundred and twenty days old. |
| `LearningRuns.PruneIsFinal` | packages/pack-recommendations/src/store.ts:705-717 | A day that pruning removed is never stored again. |
| `LearningRuns.PrunedForever` | packages/pack-recommendations/src/store.ts:413-417 | A day before the kept ones that is not stored stays out as time advances. |
| `LearningBuild.Scan` | packages/pack-recommendations/src/store.ts:516-570 | In whatever order the sources come, the scan succeeds or fails alike and ends with the totals of every key. |
| `LearningBuild.OverflowIsFinal` | packages/pack-recommendations/src/store.ts:560-564 | A total that overflows on the way also overflows in the end, so overflow does not depend on the order. |
| `LearningModel.BuildModel` | packages/pack-recommendations/src/store.ts:571-579 | The model holds one row per key with a source, with exactly the totals over the sealed window. |
| `ModelMeaning.RowsAreSums` | packages/pack-recommendations/src/store.ts:487-579 | Each row of a built model is the sum of the exposures, clicks and dispatches observed in the sealed fourteen days for still registered assignments with exactly its app, subject, rule, mapping, entity, context, profile, day and experiment arm. |
| `ModelMeaning.NothingIsLeftOut` | packages/pack-recommendations/src/store.ts:487-579 | Every usable observation of the window is in a row, the one that carries its fields. |
| `ModelMeaning.CountedOnce` | packages/pack-recommendations/src/store.ts:545-570 | No observation feeds two rows. |
| `ModelMeaning.ScanMeans` | packages/pack-recommendations/src/store.ts:496-562 | What one observed row adds, and when it is skipped, in terms of the stored assignment, snapshot and configuration. |
| `LearningModel.BuiltModelIsUsable` | packages/pack-recommendations/src/engine.ts:274-302 | A built model meets the model schema and the registration check, and scoring drops none of its training rows by window or lineage. |
| `LearningModel.BuiltModelIsAccepted` | packages/pack-recommendations/src/engine.ts:126-128 | For a day after a build, scoring with the built model under the same configuration can only refuse the request itself or overflow. |
| `LearningRuns.PlansNeverDistrustTheModel` | packages/pack-recommendations/src/store.ts:596-611 | In every reachable store planning never finds the current model malformed or its evidence unregistered. |
| `RecommendationStore.Store.Register` | packages/pack-recommendations/src/store.ts:127-227 | The loops over apps, policies and entities accept a configuration whole or refuse it whole. |
| `RecommendationStore.Store.IngestManifest` | packages/pack-recommendations/src/store.ts:244-389 | The transaction is the specified manifest step; a refusal leaves every table as it was. |
| `RecommendationStore.Store.IngestAggregate` | packages/pack-recommendations/src/store.ts:399-474 | The transaction is the specified aggregate step; a refusal leaves every table as it was. |
| `RecommendationStore.Store.Build` | packages/pack-recommendations/src/store.ts:475-595 | Stores an exact model and makes it current, or fails with no effect exactly for a regressed clock, a refused registration, size or overflow. |
| `RecommendationStore.Store.Plan` | packages/pack-recommendations/src/store.ts:596-611 | Scores with the current model of exactly this configuration. |
| `RecommendationStore.Store.RecordDecision` | packages/pack-recommendations/src/store.ts:612-642 | Plans, checks and stores a decision under its digest, or leaves every table as it was. |
| `RecommendationStore.Store.Prune` | packages/pack-recommendations/src/store.ts:705-730 | Removes exactly what is past retention and counts the days removed. |
| `SharelinkLease.OnePasses` | packages/pack-toss-sharelink/src/store.ts:101-109 | At any instant at most one owner passes the lease guard. |
| `SharelinkLease.OnlyTheHolderWrites` | packages/pack-toss-sharelink/src/store.ts:20-28 | The account row changes only in the hands of the owner of the unexpired lease, or by taking a lapsed lease. |
| `SharelinkLease.OutForever` | packages/pack-toss-sharelink/src/store.ts:93-138 | An owner whose lease lapsed or was taken over never passes the guard again, never calls again and never releases the lease of another. |
| `SharelinkLease.LeaseIsShort` | packages/pack-toss-sharelink/src/store.ts:111-122 | A lease never outlives its last renewal by more than its length. |
| `SharelinkLease.LeaseHolds` | packages/pack-toss-sharelink/src/store.ts:98-125 | Within its lease a session keeps the account and passes the guard, whatever others do, unless it releases it itself. |
| `SharelinkLease.LeaseGivesAMinute` | packages/pack-toss-sharelink/src/store.ts:98-125 | Taking or extending the lease gives a minute from the reading of the clock. |
| `SharelinkLease.CooldownHolds` | packages/pack-toss-sharelink/src/store.ts:188-212 | Once a cooldown is committed, no owner starts a call before it ends. |
| `SharelinkLease.ReleaseFrees` | packages/pack-toss-sharelink/src/store.ts:129-137 | The release of the holder frees the account at once; anyone else's changes nothing. |
| `SharelinkLease.BlockOnlyGrows` | packages/pack-toss-sharelink/src/store.ts:205-213 | The cooldown of an account never moves back. |
| `SharelinkLease.CallsAreSpaced` | packages/pack-toss-sharelink/src/store.ts:187-203 | If each owner paces one call at a time, calls under the account are at least one pace apart across all owners and takeovers. |
| `SharelinkLease.OverlappingPacesAreNotSpaced` | packages/pack-toss-sharelink/src/store.ts:187-203 | A concrete run in which one owner overlaps two paced calls, and they are not spaced. |
| `SharelinkStore.SharelinkStore.AcquireAccount` | packages/pack-toss-sharelink/src/store.ts:93-103 | Takes the lease exactly when it is free, and the guard passes until it lapses. |
| `SharelinkStore.SharelinkStore.KeepAlive` | packages/pack-toss-sharelink/src/store.ts:114-125 | Extends the lease exactly while it is still held, and otherwise marks it lost for good. |
| `SharelinkStore.SharelinkStore.ReleaseAccount` | packages/pack-toss-sharelink/src/store.ts:129-137 | Clears the lease only if it is still the owner's. |
| `SharelinkStore.SharelinkStore.PaceCommit` | packages/pack-toss-sharelink/src/store.ts:187-203 | Moves the next call one pace ahead under the guard, or changes nothing. |
| `SharelinkStore.SharelinkStore.Block` | packages/pack-toss-sharelink/src/store.ts:205-213 | Raises the cooldown under the guard, or changes nothing. |
| `SharelinkStore.SharelinkStore.BindApp` | packages/pack-toss-sharelink/src/store.ts:140-185 | Binds an app by the revision rule under the guard, or changes nothing. |
| `SharelinkStore.BindingHistory` | packages/pack-toss-sharelink/src/store.ts:140-185 | Over any sequence of bindings an app never moves to another account and never goes back a revision, and one revision means one configuration. |
| `SharelinkBudget.NextKstDayBounds` | packages/pack-toss-sharelink/src/store.ts:11-12 | The next Korean midnight lies after now and within a day, is the same for the whole day, and never moves back. |
| `SharelinkBudget.LedgerBalances` | packages/pack-toss-sharelink/src/store.ts:215-238 | At every moment each stored row is the exact account of the reservations accepted for its day, within limits that are the least budgets under which one was accepted. |
| `SharelinkBudget.EveryAcceptedBudgetHolds` | packages/pack-toss-sharelink/src/store.ts:215-238 | What a day uses never exceeds any budget under which one of its reservations was accepted. |
| `SharelinkBudget.CurrentDayIsKept` | packages/pack-toss-sharelink/src/store.ts:287-299 | The day in progress is never pruned. |
| `SharelinkBudget.AcceptedIffRemaining` | packages/pack-toss-sharelink/src/operations.ts:76-130 | A real reservation is accepted exactly when it fits the reported remainder and the account is solvent. |
| `SharelinkBudget.FittingTheReportIsNotEnough` | packages/pack-toss-sharelink/src/operations.ts:112-125 | A concrete account that shrank below its usage: a reservation fits the report and is refused. |
| `SharelinkBudget.PlannedWorkIsNeverRefused` | packages/pack-toss-sharelink/src/store.ts:215-238 | Work that fits the remainder reported at a time and is done the same day never meets the daily budget. |
| `SharelinkStore.SharelinkStore.Reserve` | packages/pack-toss-sharelink/src/store.ts:215-238 | Lowers the limits and adds the usage, or rolls both back when the reservation is refused. |
| `SharelinkStore.SharelinkStore.Prune` | packages/pack-toss-sharelink/src/store.ts:287-299 | Removes exactly the budget days past retention and the results of unknown apps. |
| `RefreshPreview.Picker.Pick` | packages/pack-toss-sharelink/src/refresh-priority.ts:293-315 | The loop over the pool, with its shared counters, is one greedy pass. |
| `RefreshPreview.PickForApp` | packages/pack-toss-sharelink/src/refresh-priority.ts:316-340 | The three passes in order: reserved exploration, demand, exploration in what is left. |
| `RefreshPlan.PassIsGreedy` | packages/pack-toss-sharelink/src/refresh-priority.ts:293-315 | If a pass leaves out a candidate that is still affordable at its end, it stopped because its limit or the plan was full, and everything it took comes no later in the order. |
| `RefreshPlan.PlanDraws` | packages/pack-toss-sharelink/src/refresh-priority.ts:289-340 | After all passes the counters equal the cost of the selected candidates and stay within the allowance, nothing is selected twice, and each reason matches the candidate. |
| `RefreshPlan.DemandIsGreedy` | packages/pack-toss-sharelink/src/refresh-priority.ts:334-334 | A wanted subject deferred for capacity means a full plan in which no demand pick comes later in demand order. |
| `RefreshPlan.ExplorationIsGreedy` | packages/pack-toss-sharelink/src/refresh-priority.ts:333-340 | An exploration subject deferred for capacity means that exploration got its reserved slots, in order, and with a positive fraction that the plan is full. |
| `RefreshPlan.CapacityMeansFull` | packages/pack-toss-sharelink/src/refresh-priority.ts:383-399 | With exploration on, or for a wanted subject, "capacity" is reported exactly for what still fits the allowance of a full plan. |
| `RefreshPlan.CapacityWithoutExploration` | packages/pack-toss-sharelink/src/refresh-priority.ts:335-340 | Without exploration an unwanted subject is deferred for capacity although nothing was selected. |
| `RefreshPlan.ReservedSlotsRound` | packages/pack-toss-sharelink/src/refresh-priority.ts:317-332 | The reserved slots are the exact fraction less the draw, rounded up: the draw decides between the two neighbours; they never exceed the plan. |
| `RefreshBudget.PreviewPartitions` | packages/pack-toss-sharelink/src/refresh-priority.ts:383-386 | Selected and deferred together are exactly the enabled subjects of the app, each once. |
| `RefreshBudget.CapacityDeferralMeansFull` | packages/pack-toss-sharelink/src/refresh-priority.ts:391-397 | In the preview of an app with exploration on, a deferral for capacity is reported exactly for what is affordable in a full workset. |
| `RefreshBudget.SharesFit` | packages/pack-toss-sharelink/src/refresh-priority.ts:219-224 | Rounding every share down never hands out more than there is. |
| `RefreshMeaning.AllowancesAreFloors` | packages/pack-toss-sharelink/src/refresh-priority.ts:203-226 | Every previewed app may plan with its exact weighted share of what its account has left, rounded down: the allowance times the whole is at most the remainder times the weight, and one more would exceed it, for products and links. |
| `RefreshMeaning.WeighsUniquely` | packages/pack-toss-sharelink/src/refresh-priority.ts:203-218 | Weight and whole are determined by the inputs: the shares of the policy, or one per app of the account. |
| `RefreshMeaning.CandidatesMean` | packages/pack-toss-sharelink/src/refresh-priority.ts:239-274 | Each candidate describes its subject: reach and urgency from the demand, expiry and waiting from its offer, the review from its manual. |
| `RefreshMeaning.OrdersMean` | packages/pack-toss-sharelink/src/refresh-priority.ts:275-288 | Demand order is urgent, overdue, greater reach, earlier expiry, then the tie; exploration order is overdue, then the tie. |
| `RefreshMeaning.WantedInOrder` | packages/pack-toss-sharelink/src/refresh-priority.ts:290-340 | A wanted subject deferred although there was room means a workset full of wanted subjects before it in that order and of exploration. |
| `RefreshMeaning.ExplorationInOrder` | packages/pack-toss-sharelink/src/refresh-priority.ts:290-340 | An unwanted subject deferred although there was room means explored subjects before it, and with exploration on a full workset. |
| `RefreshMeaning.SelectedIsOrdered` | packages/pack-toss-sharelink/src/refresh-priority.ts:341-346 | A workset lists what is wanted before what is explored, each in demand order. |
| `RefreshMeaning.DeferredIsOrdered` | packages/pack-toss-sharelink/src/refresh-priority.ts:383-399 | What is deferred is listed in demand order. |
| `RefreshMeaning.CooldownIsHonoured` | packages/pack-toss-sharelink/src/refresh-priority.ts:290-310 | While the account cools down nothing is selected but subjects under a current manual review. |
| `RefreshMeaning.PreviewExpiryIsLeast` | packages/pack-toss-sharelink/src/refresh-priority.ts:227-229 | A preview lasts as long as the demand, a quarter of an hour and the budget day allow, whichever is least. |
| `RefreshMeaning.WorksetExpiryIsLeast` | packages/pack-toss-sharelink/src/refresh-priority.ts:362-373 | A workset lasts as long as the preview and the manual reviews of its subjects, whichever is least. |
| `RefreshMeaning.PreviewFitsBudget` | packages/pack-toss-sharelink/src/refresh-priority.ts:203-226 | What is planned for an account never exceeds its configured budget, whatever its status claims. |
| `RefreshMeaning.DemandedAreCandidates` | packages/pack-toss-sharelink/src/refresh-priority.ts:143-202 | Every subject that a validated demand asks for is a candidate with the reach asked for. |
| `RefreshBudget.EveryAppHasAShare` | packages/pack-toss-sharelink/src/refresh-priority.ts:230-234 | The failure "Missing app allowance" cannot happen for validated inputs. |
| `RefreshBudget.PreviewIffValid` | packages/pack-toss-sharelink/src/refresh-priority.ts:143-202 | A preview is produced exactly for validated inputs, for every configured app. |
| `RefreshBudget.PreviewFitsAccount` | packages/pack-toss-sharelink/src/refresh-priority.ts:203-226 | The estimates of all selected subjects of all apps of an account fit what the account has left. |
| `RefreshBudget.EstimatesHold` | packages/pack-toss-sharelink/src/refresh-priority.ts:362-373 | Until the workset expires every selected subject costs at most what the preview estimated, manual reviews that run out included. |
| `SharelinkProvider.Provider.Request` | packages/pack-toss-sharelink/src/provider.ts:65-153 | Units are reserved before anything is sent; the local daily budget refuses exactly what the ledger does not accept; a response is the one that arrived, a failure the one that occurred. |
| `SharelinkProvider.Provider.ListPage` | packages/pack-toss-sharelink/src/provider.ts:283-336 | A page costs at most 30 products; it is the cached one while that is good, otherwise the well-formed items that arrived, in order, cached until the source refreshes or a product ends; and it fails exactly for the named causes. |
| `SharelinkProvider.Provider.Detail` | packages/pack-toss-sharelink/src/provider.ts:339-365 | A detail costs at most one product; it is the cached one while good for five more minutes, otherwise the one that arrived, about the product asked for and good for a quarter of an hour or until the product ends. |
| `SharelinkProvider.Provider.Issue` | packages/pack-toss-sharelink/src/provider.ts:420-448 | A link costs at most one link; it is the cached one while good, otherwise the one that arrived, cached for thirty days under its product and tag. |
| `ResolveSubject.EligibleProducts` | packages/pack-toss-sharelink/src/matching.ts:31-62 | The loop keeps exactly the products that satisfy the rules, were on no earlier page and have no earlier suitable product of the same id, in page order. |
| `ResolveSubject.TryCandidate` | packages/pack-toss-sharelink/src/service.ts:198-241 | The verdict on a candidate is the one the answers call for: no detail, stale, unsuitable, refused, too short, offered, or the failure that occurred. |
| `ResolveSubject.SearchPages` | packages/pack-toss-sharelink/src/service.ts:175-254 | The nested loop leaves a trace of the pages read and the products tried that determines its answer, its reason to stop and its counts; it costs what those pages and products cost at most. |
| `ResolveSubject.Resolve` | packages/pack-toss-sharelink/src/service.ts:137-255 | Disabled, the current manual review, or the outcome of the whole search as its trace calls for. For any cache and any answers it reserves at most the static estimate at its start, and the daily budget refuses it only if the ledger does not accept its asks. |
| `ResolveMeaning.NoMatchMeans` | packages/pack-toss-sharelink/src/service.ts:175-254 | No match only if on every page read each product in turn, three in all, was tried and passed over for a stated cause, and the pages ran out or a limit was reached, which is the reason reported. |
| `ResolveMeaning.ReadyMeans` | packages/pack-toss-sharelink/src/service.ts:196-241 | An offer comes from the first candidate not passed over; its detail had more than a minute left and satisfied the rules, and so had the offer, which says what the detail and the link say. |
| `ResolveMeaning.SuitableIsTried` | packages/pack-toss-sharelink/src/service.ts:182-201 | Without a learned order every suitable product that no earlier page listed has its turn, in page order. |
| `ResolveMeaning.SuitablesAreNew` | packages/pack-toss-sharelink/src/matching.ts:31-62 | The suitable products of a page have distinct ids, none of them listed on an earlier page. |
| `ResolveMeaning.InspectionCounts` | packages/pack-toss-sharelink/src/service.ts:181-200 | An inspection counts the pages read, none for a pinned subject, and the products tried, three at most, whatever the outcome. |
| `ResolveMeaning.EstimateIsTheLimit` | packages/pack-toss-sharelink/src/refresh-priority.ts:118-131 | The static estimate is the cost of a search that uses up its pages and its candidates. |
| `RefreshRun.RefreshAll` | packages/pack-toss-sharelink/src/service.ts:357-393 | Refreshing subjects one after the other reserves at most the sum of their estimates, and exactly the disabled ones come out disabled. |
| `RefreshRun.WorksetIsRunnable` | packages/pack-toss-sharelink/src/refresh-priority.ts:362-373 | Before a workset expires, running it costs at most the estimate that the preview reported. |
| `RefreshRun.AccountRefreshIsNeverRefused` | packages/pack-toss-sharelink/src/refresh-priority.ts:118-131 | End to end: when every app of an account runs its workset within the estimate, the same day and from the reported remainder, the daily budget refuses nothing. |
| `BoundedOutput.ReadBoundedOutput` | packages/executor-process/src/index.ts:145-210 | The captured output is a function of the bytes of the stream alone. |
| `BoundedOutput.ChunkingIsInvisible` | packages/executor-process/src/index.ts:157-199 | However a stream is cut into chunks, its capture is the same. |
| `BoundedOutput.CaptureIsExact` | packages/executor-process/src/index.ts:145-210 | Short streams are kept whole, long ones keep exactly their first and last bytes, and the dropped count is exact. |
| `BoundedOutput.Reader.Read` | packages/executor-process/src/index.ts:157-199 | After each chunk no more than the two bounds together is held. |
| `RateLimiter.InMemoryRateLimiter.Check` | apps/server/src/lib/rate-limit.ts:39-84 | A request is admitted exactly when the full, never swept history admits it: the lazy sweep is invisible. |
| `RateLimiter.WindowIsBounded` | apps/server/src/lib/rate-limit.ts:39-84 | No key is admitted more often than the limit in any window of the configured length. |
| `RateLimiter.RetryHintIsHonoured` | apps/server/src/lib/rate-limit.ts:39-84 | Whoever waits as long as the hint says is admitted, if nothing of the key was admitted meanwhile, exactly when the limit admits anything. |
| `RateLimiter.RetryHintIsTight` | apps/server/src/lib/rate-limit.ts:46-56 | Coming back a second before the hinted time is never enough, unless the first admission in the window is stamped with time zero. |
| `RateLimiter.HintWithoutAFirst` | apps/server/src/lib/rate-limit.ts:46-56 | Without a first admission to count from, or with one stamped zero, the hint is the whole window rounded up. |

## Left out

- RecommendationStore.Store.IngestManifest: a sampler group of more than 1000 assignments is refused with the same error as a group that does not match the draws.
- RunStore.Store.RetryRun: the request body is not modelled, only what decides scheduling and limits.
- LearningBuild.Scan: which of several failures is reported depends on the scan order, so only that it fails is stated.
- LearningModel.BuildModel: the rows are sorted by their key text, but that distinct keys have distinct texts is not proved; nothing depends on the order of rows.
- ResolveSubject.Resolve: matching is an arbitrary condition on a product and the time, learned ordering an arbitrary function of the suitable products, the category tree is not modelled, and categories may fail but cost nothing.
- ResolveMeaning.SuitableIsTried: says nothing about a learned order, which may be any list.
- RefreshRun.AccountRefreshIsNeverRefused: assumes that nobody else reserves from the account that day and that its configured budget stays the same.
- SharelinkLease.CallsAreSpaced: assumes that each owner paces sequentially; the overlapping case is shown separately.
- RateLimiter.InMemoryRateLimiter.Check: times are nondecreasing, as a monotone clock gives them.
- Writes to runs without a claim token, which administrative callers make unconditionally.
- Worker heartbeats, audit events, vacuuming and the worker's polling loop: no effect on runs or events.
- SQL, busy retries, JSON columns, schema migrations and the order of events with equal timestamps in run details.
- Length and count limits of the schemas, except where a property needs them; the rest of each schema is an invariant of the data.
- Floating-point rounding: scores, weights and probabilities are exact reals; the tolerance of 1e-12 on applied probabilities is kept.
- SHA-256 and UUIDs: digests are their content, identifiers are fresh values, and derived uniform numbers are arbitrary.
- UTF-8 decoding and the text of the truncation marker of captured output: the model is about bytes.
- Processes, signals, timers, HTTP, OAuth and file publication; the provider's answers are arbitrary values.
- Reports, settlement, sub-tags, publication pointers, the catalog, the admin UI, the CLI and the HTTP API.
