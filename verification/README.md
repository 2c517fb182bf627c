# OpenMasu in Dafny

OpenMasu is a measurement ledger: SDK batches, imports and Apple postbacks are evaluated into deliveries, logical
events, rejections and attributions, which metrics are then computed from. This project models its contract evaluator
and the stateful protocols around it, and proves what they promise.

- **The evaluator** (`Contract`, `Decisions`, `Attributions`, `Evaluation`, `Evaluator`). Attempts are sorted by a key of
  UTF-16 code units (`CanonicalOrder`), decided one by one against all others, and every output list is sorted again.
  `Evaluation.Evaluate` is the specification; `Evaluator.Run` is the imperative evaluator with its decision table and
  proved to compute it. `LogicalIds` has the joined IDs of logical events and the producers the contract allows.
  `OrderIndependence`, `ScopeSplit`, `Conservation` and `Meaning` state what the specification guarantees. `Money`,
  `Metrics` and `MetricOrder` do the same for revenue and counts.
- **What an output says** (`TextOrder`, `Acceptance`, `Verdicts`, `Outputs`, `MetricMeaning`). These modules describe the
  evaluator's results without its steps: when a delivery is accepted or rejected, what an install is attributed to, every
  column and the order of every output list, when there is an output at all, and which installs, events and revenue a
  metric counts. Orders are described by the first place where two texts differ, times by literal lengths. `Columns`,
  `PrivacyReach`, `ReportMeaning` and `JsonReading` do the same for stored fact rows, privacy passes, reports and
  canonical JSON.
- **Ingestion over time** (`Incremental`, `Runs`, `ImportHistory`). `Incremental` compares one ingestion of history and
  pending deliveries with one evaluation of everything, `Runs` whole runs of calls, each of which stores its scopes one
  after the other until one throws, and `ImportHistory` the shortened history an import evaluates with.
  `FailingInputs` has inputs on which a promise of the ingestion fails.
- **Protocols over whole runs.** `RequestNonces` (replay protection), `RateLimit` (token buckets), `HourlyQuota` (the
  pruned postback counter), `AdServices` (lookup retries), `PrivacyReapply` (completed deletions applied again) and
  `BulkProjection` and `FactRows` (logical events and fact tables, attempt by attempt and in chunks). The objects with
  mutable fields are classes; each method is tied to a function of the old state, and the theorems are about those
  functions.
- **Printers, encoders and queries.** `CanonicalJson`, `Csv`, `FormEncoding`, `InstallReferrer`, `MetricQueries` and
  `Paging`.
- **Helpers.** `Outcomes`, `Sequences`, `Partitions`, `Joining`, `Decimals`.

Modelling conventions. The digest is an injective function of the artifact it digests. Timestamps are texts with a
partial parse to integer milliseconds, so invalid ones stay representable. Tables are maps with insert-if-absent where
the statement says `ON CONFLICT DO NOTHING`. Floating-point tokens and times are reals. Strings are Unicode code point
sequences; where the program compares UTF-16 units, so does the model. Clocks, the network, the metric engine, the
limiter's verdicts and stored payloads are parameters of the step that reads them.

## Findings

Some promises hold only under a condition; the project proves exactly which, with an input on which they fail.

- A call whose evaluation throws stores nothing for the scopes from there on, and its deliveries are in no later history.
  So a reinstall ingested before the first install it names is lost, although one evaluation of both keeps it
  (`FailingInputs.ReinstallBeforeInstall`). `Runs.RunHoldsExactlyWhen` says for every run when the table holds what one
  evaluation of everything gives: if and only if no two of its events share an ID, no dropped delivery would have been
  kept, and what was offered first under an ID comes from the earliest delivery of its event. For runs in arrival order of
  one scope only the drops remain (`Runs.RunAgreesExactlyWhenDropsAreImmaterial`), and with no throw every such run agrees
  (`Runs.RunAgreesInOneScope`).
- Logical event IDs are joined with `:` and identifiers may contain it, so two applications of one tenant can share an ID,
  and the table then keeps one of two accepted events (`FailingInputs.SharedIdLosesEvent`). For runs in arrival order in
  which nothing throws that is the only way to differ (`Runs.RunAgreesExactlyWhenIdsDiffer`). Within one scope the
  producers the contract allows rule it out (`LogicalIds.LogicalIdNamesEvent`), which is also why the bulk path always
  agrees with the path attempt by attempt (`BulkProjection.BulkMeansRowByRow`).
- The rows of one imported file are received at one time, so their canonical order is that of their record IDs, which are
  digests. When a row of a later chunk sorts before an earlier chunk's row of its event, both chunks accept their row as
  the event's one delivery, and the table keeps the one that one evaluation decides to be the duplicate
  (`FailingInputs.LaterChunkSortsFirst`).
- An import evaluates a chunk with the earlier deliveries of the chunk's own events. That decides the chunk's deliveries as
  all history does when record IDs are new (`ImportHistory.ChunkHistoryDecides`), but prior installs, refund targets and
  referenced clicks are found under other events: an imported reinstall throws that all history would let pass
  (`FailingInputs.ImportedReinstallThrows`).
- Appending the deliveries an ingestion keeps repeats an earlier one when its delivery ID is reused under a new record ID,
  as when one file is imported under two sources: `FailingInputs.ReusedDeliveryIdRepeats`, and exactly when in
  `Incremental.DeliveriesAgreeExactlyWhenIdsAreFresh`.
- Nonces prevent replay exactly when they outlive the whole window a timestamp is accepted in:
  `RequestNonces.ShortTtlAllowsReplay` and `RequestNonces.ReplayProtectionExactlyWhen`.
- Following report cursors stops with an error at a page boundary whose run ID is too long for a cursor, which a manual run
  of a metric with a name of 86 characters has: `Paging.LongRunIdStopsReport`, and exactly when in
  `Paging.FollowYieldsEverything`.
- A 200 reply that does not normalise ends the pass and leaves its row first in line: later lookups of the tenant wait until
  that row is 23 hours old (`AdServices.Starvation`, `AdServices.StarvationEnds`), and the provider is called without
  bound (`AdServices.BoundIsMet`).
- Dropping idle rate-limiter keys can be noticed exactly when the time-to-live does not refill a bucket:
  `RateLimit.ForgettingShowsExactlyWhen`.

## Model

| member | source | states |
|---|---|---|
| CanonicalOrder.SortCanonical | tools/python_evaluator.py:112-123 | Sorting by UTF-16 keys gives one list for every order of the input when equal keys mean equal elements |
| CanonicalOrder.Utf16Injective | tools/python_evaluator.py:112-117 | The code units of a text determine the text |
| TextOrder.Utf16OrderMeans | tools/python_evaluator.py:112-117 | A text sorts before another if and only if, where they first differ, it ends or its character has the smaller UTF-16 code unit, surrogate pairs below U+E000 |
| TextOrder.KeyOrderMeans | tools/python_evaluator.py:112-123 | Sort keys order by the first of their texts that differs |
| Decisions.AttemptKeyTies | tools/python_evaluator.py:170-184 | Attempts that tie on the whole sort key carry the same record in the same scope |
| Decisions.CollisionRejected | tools/python_evaluator.py:443-470 | An attempt whose record ID occurs twice is rejected, for a scope mismatch, a collision or a bad timestamp and nothing else |
| Decisions.UniquePerEvent | tools/python_evaluator.py:206-208 | Two accepted unique attempts of one (tenant, app, producer, event ID) are the same position |
| Decisions.DecisionDependsOn | tools/python_evaluator.py:423-493 | A decision reads the other attempts only through whether the record ID repeats and which delivery of the event comes first |
| Meaning.AcceptedExactlyWhen | tools/python_evaluator.py:423-493 | A delivery is the accepted one if and only if it is admissible by itself, no other input record has its ID, and no delivery of its event sorts before it |
| Meaning.DuplicateMeans | tools/python_evaluator.py:443-455 | A later delivery is a duplicate exactly when its payload equals the first one's, and a conflict otherwise |
| Meaning.BasisFoundExactlyWhen | tools/python_evaluator.py:330-346 | A documented basis is found if and only if one for the purpose is in effect when the record is received |
| Meaning.ConsentRefusedExactlyWhen | tools/python_evaluator.py:312-357 | Consent refuses a record if and only if its purpose needs consent, the withdrawal came first, and no documented basis is in effect |
| Meaning.ReferrerCreditExactlyWhen | tools/python_evaluator.py:542-685 | A referrer install is credited if and only if exactly one accepted click has its ID, is no prefetch, and lies within seven days; click and install are the evidence |
| Acceptance.AcceptedWhenReceivedFirst | tools/python_evaluator.py:170-184 | A delivery is the accepted one of its event if and only if it is valid in itself, its record ID is its alone, and every other delivery of the event was received at a later text or, at the same, has a later record ID |
| Acceptance.RejectedExactlyFor | tools/python_evaluator.py:443-471 | Every delivery is rejected for the first of seven reasons that applies, each said of fields, times and the event's first delivery, and accepted when none does |
| Acceptance.DecisionColumns | tools/python_evaluator.py:459-493 | Duplicate kind, lateness, clock skew, disposition, canonical record and staleness of every decision are those of the input |
| Acceptance.ConsentTraced | tools/python_evaluator.py:312-405 | A decision traces consent to the first purpose, withdrawal and covering basis that the record names, invalid times included |
| Verdicts.StatusExactlyWhen | tools/python_evaluator.py:542-685 | An install is organic, non-organic or unattributed if and only if its payload and the accepted clicks say so, and without a status only when Meta's model or a valid time is missing |
| Verdicts.VerdictExplained | tools/python_evaluator.py:542-685 | Channel, model, reason and evidence of every verdict follow from the evidence that decides it |
| Attributions.VerdictDependsOn | tools/python_evaluator.py:542-685 | An install's verdict depends on the accepted attempts only through the clicks of its own scope |
| Evaluator.DecisionKeyNames | tools/python_evaluator.py:223-238 | When a batch determines its context, the decision-table key names one attempt |
| Evaluator.DecideAll | tools/python_evaluator.py:1382-1398 | The decision loop's table returns for each attempt its own decision, never another's |
| Evaluator.Select | tools/python_evaluator.py:1399-1422 | The table-driven lists are the accepted, conflicting and rejected attempts of the specification, in order |
| Evaluator.CheckAnchors | tools/python_evaluator.py:240-270 | The set-based loop accepts if and only if every install has its own anchor and each re-install's prior anchor is among the installs |
| Evaluator.Run | tools/python_evaluator.py:1377-1484 | The imperative evaluator returns exactly the specified output, and fails on exactly the same inputs |
| Outputs.RawAttemptsMean | tools/python_evaluator.py:170-178 | The attempts are the records of the batches with their batch's context and ID |
| Outputs.EvaluatesExactlyWhen | tools/python_evaluator.py:187-270 | There is an output if and only if every delivery passes the provider, anchor-source, policy-digest and refund checks and every accepted install is anchored and has a status |
| Outputs.LogicalRows | tools/python_evaluator.py:1455-1469 | The logical events are, column by column, the rows of the accepted deliveries that privacy has not removed, and no others |
| Outputs.RawRows | tools/python_evaluator.py:507-539 | Raw records are the rows of accepted and conflicting deliveries that privacy has not removed, and each of those has one |
| Outputs.DeliveryRows | tools/python_evaluator.py:1407-1454 | Every delivery row is an attempt's, with the decision the input makes, or a refusal's |
| Outputs.AttemptHasDelivery | tools/python_evaluator.py:1407-1433 | Every attempt has its delivery row |
| Outputs.RejectionRows | tools/python_evaluator.py:1761-1784 | Every rejection is the row of a rejected attempt, with what its decision says, or of a refusal |
| Outputs.RejectedHasRow | tools/python_evaluator.py:1761-1784 | Every attempt rejected for a reason has its row |
| Outputs.AttributionRows | tools/python_evaluator.py:542-775 | Base attributions are, column by column, the rows of the accepted installs, postbacks and deep-link opens, and each of those has one; an install's is superseded once privacy removed a record it rests on |
| Outputs.OutputsInOrder | tools/python_evaluator.py:120-152 | The rows of every output list never go back in their listed texts |
| OrderIndependence.DecisionReordered | tools/python_evaluator.py:423-493 | An attempt's decision is the same for every arrival order |
| OrderIndependence.EvaluateOrderIndependent | tools/python_evaluator.py:1377-1469 | Inputs delivering the same attempts in any order fail together or give identical output sequences, ties on the whole key included |
| OrderIndependence.ReorderingInvariant | tools/python_evaluator.py:170-184 | Shuffling batches, and records inside each batch, changes no output sequence |
| Conservation.OneDeliveryPerAttempt | tools/python_evaluator.py:1382-1398 | As multisets, deliveries match attempts and pre-ingestion refusals one to one |
| Conservation.OneRejectionPerRejectedDelivery | tools/python_evaluator.py:1761-1784 | As multisets, rejections match rejected deliveries one to one with the same reason and disposition |
| Conservation.LogicalEventsDistinct | tools/python_evaluator.py:1455-1469 | No two logical events stand for one event of one producer in one scope |
| LogicalIds.ProducerJoinInjective | schemas/raw-record.schema.json:18-18 | For producers the contract allows, a producer joined with an event ID determines both: none, followed by the separator, starts another's join |
| LogicalIds.LogicalIdNamesEvent | tools/python_evaluator.py:1458-1458 | In one scope equal logical event IDs of allowed producers mean the same producer and event |
| Conservation.OneScopeIdsDistinct | tools/python_evaluator.py:1455-1469 | The evaluator never gives two logical events of one scope the same ID |
| Conservation.KeptIdsOccurOnce | tools/python_evaluator.py:443-470 | Whatever is kept, as accepted or as conflict evidence, has a record ID that occurs once |
| Conservation.RejectedWithReason | tools/python_evaluator.py:456-493 | A decision is rejected if and only if it has a reason |
| ScopeSplit.ScopeEvaluatesAlone | apps/worker/src/ingestion.ts:1236-1255 | Evaluating one (tenant, app) alone gives exactly its artifacts of the whole evaluation, in order, when record IDs stay in one scope |
| ScopeSplit.EvaluableByScope | tools/python_evaluator.py:187-270 | The whole batch is evaluable if and only if each of its scopes is |
| ScopeSplit.ScopesOf | apps/worker/src/ingestion.ts:1236-1243 | The loop lists every scope that occurs, once, and no other |
| ScopeSplit.ScopesInOrder | apps/worker/src/ingestion.ts:1243-1243 | Scopes are ingested in the order of their joined texts |
| ScopeSplit.IngestScope | apps/worker/src/ingestion.ts:1284-1305 | Ingesting one scope with its own history keeps exactly the scope's part of what everything at once keeps, or fails as that scope does |
| ScopeSplit.IngestByScope | apps/worker/src/ingestion.ts:1236-1255 | The scoped ingestions succeed if and only if the scopes touched are evaluable together; appended, they are as multisets the artifacts of one evaluation that name something pending in their own scope |
| ScopeSplit.IngestKeepsExactly | apps/worker/src/ingestion.ts:1287-1298 | An ingestion keeps just the rows that name a pending record or delivery, and the attributions about a pending record or resting on one |
| Incremental.DecisionIsFinal | apps/worker/src/sdk-worker.ts:282-310 | Evaluating later deliveries with new record IDs changes no earlier delivery's decision |
| Incremental.AcceptedGrow | apps/worker/src/ingestion.ts:1278-1305 | The accepted attempts of everything are the history's, followed by newly accepted ones |
| Incremental.LogicalStep | apps/worker/src/ingestion.ts:1287-1298 | Keeping only current artifacts appends exactly the logical events a one-shot evaluation adds |
| Runs.Inbox.Process | apps/worker/src/ingestion.ts:1236-1305 | One call stores what each scope keeps, scope after scope where the ID is absent, up to the first that throws, and joins the history if and only if none does |
| Runs.RunHoldsExactlyWhen | apps/worker/src/sdk-worker.ts:282-351 | For every run with fresh record IDs, throwing calls included, the table holds exactly the logical events of one evaluation if and only if their IDs differ, nothing dropped would be kept, and first offers come from earliest deliveries |
| Runs.RunAgreesExactlyWhenIdsDiffer | apps/worker/src/ingestion.ts:255-271 | If no call throws, a run in arrival order leaves the logical events of one evaluation, each under its ID, if and only if no two of them share an ID |
| Runs.RunAgreesInOneScope | apps/worker/src/sdk-worker.ts:282-310 | In one scope, with allowed producers, every run in arrival order in which no call throws agrees with one evaluation of everything |
| Runs.RunAgreesExactlyWhenDropsAreImmaterial | apps/worker/src/sdk-worker.ts:311-351 | In one scope a run whose calls may throw agrees with one evaluation if and only if every delivery of a throwing call would not have been kept and, where it is the earliest of its event, none of that event was stored later |
| Runs.LedgerOnlyGrows | apps/worker/src/ingestion.ts:1167-1171 | Over a run, throwing calls included, no row of the logical events changes or goes |
| FailingInputs.ReinstallBeforeInstall | tools/python_evaluator.py:240-270 | A reinstall ingested before the first install it names throws, and the table never holds its event, which one evaluation of both accepts and keeps |
| FailingInputs.SharedIdLosesEvent | tools/python_evaluator.py:1458-1458 | Two accepted clicks of one tenant, with allowed producers, share an ID, no call throws, and the table does not hold both |
| Incremental.DeliveriesAgreeExactlyWhenIdsAreFresh | apps/worker/src/ingestion.ts:1289-1297 | The deliveries an evaluation that does not throw keeps complete the history's to the one-shot deliveries if and only if no delivery ID is reused |
| FailingInputs.ReusedDeliveryIdRepeats | apps/worker/src/import/runner.ts:71-72 | A later batch with a new record ID and an old delivery ID, which evaluates without an error, makes the appended deliveries differ from the one-shot ones |
| ImportHistory.ChunkHistoryDecides | apps/worker/src/import/runner.ts:176-194 | With new record IDs, the history of the chunk's own events decides every delivery of the chunk as all history does |
| ImportHistory.ChunkHistoryKeepsLogical | apps/worker/src/import/runner.ts:189-194 | A chunk keeps the same logical events, in order, as with all history |
| ImportHistory.ChunkHistoryKeepsDeliveries | apps/worker/src/import/runner.ts:189-194 | With new delivery IDs too, a chunk appends the same deliveries, in order, as with all history |
| FailingInputs.ImportedReinstallThrows | apps/worker/src/import/runner.ts:176-194 | An imported reinstall passes beside all history and throws with the history of its own event |
| FailingInputs.LaterChunkSortsFirst | apps/worker/src/import/runner.ts:189-200 | Two rows of one event in two chunks are each accepted as the unique one, and the table differs from one evaluation |
| Money.RoundIsHalfEven | tools/python_evaluator.py:778-787 | The rounded value is a nearest integer, the even one on a tie |
| Money.HalfEvenUnique | tools/python_evaluator.py:778-787 | That condition leaves only one value, so it defines the function |
| Money.RoundOdd | tools/python_evaluator.py:778-787 | Rounding a negated fraction negates the result |
| Money.RoundMonotone | tools/python_evaluator.py:778-787 | Rounding keeps the order of numerators |
| Money.SumWithinHalfEach | tools/python_evaluator.py:790-796 | A sum of n converted amounts is within n/2 target units of the exact real sum |
| Money.ConvertMonotone | tools/python_evaluator.py:790-796 | Conversion keeps order and sign within a currency and scale |
| Money.ConvertMeans | tools/python_evaluator.py:790-796 | A converted amount is within half a target unit of the amount times the first rate of its currency, both read as decimal fractions |
| Money.ConvertsExactlyWhen | tools/python_evaluator.py:791-793 | An amount converts if and only if a rate of its currency is listed |
| Metrics.RevenueValue | tools/python_evaluator.py:1084-1096 | The accumulation loop returns the specified sum, or its first error |
| Metrics.RevenueWithinHalfEach | tools/python_evaluator.py:1084-1096 | Cohort revenue is within half a unit per counted item of the exact sum |
| Metrics.ElapsedRevenueMonotone | tools/python_evaluator.py:951-957 | For amounts that are not negative, a later elapsed window never shows less revenue |
| MetricMeaning.CountsExactlyWhen | tools/python_evaluator.py:951-957 | A revenue item counts if and only if its installation's install in the cohort has it zero to d whole days later, or d local days later on the calendar |
| MetricMeaning.OneCalendarDay | tools/python_evaluator.py:953-955 | Every item falls on exactly one calendar day after its install |
| MetricMeaning.NextElapsedDay | tools/python_evaluator.py:956-957 | One more elapsed day adds exactly what is earned on that day, errors included |
| MetricMeaning.MetricRevenueMeans | tools/python_evaluator.py:960-1096 | A revenue metric is the sum over the accepted deliveries of the converted amounts they earn: installation-level revenue, seen by the watermark and privacy state, of a cohort install, in the window |
| Metrics.StatusCountsConserved | tools/python_evaluator.py:916-947 | Install (and open) counts over the three attribution statuses add up to the count without status, for any other grouping |
| Metrics.BucketCountsConserved | tools/python_evaluator.py:1169-1209 | SKAN counts over all conversion buckets add up to the attributed installs of the date |
| MetricMeaning.EventCountMeans | tools/python_evaluator.py:1194-1206 | An event count is the number of accepted deliveries that are seen, in the group, not excluded and on the local date |
| MetricMeaning.AggregateCountMeans | tools/python_evaluator.py:1164-1189 | A postback count is the number of accepted, seen postbacks received on the UTC date that a non-organic aggregate attribution rests on, in the bucket asked for |
| MetricOrder.StatusRevenueConserved | tools/python_evaluator.py:1003-1096 | The revenue of the three attribution statuses adds up to the revenue without status, and fails if and only if one of the three does |
| MetricOrder.CountsOrderIndependent | tools/python_evaluator.py:960-1209 | Event and postback counts are the same for inputs that differ only in order |
| MetricOrder.RevenueOrderIndependent | tools/python_evaluator.py:1084-1096 | Cohort revenue is the same for evaluable inputs that differ only in order, although each item takes the first matching install |
| RequestNonces.NonceStore.Verify | apps/api/src/sdk-auth.ts:174-196 | One request deletes expired nonces, inserts its own if absent, and leaves the table and outcome of the step function |
| RequestNonces.AcceptedExactlyWhen | apps/api/src/sdk-auth.ts:174-194 | In any run a request is accepted if and only if it is authentic, in the window, and no unexpired accepted use of its nonce came before |
| RequestNonces.AcceptedUsesFarApart | apps/api/src/sdk-auth.ts:179-193 | Two accepted uses of one nonce are at least a time-to-live apart |
| RequestNonces.ReplayProtectionExactlyWhen | apps/api/src/server.ts:122-123 | No run accepts a request twice if and only if the time-to-live exceeds twice the skew, or the settings accept nothing |
| RequestNonces.OutcomeExactlyWhen | apps/api/src/sdk-auth.ts:174-196 | In any run each outcome is exactly one of: a failed signature check, a timestamp outside the window, an accepted use of the nonce by the principal less than a time-to-live ago, or none of these |
| RateLimit.TokenBucket.Allow | apps/api/src/rate-limit.ts:15-25 | The refill and take of one call, from fields to fields |
| RateLimit.KeyedTokenBucket.Allow | apps/api/src/rate-limit.ts:42-57 | One keyed call: expired keys go, one of the longest unseen goes at capacity, the key's bucket answers, and all other entries stay |
| RateLimit.ForgettingIsUnobservable | apps/api/src/rate-limit.ts:42-57 | If a time-to-live refills a bucket and no call finds the table full of other live keys, every answer of a run is that of buckets that never expire, however many keys the run uses |
| RateLimit.AdmissionsBounded | apps/api/src/rate-limit.ts:15-57 | Hence between any two calls of a run a key is admitted at most the burst plus the rate times the time between them |
| RateLimit.AdmittedExactlyWhen | apps/api/src/rate-limit.ts:15-57 | A call is admitted if and only if in every window from one of its key's calls up to it the admissions and this one are at most the burst plus the rate times the seconds |
| RateLimit.DroppedByCall | apps/api/src/rate-limit.ts:43-52 | A call drops idle keys and, for a new key at capacity, one key that no kept key was unseen longer than |
| RateLimit.ForgettingShowsExactlyWhen | apps/api/src/rate-limit.ts:42-57 | Some such run has an answer that differs from the never-expiring bucket's if and only if a time-to-live earns less than the burst |
| HourlyQuota.HourlyLedgerQuota.RecordCall | apps/api/src/apple-postback-receiver.ts:22-38 | One record call increments the key of its hour and prunes keys by the hour parsed back from their text |
| HourlyQuota.KeyTextInjective | apps/api/src/apple-postback-receiver.ts:23-26 | The joined key texts tell tenants, apps and hours apart |
| HourlyQuota.PruningIsUnobservable | apps/api/src/apple-postback-receiver.ts:22-38 | With a clock that never runs back every returned count is that of a counter that never forgets |
| HourlyQuota.FirstCallsAreWithinLimit | apps/api/src/apple-postback-receiver.ts:36-38 | A call is within the limit if and only if fewer than `limit` earlier calls share its tenant, app and hour |
| HourlyQuota.WithinLimitExactlyWhen | apps/api/src/apple-postback-receiver.ts:22-38 | A call is within the limit if and only if fewer than that many earlier calls share its tenant, app and hour of 3,600,000 milliseconds |
| HourlyQuota.PrunedExactly | apps/api/src/apple-postback-receiver.ts:27-35 | Beyond 4,096 keys exactly those of the hour before and later ones stay, with their counts |
| AdServices.LookupWorker.Queue | apps/worker/src/adservices-worker.ts:118-140 | A lookup is queued with no attempts, unless its install record has one |
| AdServices.LookupWorker.ProcessRow | apps/worker/src/adservices-worker.ts:352-405 | One row of a pass completes, drops, reschedules or fails as the row step says, with the provider call it made |
| AdServices.LookupWorker.ProcessLookups | apps/worker/src/adservices-worker.ts:325-407 | A pass is the fold of its selected rows up to the first failure, and returns its two counts |
| AdServices.ResultExactlyWhen | apps/worker/src/adservices-worker.ts:352-397 | A row adds a result if and only if storage accepts and its token is 23 hours old or the provider answered: 200 with the attribution it states, 400, or a third 404 |
| AdServices.KeptRowWaits | apps/worker/src/adservices-worker.ts:359-404 | A row that is kept waits one second for the limiter, five seconds after 404, and else two, four or eight minutes; only replies count as attempts, up to three |
| AdServices.FailsExactlyWhen | apps/worker/src/adservices-worker.ts:352-405 | A row fails if and only if storage refuses, its result exists, its token is unreadable or a 200 body does not normalise |
| AdServices.GoneExactlyWhen | apps/worker/src/adservices-worker.ts:257-266 | A lookup is gone after its row if and only if the row completed, and other lookups stay |
| AdServices.SelectedMeans | apps/worker/src/adservices-worker.ts:340-349 | A pass works on rows whose next attempt has come or whose token is 23 hours old, earliest first, and leaves one out only behind a hundred earlier ones |
| AdServices.PassKeeps | apps/worker/src/adservices-worker.ts:352-405 | A pass keeps attempts at min(3, answered calls) and the next attempt behind the backoff, and leaves unselected rows alone |
| AdServices.EndsAtMostOnce | apps/worker/src/adservices-worker.ts:118-140 | In every run of queueing, removals and passes a lookup ends at most once, is gone then, and stored attempts stay within 0 to 3 |
| AdServices.OldLookupFinishes | apps/worker/src/adservices-worker.ts:353-358 | A pass that gets past a row picked at 23 hours or more has finished it as expired |
| AdServices.Starvation | apps/worker/src/adservices-worker.ts:379-384 | While the row first in line gets replies that do not normalise, any number of passes changes no lookup and no result of the tenant |
| AdServices.StarvationEnds | apps/worker/src/adservices-worker.ts:353-358 | The first pass storage accepts at 23 hours finishes that row, whatever is replied |
| AdServices.PassCounts | apps/worker/src/adservices-worker.ts:350-406 | The returned counts cover every picked row, and completions count the lookups gone |
| AdServices.ResultsStay | apps/worker/src/adservices-worker.ts:259-266 | A pass never replaces a lookup's result |
| AdServices.CallsAreBounded | apps/worker/src/adservices-worker.ts:379-404 | In every run a lookup is called at most 175 times, plus once for each call whose row then failed |
| AdServices.BoundIsMet | apps/worker/src/adservices-worker.ts:379-404 | For every number of failures a run meets that bound exactly, so it cannot be lowered |
| BulkProjection.BulkProjectionRows | apps/worker/src/ingestion.ts:1004-1118 | The loop collects each table's rows in order and the fallbacks, and fails if and only if an event has no attempt |
| BulkProjection.RoutedOnce | apps/worker/src/ingestion.ts:1019-1117 | A row is in a table if and only if it is the row its event is routed to; an event is a fallback if and only if routed so |
| BulkProjection.RowsDistinct | apps/worker/src/ingestion.ts:1014-1018 | No table's list and no fallback list repeats an entry |
| BulkProjection.RouteAgrees | apps/worker/src/ingestion.ts:1023-1115 | A row the bulk writer builds is the row the other writer inserts, tracking link included, and an event it routes nowhere has no row there |
| BulkProjection.LedgerTables.InsertJsonRows | apps/worker/src/ingestion.ts:992-1002 | For any positive chunk size, chunked inserts leave the table of one insert after another |
| BulkProjection.LedgerTables.PersistRowByRow | apps/worker/src/ingestion.ts:1312-1337 | Going through attempts stores the logical event looked up by record ID and its fact row together, stopping at the first that has no attempt behind it |
| BulkProjection.LedgerTables.PersistAttempt | apps/worker/src/ingestion.ts:1331-1334 | Stores the logical event and its fact row where absent, or neither |
| BulkProjection.LedgerTables.PersistRuntimeBulk | apps/worker/src/ingestion.ts:1167-1190 | Inserts the logical events and table after table in chunks, then projects the fallbacks |
| FactRows.FactRowMeans | apps/worker/src/ingestion.ts:277-446 | Every fact row goes under its event's ID, and only a deep-link open's row depends on the days since the last session |
| BulkProjection.EvaluatedBatchSound | apps/worker/src/ingestion.ts:1284-1298 | However record IDs repeat in a batch, each kept event has one attempt behind it, one event per record, found by both paths |
| BulkProjection.BulkMeansRowByRow | apps/worker/src/ingestion.ts:992-1118 | For every batch of one scope with allowed producers, any history, any tables and any order of the attempts, both paths leave the same logical events and fact rows, days since the last session aside |
| BulkProjection.DistinctIdsDoNotClash | apps/worker/src/ingestion.ts:1167-1171 | Events with distinct IDs have one row for each place |
| BulkProjection.AgreeExactlyWhenNoClash | apps/worker/src/ingestion.ts:1306-1337 | For any list of events, the two paths agree from any tables in every order if and only if no two events have different rows for one place |
| Columns.RowReads | apps/worker/src/ingestion.ts:277-446 | Every column of a fact row is the payload member of its name, null when absent; campaign, network and country fall back to the import context, and links to registered ones |
| Columns.RowByRowReadsBack | apps/worker/src/ingestion.ts:1312-1337 | Attempt by attempt old rows stay and every new row reads back, column by column, as a row of one of the events |
| Columns.BulkReadsBack | apps/worker/src/ingestion.ts:1119-1190 | In bulk the same holds |
| Columns.RowByRowComplete | apps/worker/src/ingestion.ts:1331-1334 | A run attempt by attempt that does not fail has a row for each event found, and a fact row where its name has a table |
| Columns.BulkComplete | apps/worker/src/ingestion.ts:1119-1190 | So has a bulk run, for every event |
| PrivacyReapply.AffectedRecordsMeans | apps/worker/src/privacy-reapply.ts:23-39 | A valid artifact's records are returned exactly, each once, sorted |
| PrivacyReapply.Stores.PurgeAndVerify | apps/worker/src/privacy-reapply.ts:139-151 | Succeeds if and only if every reference names an object that can be deleted, and then all of those are gone and nothing else is |
| PrivacyReapply.Stores.AppendPrivacyArtifacts | apps/worker/src/privacy-reapply.ts:153-206 | Adds state, tombstone and correction of each record where absent |
| PrivacyReapply.Stores.Successor | apps/worker/src/privacy-reapply.ts:235-240 | Finds the latest direct successor by time and ID, or the source when there is none |
| PrivacyReapply.Stores.ReapplyOne | apps/worker/src/privacy-reapply.ts:283-325 | One request purges, appends, drops lookups, recalculates and audits as specified, or fails as specified |
| PrivacyReapply.Stores.ReapplyCompletedPrivacyRequests | apps/worker/src/privacy-reapply.ts:327-359 | A pass is the fold of its requests with summed counts; a failure undoes every row but no payload deletion |
| PrivacyReapply.ApplySettles | apps/worker/src/privacy-reapply.ts:283-325 | After a request its references are unreadable, its records marked, its lookups gone, its metrics replaced and its audit written; rows are only added |
| PrivacyReapply.SettledStays | apps/worker/src/privacy-reapply.ts:41-137 | Later requests never unsettle an earlier one |
| PrivacyReapply.PassSettles | apps/worker/src/privacy-reapply.ts:351-356 | After a pass every one of its requests is settled |
| PrivacyReach.PassErasesExactly | apps/worker/src/privacy-reapply.ts:41-151 | After a pass an object is stored if and only if no raw record, inbox row, batch, result or lookup that a request reaches names it; lookups reached are gone and no others |
| PrivacyReach.PassMarksExactly | apps/worker/src/privacy-reapply.ts:153-206 | After a pass each listed record has its state, tombstone and correction, and every new row is one of these with the time and ID of a request that lists its record |
| PrivacyReach.ApplyReplaces | apps/worker/src/privacy-reapply.ts:208-265 | A request adds a run under the replacement ID of each manifest whose source run rests on a listed record, and no others |
| PrivacyReach.ReplacementFollows | apps/worker/src/privacy-reapply.ts:235-262 | A replacement is the one computed run, superseding the last direct successor of its source, or the source |
| PrivacyReach.UnsupportedAre | apps/worker/src/privacy-reapply.ts:266-279 | Unsupported runs are those from before the completion that rest on a listed record and have no manifest |
| PrivacyReach.ApplyReports | apps/worker/src/privacy-reapply.ts:300-325 | A request counts the references it reached and the manifests it replaced, and writes one audit row with the digest of what it reached |
| PrivacyReach.ValidExactlyWhen | apps/worker/src/privacy-reapply.ts:23-49 | A request is accepted if and only if its artifact is its own, completed, without subject reference, lists purged records, and has one of three scopes |
| PrivacyReapply.SecondPassUnchanged | apps/worker/src/privacy-reapply.ts:221-265 | A second pass over any of the same requests, in any order and number, succeeds and changes neither ledger, payload store nor lookup queue |
| PrivacyReapply.FailedPassRecovers | apps/worker/src/privacy-reapply.ts:327-359 | From the rows and the fewer payload objects a failed pass leaves, a pass that would have succeeded at first succeeds with the same rows and counts, and leaves of its objects those still there |
| CanonicalJson.PrintIsTextOfCanon | apps/api/src/apple-admin.ts:14-31 | The printer's recursion prints the tree with object keys sorted at every depth |
| CanonicalJson.NumbersCanBePrinted | apps/api/src/apple-admin.ts:14-31 | What the printer lemmas ask of number printing, injective texts in number characters, can be met for all finite doubles |
| CanonicalJson.TextUnique | apps/api/src/apple-admin.ts:14-31 | Printed texts determine the tree, even with more text behind them |
| CanonicalJson.CanonKeepsMeaning | apps/api/src/apple-admin.ts:22-29 | Sorting keys keeps the value an object denotes |
| CanonicalJson.CanonicalExactly | apps/api/src/apple-admin.ts:33-38 | Printing succeeds exactly on printable objects, and two definitions print alike if and only if they are equal up to key order at any depth |
| JsonReading.TextReads | apps/api/src/apple-admin.ts:14-31 | A reader after RFC 8259 reads every printed tree back as that tree |
| JsonReading.CanonicalReadsBack | apps/api/src/apple-admin.ts:33-38 | The canonical text of a definition reads back as an object with ascending keys at every depth that means what the definition means |
| Csv.CsvRoundTrip | apps/api/src/reporting.ts:132-144 | A reader of section 2 of RFC 4180 gets the columns and every original cell text back |
| Csv.QuotedExactlyWhen | apps/api/src/reporting.ts:132-137 | A cell is quoted if and only if it has a comma, a quote or a line break |
| MetricQueries.BuildMetricQuery | apps/api/src/report-query.ts:240-288 | The array-growing builder produces the specified predicates, values and limit slot |
| MetricQueries.StatementMeansQuery | apps/api/src/report-query.ts:249-288 | With its values bound, the statement selects a row if and only if the query asks for it, and every placeholder is bound |
| ReportMeaning.WantedMeans | apps/api/src/report-query.ts:249-288 | What the query asks of a row, said of its texts: scope, names, version, grouping, date range, watermark, not replaced by a run of its application, and after the cursor |
| ReportMeaning.ReportInOrder | apps/api/src/report-query.ts:282-287 | A report's rows stand by metric name, then grouping digest, then run ID, each by code points |
| ReportMeaning.PageMeans | apps/api/src/reporting.ts:146-175 | A page has the first rows up to its limit, and the cursor of its last row if and only if more rows match |
| Paging.MatchingIncreasing | apps/api/src/report-query.ts:282-287 | Matching rows come in strictly increasing cursor order, each as often as in the ledger |
| Paging.NextPageContinues | apps/api/src/reporting.ts:146-175 | The rows matching with a page's cursor are exactly the matching rows after that page |
| Paging.FollowYieldsEverything | apps/api/src/report-query.ts:96-117 | Following cursors ends with all matching rows once, in order, if and only if every page boundary is a valid cursor |
| Paging.LongRunIdStopsReport | apps/worker/src/metrics/run.ts:65-65 | Two manual runs of a metric with a long, allowed name: the report's second page is refused |
| FormEncoding.EncodeDecodes | packages/redirector-core/src/index.ts:68-76 | Decoding an encoded text gives it back |
| FormEncoding.EncodedAs | packages/redirector-core/src/index.ts:68-72 | Which characters stand for themselves, are a plus, or become two upper-case hex digits |
| FormEncoding.SerializeParses | packages/redirector-core/src/index.ts:68-76 | Parsing serialized pairs gives the same pairs in order (section 5 of the WHATWG URL Standard) |
| InstallReferrer.BindDeepLinkParameters | packages/redirector-core/src/index.ts:87-103 | The loop binds only declared names with valid values, the last value winning, and counts what it drops |
| InstallReferrer.BoundExactlyWhen | packages/redirector-core/src/index.ts:87-103 | A parameter is bound to the last plain value a pair gives it under its prefixed, declared name, and not bound without one |
| InstallReferrer.DeepLinkMeans | packages/redirector-core/src/index.ts:78-85 | A deep link is accepted if and only if it is one to eight slash-led segments of plain characters, none a dot segment, in 256 characters |
| InstallReferrer.BoundWeighsLess | apps/api/src/tracking-links.ts:120-127 | Parameters bound from the declared names never encode longer than the probe's |
| InstallReferrer.AcceptedLinkAlwaysCarries | apps/api/src/tracking-links.ts:111-127 | A link the creation probe accepts carries its deep link for every click and every bound parameters without '~' |
| InstallReferrer.CarriedReferrerDecodes | packages/redirector-core/src/index.ts:105-118 | A carried referrer decodes to the click ID, path and parameters it was built from, and nothing else |

## Left out

- Fraud rules, superseding attributions and quarantine: the metric lemmas take the superseding attributions as a list.
- BucketCountsConserved: assumes that no superseding attribution is a non-organic aggregate one; such attributions come only from the fraud rules left out.
- Reconciliation, corrections, privacy artifacts and retention inside `evaluate`, and its scoped reference checks for them: separate lists that the deliveries do not read.
- Cost, ratio and ROAS metrics: they add sums of the kind already proved.
- Run: computes raw records, deliveries, logical events, rejections and base attributions; corrections, privacy and retention checks, tombstones, fraud decisions and metric runs of the same function are not part of it.
- DecideAll: takes a batch ID and scope to determine the server context, as a batch carries one; with two contexts for one key the source keeps the later decision for both.
- RevenueOrderIndependent: the installations a net metric excludes are a given set.
- IngestByScope: binding of fraud bundles, schema validation and deep-link resolution before it are not part of this model.
- The incremental lemmas fix the server context of each attempt; contexts that change between ingestions, and withdrawals read from the inbox, are not part of this model.
- RunHoldsExactlyWhen: storage does not fail inside a call, so a scope is stored whole or throws before storing; record IDs differ between calls and between scopes, also those of calls that threw.
- Process: the batch states and sequence numbers of the inbox are not stored; a call that throws is one whose batch the worker marks failed.
- FailedPassRecovers: for a metric engine that reads rows only, not payload objects.
- ChunkHistoryKeepsLogical: attributions and the checks that throw read other events too, so they are not claimed to agree.
- Lone surrogates and strings with a NUL character: texts are sequences of code points, and joined keys assume identifiers without NUL.
- NonceStore.Verify: signature checks are one parameter, and the database clock that expires nonces is the clock that dates requests.
- Allow: token arithmetic is exact, floating-point rounding is not modelled; which of several equally old keys is evicted is left open.
- ProcessLookups: takes the rows its query selected; runs constrain them to the first hundred due ones in order. One worker at a time; two workers with the same selection, the superseding attribution row and the encrypted response object are not part of this model. Lookup IDs are taken to be fresh.
- CallsAreBounded: counts calls to the provider, not time; a row that fails after its call (a body that does not normalise, or storage that refuses) is counted beside the bound.
- RowReads: the days since the last session of a deep-link open are a parameter, and tables take payload members of any JSON type.
- BulkMeansRowByRow: compares all columns but the days since the last session of deep-link opens, which depend on the sessions already inserted; raw records, deliveries, rejections, fraud and reconciliation rows are inserted the same way and not repeated.
- PersistRowByRow: raw records, deliveries and rejections of the same transaction are not stored.
- PurgeAndVerify: visits the references in any order, since only success and the objects left matter.
- SecondPassUnchanged: no other writers, and a source run behind each manifest, as the foreign key demands; the metric engine is any function of the ledger.
- CanonicalReadsBack: the reader knows no white space, which canonical texts do not have.
- CanonicalExactly: numbers are dyadic fractions in lowest terms, of any size, and number printing is any injective printing in number characters; NumbersCanBePrinted gives one. Shortest-digits printing itself is not part of this model; numbers that are not finite are errors.
- CsvRoundTrip: column names that need no quotes, as all report columns are; other column names are written unquoted by the source.
- FollowYieldsEverything: the base64url JSON cursor codec is any pair of functions that round-trips.
- EncodeDecodes: ASCII texts, which click IDs, paths, names and values are.
- SerializeParses: the same.
- BoundWeighsLess: values without '~'.
- AcceptedLinkAlwaysCarries: click IDs up to the generated length of 44 characters and values without '~', which form encoding triples; a path that overrides the stored deep link is not checked at creation.
- Redirect responses and allowed destinations, and the SDK inbox around ingestion (sequence numbers, batch states): they add no rule of their own to the properties above.
- HTTP, SQL text, cryptography, schema validators, dashboards and migrations.
