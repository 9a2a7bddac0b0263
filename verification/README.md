# Rheonic verification

Rheonic watches and limits the traffic that applications send to language-model providers.  SDK clients
capture events and ask the backend before each call whether it may go ahead; the backend detects anomalies,
opens incidents and delivers notifications; a dashboard shows the result.  This project models the stateful
algorithms in which these parts have to agree, and proves that they do, or states exactly when they do.

`dafny verify dfyconfig.toml` checks everything.

| file | models |
|---|---|
| `Text`, `Sorting`, `Events` | optional values, stable sorts with their uniqueness lemmas, events and detection contexts |
| `TokenExplosion`, `LoopSuspect`, `IngestDetection` | the two anomaly detectors and the context that ingest builds for both |
| `Streams` | both detectors' request streams and the loop walk, stated on the events' own fields |
| `TruncatedHistory` | the recent events that ingest reads, and when that is enough for the loop verdict |
| `ProtectDecision`, `ClampProperties` | the preflight decision, the staged output clamp and its guarantees |
| `ProtectEngine`, `Cooldown`, `FailMode` | the SDK engines' cached cooldown and its refinement of always asking the backend; the wire, and what happens without an answer |
| `Incidents`, `IncidentReports`, `Episodes` | the incident table, what each report leaves in it, and the online upsert against the offline gap partition |
| `Delivery`, `PythonQueue`, `NodeQueue` | the SDK event queues: threads under a lock, and steps between awaits |
| `RequestChain` | the dashboard's promise chain with its single-flight session refresh |
| `RateLimit` | the ingest endpoint's fixed-window limit and idempotency claim |
| `Outbox` | webhook and email deliveries, retries and failure emails |

Code that changes state is a class or a loop proved against a specification function; what the code is for is
then proved about that function.  Concurrent code is a step function, and its theorems quantify over every
sequence of steps; a step that is not possible leaves the state unchanged, so any interleaving is a run.
Token ratios are exact rationals (`real`), `int(...)` truncates, and times are integers: milliseconds on the
clocks and microseconds in event timestamps.

Properties that turned out not to hold in general have the inputs that break them and the exact condition under
which they do hold:

- growth and loop exclude each other: `IngestDetection.StandDownExactly`, broken by `TiedTimestampsBothFire`;
- the truncated history keeps the loop verdict: `TruncatedHistory.ReadIsSafeIff`, broken by `LateArrivalOvercounts`;
- the clamp fits or is minimal: `ClampProperties.GuaranteeIffThresholdAtMostOne`, broken by `HighThresholdsFail`;
- a cached block is what the backend would say: `Cooldown.HitIsRightIff`, broken by `TwoProvidersDiverge`;
- a window stays within its limit: `RateLimit.CapIffTimely`, broken by `LateIncrOvershoots`;
- equal request signatures mean equal fields: `Streams.FieldsDecideIff`, broken by `ConfusableCollide`;
- "accepted" means ingested: `RateLimit.DuplicateIsBackedIff`, broken by `RefusedRetryIsLost`.

## Model

| member | source | states |
|---|---|---|
| `TokenExplosion.ResolvePreviousTokens` | backend/app/domain/detectors/token_explosion_detector.py:122-150 | The descending first-match search returns the tokens of the first-listed newest event of the request stream, or nothing when the stream has no past. |
| `TokenExplosion.ResolveTokenSequence` | backend/app/domain/detectors/token_explosion_detector.py:153-188 | The ascending loop collects the stream's past tokens oldest first and then the current ones, or nothing when there are too few points. |
| `TokenExplosion.PenultimateIsLastNewest` | backend/app/domain/detectors/token_explosion_detector.py:153-188 | A non-empty ascending sequence has at least two points, its last is the current request, and its penultimate belongs to the last-listed newest past event. |
| `TokenExplosion.TwoSortOrdersAgree` | backend/app/domain/detectors/token_explosion_detector.py:122-188 | The two resolutions of "the previous value" agree if and only if the first-listed and the last-listed newest past events carry the same tokens. |
| `TokenExplosion.DistinctTsAgree` | backend/app/domain/detectors/token_explosion_detector.py:122-188 | With distinct timestamps they always agree: the searched value is the penultimate of the sequence. |
| `TokenExplosion.Detect` | backend/app/domain/detectors/token_explosion_detector.py:11-112 | A signal is raised exactly on an absolute or a growth hit, with the right flags, tokens and episode window. |
| `TokenExplosion.AdjacentGrowthIsChain` | backend/app/domain/detectors/token_explosion_detector.py:46-62 | For points at or above a positive floor, all adjacent ratios reach r exactly when each point is at least r times its predecessor. |
| `TokenExplosion.GrowthHitIsChain` | backend/app/domain/detectors/token_explosion_detector.py:27-75 | A growth hit holds if and only if traffic is sequential, the current tokens reach the floor, and the last count+1 eligible points form a chain of ratio r; the sequence then ends in the current tokens. |
| `TokenExplosion.ChainIsGeometric` | backend/app/domain/detectors/token_explosion_detector.py:46-62 | The last point of a chain of k+1 points is at least r^k times the floor. |
| `TokenExplosion.GrowthIsGeometric` | backend/app/domain/detectors/token_explosion_detector.py:46-62 | A growth hit with ratio r over k steps means current tokens of at least r^k times the floor. |
| `Streams.StreamIsByFields` | backend/app/domain/detectors/token_explosion_detector.py:145-148 | An event belongs to the request stream if and only if it agrees with the context in provider, model, endpoint and feature, each with its stripping and default, and is not the current event; for equal features, or endpoints none of which, with a colon after it, begins the other. |
| `Streams.FieldsDecideIff` | backend/app/domain/detectors/token_explosion_detector.py:191-194 | Signatures built on two endpoints tell the fields apart, for all features, if and only if neither endpoint followed by a colon begins the other (with no blank after it). |
| `Streams.ConfusableCollide` | backend/app/domain/detectors/token_explosion_detector.py:191-194 | Any such pair of endpoints shares a signature for some two features. |
| `Text.StripIsTrim` | backend/app/domain/detectors/loop_suspect_detector.py:117-119 | Stripping keeps exactly the stretch from the first to the last character that is no white space. |
| `Streams.OutsiderIsInvisible` | backend/app/domain/detectors/token_explosion_detector.py:122-188 | An event outside the stream, inserted or removed anywhere, changes neither the previous value nor the token sequence. |
| `Streams.OutsiderKeepsGrowth` | backend/app/domain/detectors/token_explosion_detector.py:27-75 | Nor does it change the growth verdict. |
| `Streams.NewestInsiderIsPrevious` | backend/app/domain/detectors/token_explosion_detector.py:122-188 | A strictly newest event of the stream is the previous value, and the sequence grows by exactly its tokens as the last past point. |
| `Streams.CurrentTokensInOrder` | backend/app/domain/detectors/token_explosion_detector.py:11-21 | Whose tokens are judged: the context's, else the current event's, else the estimate, else the event's non-negative total, else none. |
| `Streams.ExplosionVerdictByFields` | backend/app/domain/detectors/token_explosion_detector.py:23-75 | The absolute threshold is inclusive; growth needs live requests and tokens, below the growth concurrency threshold, whatever their amount. |
| `LoopSuspect.CountSequence` | backend/app/domain/detectors/loop_suspect_detector.py:26-62 | The newest-first loop with its skips and early exits returns the number of successes in the longest admissible prefix of the provider's events. |
| `LoopSuspect.Detect` | backend/app/domain/detectors/loop_suspect_detector.py:10-101 | A loop is suspected exactly when the walk's count is reached and neither concurrency nor context growth explains it. |
| `LoopSuspect.WalkStops` | backend/app/domain/detectors/loop_suspect_detector.py:30-54 | A prefix that the next event breaks is the longest admissible one: nothing after the break is counted. |
| `LoopSuspect.CountIsOrderBlind` | backend/app/domain/detectors/loop_suspect_detector.py:26-62 | With distinct arrival times the count is unchanged by permuting the input and by adding or removing other providers' events. |
| `LoopSuspect.CountedSpan` | backend/app/domain/detectors/loop_suspect_detector.py:52-62 | The successes of an admissible prefix span at most (count-1) maximal gaps. |
| `LoopSuspect.ReportedSpan` | backend/app/domain/detectors/loop_suspect_detector.py:26-62 | The events that the detector counts span at most (count-1) maximal gaps. |
| `Streams.OneFieldDecidesWalk` | backend/app/domain/detectors/loop_suspect_detector.py:36-46 | An in-window, in-pace event that agrees with the context in all parts but one (project, provider, model, environment, endpoint, feature or fingerprint) continues the walk if and only if it agrees in that part, after its own stripping and default. |
| `Streams.ForeignFingerprintEndsWalk` | backend/app/domain/detectors/loop_suspect_detector.py:43-44 | Nothing from the first event with another request fingerprint on is counted: the count is that of the history cut there. |
| `Streams.WalkByFields` | backend/app/domain/detectors/loop_suspect_detector.py:26-62 | The count in the events' own fields: for parts none of which, with a colon after it, begins its counterpart, the number of successes among the first n events when exactly those are in the window, agree in every part and keep the gap to the nearest newer success. |
| `Streams.LoopVerdictByFields` | backend/app/domain/detectors/loop_suspect_detector.py:62-72 | A loop is suspected if and only if there are events, the judged tokens do not grow past the floor and the previous value, the count reaches the threshold, and twice the threshold under parallel traffic. |
| `Streams.ContextIsTheEvents` | backend/app/application/services/ingest_event_service.py:91-146 | The context that ingest builds names the event's own stream, part by part, its own tokens and live counters, and the event itself as the current one; a blank provider reads as unknown. |
| `IngestDetection.StandDownExactly` | backend/app/application/services/ingest_event_service.py:107-140 | Under a growth hit the loop detector stands down if and only if the first-listed newest past event of the stream carries fewer tokens than the current request. |
| `IngestDetection.GrowthBeatsLastNewest` | backend/app/domain/detectors/token_explosion_detector.py:46-62 | Under a growth hit the last-listed newest past event is below the current request. |
| `IngestDetection.GrowthExcludesLoop` | backend/app/domain/detectors/loop_suspect_detector.py:143-163 | With distinct timestamps, growth ratio above 1, count and floor at least 1, and the context that ingest builds, a growth hit means that the loop detector raises nothing. |
| `IngestDetection.TiedTimestampsBothFire` | backend/app/domain/detectors/loop_suspect_detector.py:21-22 | Concrete events with tied timestamps on which both detectors fire. |
| `IngestDetection.CountsNewest` | backend/app/domain/detectors/loop_suspect_detector.py:30-62 | A success of the context's own stream that arrived last is always counted. |
| `TruncatedHistory.ReadIsPrefix` | backend/app/infrastructure/db/repositories/event_repository_impl.py:52-59 | When the read holds the newest arrivals, in any timestamp order, the walk over it sees exactly the first events of the walk over the whole history. |
| `TruncatedHistory.PrefixWalk` | backend/app/domain/detectors/loop_suspect_detector.py:30-62 | Cutting the list at n cuts the longest admissible prefix at n and does nothing else. |
| `TruncatedHistory.TruncatedHistoryKeepsVerdict` | backend/app/application/services/ingest_event_service.py:101-106 | When no event outside the newest max(retry, loop)+8 arrived after one inside, the count over the read never exceeds the full-history count, and the loop verdict is the full-history verdict while at most 8 of those read are failures. |
| `TruncatedHistory.LateArrivalOvercounts` | backend/app/application/services/ingest_event_service.py:101-106 | For every history in which some event outside the read arrived after one inside it, there are streams, outcomes and settings under which the read overcounts. |
| `TruncatedHistory.ReadIsSafeIff` | backend/app/application/services/ingest_event_service.py:101-106 | For distinct arrival times, the read is judged like the whole history for all streams, outcomes and settings if and only if no event outside it arrived after one inside it. |
| `ProtectDecision.ResolveRatio` | backend/app/application/services/protect_service.py:811-820 | The loop over the stages returns the ratio of the last stage whose threshold is reached. |
| `ProtectDecision.LastReachedStage` | backend/app/application/services/protect_service.py:811-820 | Independent reading of the selected ratio: stage i is selected when it is reached and no later one is; none when none is. |
| `ClampProperties.ReachedMeans` | backend/app/application/services/protect_service.py:818-819 | A threshold of the cap counts as reached by every projection above it less one token. |
| `ClampProperties.LetThroughIsGreatest` | backend/app/application/services/protect_service.py:782-820 | What is let through on the last stage reached is the greatest output L with 1 <= L <= the request, L <= the stage's share of it, and used + L <= cap, or 1 if there is none; below every stage it is the whole request; and it is a clamp if and only if it is less than requested. |
| `ClampProperties.BlocksExactly` | backend/app/application/services/protect_service.py:137-236 | A request is blocked if and only if a cooldown is live or a cap is reached, with the reason of the first of cooldown, token cap and request cap, and retry-after is the least number of seconds that reaches the end. |
| `ClampProperties.ClampNeedsAll` | backend/app/application/services/protect_service.py:238-302 | Without the switch, an input estimate, a positive output request or a positive cap there is no clamp. |
| `ClampProperties.ClampFitsOrIsMinimal` | backend/app/application/services/protect_service.py:238-302 | With the clamp on, a token cap and some threshold at or below 1, whatever the ratios, every request let through gets an output L with current + input + L within the cap, or L = 1. |
| `ClampProperties.GuaranteeIffThresholdAtMostOne` | backend/app/application/services/protect_service.py:782-820 | For every ladder that the service accepts, the fits-or-minimal guarantee holds for every cap, counter and request if and only if some threshold is at most 1. |
| `ClampProperties.HighThresholdsFail` | backend/app/application/services/protect_service.py:782-820 | For any ladder with all thresholds above 1 there are a cap and a request that breaks the guarantee. |
| `ClampProperties.StagesRise` | backend/app/application/services/protect_service.py:811-820 | A larger projection or a smaller cap never selects a gentler stage. |
| `ClampProperties.BlockPersists` | backend/app/application/services/protect_service.py:137-236 | A block stays a block under more used tokens or requests and smaller caps. |
| `ClampProperties.ClampIsAntitone` | backend/app/application/services/protect_service.py:185-302 | For descending ratios the permitted output never rises as counters or the input estimate rise and never falls as caps rise, across every stage boundary and up to the block. |
| `ClampProperties.DefaultLadderQualifies` | backend/app/config.py:38-39 | The shipped six-stage ladder meets the conditions of the clamp theorems and the guarantee itself. |
| `ClampProperties.RunBudget` | backend/app/application/services/protect_service.py:185-302 | Over any run of honest requests, each ingested before the next decision and any entries expiring in between, tokens stay within the cap plus the largest input and requests within the request cap. |
| `ProtectEngine.PythonEngine.Evaluate` | sdk-python/src/rheonic/protect_engine.py:82-233 | One call of the Python engine: local block from the cached cooldown, else the reply's decision and the cooldown learned or cleared, else the fail-mode fallback. |
| `ProtectEngine.NodeEngine.Evaluate` | sdk-node/src/protectEngine.ts:109-236 | The same for the Node engine, whose timeouts may be fractions, flags or numeric texts. |
| `ProtectEngine.RoundingAgrees` | sdk-python/src/rheonic/protect_engine.py:401-405 | Adding 999 and flooring is the ceiling to whole seconds, for every duration. |
| `ProtectEngine.EnginesAgree` | sdk-node/src/protectEngine.ts:109-236 | The engines of the two SDKs block alike from their caches; they decode a reply alike if and only if its reason is not the empty text and its numbers are neither fractions that Node rounds nor flags; and they learn alike if and only if the timeout is not a positive fraction or numeric text, or is the one already in force. |
| `FailMode.PyFailsAsLastHeard` | sdk-python/src/rheonic/protect_engine.py:306-310 | After any run, an unanswered preflight with no live cooldown blocks with fail_closed if and only if the backend that last answered the engine fails closed (before any answer: the configuration), and otherwise allows with decision_unavailable. |
| `FailMode.NodeFailsAsLastHeard` | sdk-node/src/protectEngine.ts:238-245 | The same for the Node engine. |
| `FailMode.DecisionsRoundTrip` | backend/app/api/v1/protect.py:149-161 | Every decision of the backend, encoded and decoded by either engine, comes back with its kind, reason, end, retry-after, switch and recommendation. |
| `FailMode.UnknownMeansAllow` | sdk-node/src/protectEngine.ts:386-391 | A decision that the engines do not know is taken as allow. |
| `Cooldown.HitRefines` | sdk-python/src/rheonic/protect_engine.py:91-108 | A cache hit answers what the backend would have answered at that moment, and asking would not have changed the backend. |
| `Cooldown.StepKeepsSync` | sdk-python/src/rheonic/protect_engine.py:155-161 | Every preflight keeps each cached end that still lies ahead equal to the stored end of that engine's provider. |
| `Cooldown.CacheRefinesBackend` | backend/app/api/v1/protect.py:149-161 | Over every sequential run, with any number of engines each on one provider, the cached answers (decision, reason, end, retry-after) and the stored cooldowns are those of always asking. |
| `Cooldown.FreshIsInSync` | backend/app/infrastructure/redis/protect_action_store.py:162-192 | Fresh engines and an empty store satisfy the refinement's starting condition. |
| `Cooldown.RetriesKeepTheEnd` | backend/app/application/services/protect_service.py:137-182 | Retries on the provider during a cooldown never move its end. |
| `Cooldown.HitIsRightIff` | sdk-python/src/rheonic/protect_engine.py:91-108 | A cache hit for any provider is right if and only if the backend stores the cached end for that very provider. |
| `Cooldown.TwoProvidersDiverge` | sdk-python/src/rheonic/protect_engine.py:91-108 | One engine used for two providers blocks a request that the backend allows. |
| `Incidents.FindActive` | backend/app/infrastructure/db/repositories/incident_repository_impl.py:68-106 | The newest open row of the fingerprint seen within the window is found, and none only if there is none. |
| `Incidents.FindActiveBlock` | backend/app/application/services/incident_manager.py:239-298 | The block row that a follow-up report updates is the most recently seen open active one, the latest created of equals, and none only if there is none. |
| `Incidents.IncidentManager.ProcessSignal` | backend/app/application/services/incident_manager.py:56-151 | The imperative upsert changes the table exactly as the online step says and reports whether a row was created. |
| `Incidents.IncidentManager.ProcessProtectBlock` | backend/app/application/services/incident_manager.py:153-319 | Cap blocks upsert their own row; cooldown and fail-closed reports update the active block row; other reasons change nothing. |
| `Incidents.IncidentManager.Reconcile` | backend/app/application/services/incident_manager.py:321-358 | The loop over open incidents resolves exactly the superseded live blocks. |
| `Incidents.StepKeepsOneActive` | backend/app/application/services/incident_manager.py:75-130 | Every operation keeps at most one open active row per provider and fingerprint. |
| `Incidents.RunKeepsOneActive` | backend/app/application/services/incident_manager.py:75-130 | The same over any run in time order mixing signals, blocks, follow-ups, reconciliations, resolutions and automatic closing. |
| `Incidents.StepConservesCounts` | backend/app/application/services/incident_manager.py:188-298 | Each operation changes the summed counts of a kind by exactly the occurrence it accepts. |
| `Incidents.RunConservesCounts` | backend/app/application/services/incident_manager.py:188-298 | Counts summed over open and resolved rows of a kind equal the accepted occurrences of that kind over any run, in time order or not. |
| `Incidents.FollowUpLandsIffBlockActive` | backend/app/application/services/ingest_event_service.py:174-183 | A follow-up report lands on a row exactly when ingest would see an active block incident. |
| `Incidents.ReconcileIsExact` | backend/app/application/services/incident_manager.py:321-343 | Reconciliation changes exactly the superseded rows, leaves none behind and loses no count. |
| `IncidentReports.SignalLands` | backend/app/application/services/incident_manager.py:56-151 | A signal extends an open row of its fingerprint active within its own window, or the fallback's, and otherwise opens one; the whole new row is stated, and no other row changes. |
| `IncidentReports.CapBlockLands` | backend/app/application/services/incident_manager.py:188-237 | The same for a cap block and its reason's row within the dedup window; the row carries the report's reason, request and source, and keeps its previous reason. |
| `IncidentReports.FollowUpLands` | backend/app/application/services/incident_manager.py:239-298 | A cooldown or fail-closed report lands on the most recently active live block, which then carries its reason, request and source and remembers an earlier, different, non-empty reason. |
| `IncidentReports.OtherReportsAreDropped` | backend/app/application/services/incident_manager.py:239-258 | Any other reason, and a follow-up without a live block, changes nothing. |
| `IncidentReports.ReconcileFindsReport` | backend/app/application/services/incident_manager.py:321-343 | After any run, once a report has landed, reconciling its request resolves that row if the report was live; reconciling any other request leaves it as it is. |
| `IncidentReports.ReconcilingIsExact` | backend/app/application/services/incident_manager.py:321-342 | Reconciliation resolves exactly the open block rows of that provider whose latest report is the given non-empty live request, and leaves every other row. |
| `IncidentReports.ClosingIsExact` | backend/app/infrastructure/db/repositories/incident_repository_impl.py:192-297 | Resolving marks that row only; automatic closing marks exactly the open rows last active before the cutoff. |
| `IncidentReports.ClosedIsFinal` | backend/app/application/services/incident_manager.py:75-130 | A row that is no longer open never changes again, whatever happens later. |
| `Episodes.GapPartitionCuts` | backend/app/application/services/incident_manager.py:75-130 | The offline reference: the partition flattens to the times, and cuts exactly at gaps wider than the window. |
| `Episodes.GapPartitionUnique` | backend/app/application/services/incident_manager.py:75-130 | There is only one such partition. |
| `Episodes.ActiveIsLast` | backend/app/infrastructure/db/repositories/incident_repository_impl.py:68-106 | The row found active for a new signal is the fingerprint's last episode, exactly when the gap fits the window. |
| `Episodes.SignalTracks` | backend/app/application/services/incident_manager.py:75-130 | One online upsert turns the rows of the partition of the times so far into those of the extended partition. |
| `Episodes.OnlineIsOffline` | backend/app/application/services/incident_manager.py:75-151 | Over every run in time order of reports, reconciliations and automatic closing outside the window, interleaved with any other fingerprints, the incidents of a fingerprint are exactly the gap partition of its signal times, with first time, last time and count per part, and each is open or was last seen before the window. |
| `Episodes.ClosingTracks` | backend/app/application/services/auto_close_incidents_service.py:33-45 | Automatic closing of rows last seen before the window ends no episode that a later signal could extend. |
| `PythonQueue.Client.CaptureEvent` | sdk-python/src/rheonic/client.py:317-335 | Capturing enqueues, or drops the oldest or the newest event when full. |
| `PythonQueue.Client.SendEvent` | sdk-python/src/rheonic/client.py:513-532 | One delivery settles its event once, with a second POST exactly when the first failure was transient. |
| `PythonQueue.Client.Flush` | sdk-python/src/rheonic/client.py:341-355 | An undisturbed flush drains the queue in order up to its deadline and counts every delivery. |
| `PythonQueue.RunKeepsInv` | sdk-python/src/rheonic/client.py:317-355 | Order, places, POST bounds and balance hold in every interleaving of capturing and flushing threads. |
| `PythonQueue.QueueConservation` | sdk-python/src/rheonic/client.py:513-532 | In every interleaving captured = queued + dropped + sent + failed + in flight, the queue is bounded, pops are distinct and in capture order, no event is POSTed more than twice, a second POST follows only a transient first answer, and an event counts as sent or failed as its own last answer says. |
| `PythonQueue.OverflowPolicy` | sdk-python/src/rheonic/client.py:322-330 | In every reachable state a capture into a full queue drops the event captured first of those queued, or the new one, as configured, and otherwise queues the new one; no other event moves. |
| `Delivery.OutcomeByStatus` | sdk-python/src/rheonic/client.py:534-560 | An answer is final and good from 200 to 299, worth a retry from 500 on or when there is none, and final and bad otherwise. |
| `NodeQueue.Client.CaptureEvent` | sdk-node/src/client.ts:164-184 | The overflow rule is applied before the closed check, then the event is queued or ignored. |
| `NodeQueue.Client.Flush` | sdk-node/src/client.ts:200-217 | A flush returns at once when one is running or the client is closed, otherwise an undisturbed one delivers the whole queue and lowers the flag. |
| `NodeQueue.RunKeepsInv` | sdk-node/src/client.ts:164-217 | Exclusiveness, order, POST log and balance hold in every interleaving at await points. |
| `NodeQueue.FlushIsExclusive` | sdk-node/src/client.ts:200-217 | At most one flush call is inside the loop, exactly while the flag is up, and at most one event is in flight. |
| `NodeQueue.PostsFollowCaptures` | sdk-node/src/client.ts:339-359 | First POSTs form a subsequence of capture order and an event's only retry directly follows its first POST, before any other event's. |
| `NodeQueue.CapturesBalance` | sdk-node/src/client.ts:164-184 | Captured = queued + dropped + sent + failed + in flight + ignored after close, each counter counting the events in its place. |
| `NodeQueue.OutcomesFollowAnswers` | sdk-node/src/client.ts:339-359 | In every interleaving an event counts as sent or failed as its own answers say, is retried only after a transient first answer, and is never POSTed when dropped or ignored. |
| `NodeQueue.OverflowPolicy` | sdk-node/src/client.ts:164-184 | The same for Node, where a closed client still drops its oldest event and ignores the new one. |
| `NodeQueue.ClosedAndIdleIsFinal` | sdk-node/src/client.ts:327-337 | A closed client with no running flush never sends again: what is queued is stranded. |
| `NodeQueue.FlushDrains` | sdk-node/src/client.ts:200-217 | Whatever the answers, a suspended flush left alone empties the queue and lowers the flag within a computed number of steps. |
| `RequestChain.ApiClient.RequestOne` | frontend/src/api/client.ts:208-288 | A request alone on the client: barrier-free fetch, repeat in the recent-refresh window, one refresh, one retry; the chain is free again whatever the outcome. |
| `RequestChain.RunKeepsInv` | frontend/src/api/client.ts:195-316 | Chain links, call order, single flight and request phases hold in every interleaving. |
| `RequestChain.OneProtectedTask` | frontend/src/api/client.ts:208-221 | In every interleaving at most one protected task runs; all earlier ones are over and all later ones have not started. |
| `RequestChain.FinishReleasesSuccessor` | frontend/src/api/client.ts:215-220 | A task that ends, by returning or throwing, releases exactly the next protected request in call order. |
| `RequestChain.RefreshIsShared` | frontend/src/api/client.ts:290-316 | At most one refresh is pending, requests that joined one refresh got the same result, and a renewable session is reported lost only after a refresh. |
| `RequestChain.OutcomeIsLastResponse` | frontend/src/api/client.ts:245-280 | In every interleaving a request returns if and only if its last response was successful and parsed, reports the session lost if and only if it was a 401, and throws otherwise. |
| `RequestChain.DecidingResponse` | frontend/src/api/client.ts:245-280 | Which response decides an undisturbed request: the first, the repeat within 1.5 seconds of a refresh, or the retry after a successful refresh. |
| `RequestChain.NoDeadlock` | frontend/src/api/client.ts:195-221 | From any unfinished request the waits-for chain leads, through strictly earlier requests, to something that can move. |
| `RequestChain.CallsSettle` | frontend/src/api/client.ts:245-280 | N calls lead to at most 10 N moves in any interleaving, and a state that only a new call can change has finished every request. |
| `RequestChain.UndisturbedIsAlone` | frontend/src/api/client.ts:245-316 | The step machine, scheduled without disturbance, ends a request as the sequential client does and is quiet again. |
| `RateLimit.WithinWindow` | backend/app/api/v1/events.py:132-132 | Truncating to seconds and dividing by the window puts every clock value between its window's start and the next. |
| `RateLimit.WindowsAreCapped` | backend/app/api/v1/events.py:130-142 | While no INCR finds its counter expired, each window accepts exactly min(limit, arrivals). |
| `RateLimit.TimelyFindsLive` | backend/app/api/v1/events.py:130-142 | A counter cannot expire before its own window ends: an INCR that arrives before then never finds it expired. |
| `RateLimit.SpanTouchesTwoWindows` | backend/app/api/v1/events.py:130-142 | What is accepted in an interval of one window length is accepted in two adjacent windows. |
| `RateLimit.AnySpanIsCapped` | backend/app/api/v1/events.py:130-142 | At most twice the limit is accepted in any interval of one window length. |
| `RateLimit.LateIncrOvershoots` | backend/app/api/v1/events.py:130-142 | For every positive limit and every INCR that arrives after its window is over, a run of timely requests exists after which it overshoots the limit. |
| `RateLimit.CapIffTimely` | backend/app/api/v1/events.py:130-142 | An INCR keeps its window within the limit after every run of timely requests if and only if it arrives before its window is over, or the limit is not positive. |
| `RateLimit.ClaimHolds` | backend/app/api/v1/events.py:109-123 | In every run, requests under a key are answered as duplicates for exactly the time to live of the last claim taken, and no longer. |
| `RateLimit.IngestEndpoint.IngestEvent` | backend/app/api/v1/events.py:109-145 | The endpoint claims the idempotency key, counts the request and ingests, as the specification function says. |
| `RateLimit.IngestIsBounded` | backend/app/api/v1/events.py:109-142 | Over any run at most twice the limit is ingested in any interval of one window length, and under one key never twice within the claim's lifetime. |
| `RateLimit.DuplicateIsBackedIff` | backend/app/api/v1/events.py:109-142 | A duplicate's "accepted" is backed by an ingest if and only if the request that last took the claim found fewer arrivals than the limit in its window. |
| `RateLimit.RefusedRetryIsLost` | backend/app/api/v1/events.py:109-142 | A request refused with 429 and retried under its key is answered "accepted" and never ingested while its claim lives. |
| `Outbox.Transport.CreateOrGetDeduped` | backend/app/infrastructure/db/repositories/transport_outbox_repository_impl.py:22-75 | A row is created exactly when the key is new; otherwise the existing one is returned and nothing changes. |
| `Outbox.Transport.Enqueue` | backend/app/application/services/transport_service.py:30-86 | One row and one job per dedupe key. |
| `Outbox.Transport.ClaimForSend` | backend/app/infrastructure/db/repositories/transport_outbox_repository_impl.py:82-104 | A claim succeeds exactly for a waiting row that is due, and counts one attempt. |
| `Outbox.Transport.ProcessOutboxDelivery` | backend/app/infrastructure/jobs/transport_job.py:59-188 | A job claims its row, delivers, and settles it: delivered, retried after the delay, or dead with its failure email. |
| `Outbox.RunKeepsInv` | backend/app/infrastructure/jobs/transport_job.py:67-173 | One job per waiting row, attempt bounds and unique keys hold in every interleaving of callers and workers. |
| `Outbox.CascadeIsBounded` | backend/app/infrastructure/jobs/transport_job.py:110-173 | Per row one outstanding job exactly while it waits and at most max_attempts deliveries; per dead webhook at most one failure email and none for a row still alive. |
| `Outbox.RetriesWait` | backend/app/infrastructure/jobs/transport_job.py:110-173 | In every interleaving a row's next delivery begins no sooner than the retry delay of the attempt before it. |
| `Outbox.FailureEmailIff` | backend/app/infrastructure/jobs/transport_job.py:110-160 | In every reachable state a failed webhook delivery is the last one if and only if all attempts are used or there is no interval; then, and only then, and if the project alerts and it was no test, the failure email exists. |
| `Outbox.OnlyDeathsCreateRows` | backend/app/infrastructure/jobs/transport_job.py:141-144 | Successes, failed emails and failures that will be retried create no row. |
| `Outbox.DeadIsExhausted` | backend/app/infrastructure/jobs/transport_job.py:110-115 | A row is given up exactly at its last attempt, or at its first if its kind has no retry interval. |
| `Outbox.EveryDueJobDelivers` | backend/app/infrastructure/jobs/transport_job.py:67-74 | A job run when due always claims its row and makes one delivery: the "row unavailable" branch is never taken. |
| `Outbox.JobTakesWork` | backend/app/infrastructure/jobs/transport_job.py:420-457 | A natural measure drops at every job start and every delivery end, even one that creates an email. |
| `Outbox.CascadeTerminates` | backend/app/infrastructure/jobs/transport_job.py:110-173 | N submissions lead to a bounded number of moves over all retries and failure emails, and the outbox is idle if and only if every row is delivered or dead. |
| `Outbox.ShippedRetries` | backend/app/infrastructure/jobs/transport_job.py:349-357 | With the shipped intervals a webhook is tried at most three times, retried after 5 and 20 seconds, an email once, and a submission causes at most eight moves. |

## Left out

- TruncatedHistory.ReadIsSafeIff: is about histories whose arrival times are distinct; with ties the walk's order depends on the order of the list.
- Incidents.RunKeepsOneActive: assumes that a fingerprint determines its detector and episode window; fingerprints are colon-joined free text, so a signal's could coincide with another detector's or with one of the two cap fingerprints.
- Streams.WalkByFields: assumes that no part of a loop signature, with a colon after it, begins its counterpart; other signatures could be equal on different parts.
- Episodes.OnlineIsOffline: leaves out resolution by hand and automatic closing inside the window, which end an episode early.
- ClampProperties.RunBudget: is about requests whose provider reports no more than the input estimate plus the permitted output.
- Floating-point rounding: ratios, thresholds and gaps are exact, so the effect of binary fractions on a boundary is not modelled.
- ISO date formatting and parsing: cooldown ends travel as milliseconds.
- Outcome finalization, fallback reports and clearing of cooldowns: every live request id is taken to be fresh, and timeout or fail-closed reports are outside the cooldown refinement.
- The engines' `bootstrap`, which sets the fail mode and the timeout as a reply does, except that Node rounds the timeout down.
- Failures of Redis, the database and the queue, which make the code fail open or log and go on.
- Deaths of outbox workers: a row whose worker dies stays in `sending`; the runs assume that every delivery ends.
- Marking a row failed, creating the failure email and queueing the retry are one step of the outbox machine; no other job can touch the row between them.
- Collisions of dedupe hashes, and row or request identifiers, which are positions in a table or list.
- `fetch` throwing before it returns a promise, and unbounded waiting for an answer: responses and refreshes are steps that the environment can always take.
- Exceptions inside enqueueing and validation of events in the SDK queues; an event is its position in capture order.
- Evidence, snapshots, notifications, tags and log records of signals, incidents and decisions, except for the fields that decide something.
- The retry-storm detector and the policy-gap check: filtered counts without state.
- Unicode case folding: status words are compared in ASCII lower case.
- Expiring 60-second counters as a structure: detectors and decisions take their values as inputs.
- Provider adapters, authentication, projects and keys, metrics, email templates, the mail transport and the user interface.
