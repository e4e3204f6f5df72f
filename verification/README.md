# AtlasPulse in Dafny

AtlasPulse collects geospatial feeds, correlates them into incident candidates, and puts model-driven
agents behind release gates and signed human approvals. This project models its deterministic algorithms
and small state machines, and proves what they promise for every input, every run and every interleaving.

| part | modules |
|---|---|
| incident correlation: union-find, grouping, identities | `EvidenceForest`, `EvidenceGraph`, `Correlation`, `IncidentBuilder`, `CorrelationLaws`, `CorrelationReport` |
| signed approval ledger: hash chain, concurrent appenders, approval status | `Ledger`, `LedgerProtocol`, `Approval` |
| source polls: two stores, history paging, freshness | `UtcTime`, `StreamId`, `SourcePoll`, `Paging`, `PollHistory`, `PollStore`, `ValkeyPollStore`, `ValkeyHistory`, `PollAcceptance`, `Freshness`, `FreshnessOfStore`, `FreshnessMeaning` |
| request budgets | `RateLimit`, `RateLimitRuns`, `RateLimitPaths` |
| release arithmetic: percentiles, scores, drift, gates, flags | `Percentiles`, `Scoring`, `RealBounds`, `Drift`, `Lookups`, `Release`, `ReleaseLaws`, `ReleaseMeaning`, `AgentRuns` |
| claims and relationships along measured edges | `Relationships`, `RelationshipMeaning` |
| retrieval reviews: agreement, adjudication, campaigns of captures, paced capture | `RetrievalPool`, `Agreement`, `AgreementReport`, `AgreementReportLaws`, `AgreementMeaning`, `AdjudicationSheet`, `Adjudication`, `AdjudicationLaws`, `ReviewComparison`, `Campaign`, `CampaignLaws`, `RetrievalPacer` |
| citations and evidence packs | `Citations`, `EvidencePack`, `EvidencePackLaws` |
| model artifact digest | `ArtifactDigest` |
| order of strings, stable sorting, prefixes, result types | `Ordering`, `Sorting`, `Sequences`, `Wrappers` |

Code that changes state in place is modelled by classes and loops (`Forest`, `InMemoryLedger`, both poll
stores, `ApiRateLimiter`, `RetrievalApiPacer`, `Digest`, and the building loops of correlation, ledger
verification, freshness, agreement, adjudication, campaigns, relationships and packs). Each is proved
against its specification on values, about which the laws are stated. Records compared by value and pure
expressions are datatypes and functions. What an operation decides is stated a second time over its inputs,
without its own functions, in the lemmas named `..Exactly` and `..Meaning`.

Conventions: SHA-256 over canonical JSON and Ed25519 are function parameters, required to be collision-free
or consistent only where a law needs it. The normal form of a place does not change when the place is cleaned
for display (`Steady`). Python floats are reals. Instants are integers: microseconds for
poll and approval times, milliseconds for the expiry of rate-limit counters. `isoformat` texts are built
character by character from calendar fields. The PostgreSQL ledger is modelled at isolation level READ
COMMITTED, where each statement sees what was committed before it began: the rows an appender reads after
taking the lock are the committed table. With one snapshot for the whole transaction they could be older.

Things the proofs show about the code that a reader might not expect:

- A completed poll is matched by attempt id only. The in-memory store then takes over the completion's
  `started_at`, while the Valkey script keeps the start's. The stores agree exactly when the completion
  repeats the start time (`AgreementNeedsKeptStart`, `MovedStartExample`).
- Appending to the PostgreSQL ledger never looks at the new artifact: re-appending a recorded event builds a
  flawless entry, and only the table's uniqueness constraint keeps the ledger valid
  (`RepeatedEventNeedsConstraint`, `OnlyArtifactsCollide`).
- Any window-long interval admits at most 2N - 1 requests, one fewer than two full budgets, and that many
  can occur (`FewerThanTwice`, `BoundIsSharp`).
- The pack validator rejects an included hit whose citation URL is present but empty, which the builder does
  not exclude. `BuiltAccepted` gives the exact condition in terms of the hits. `EmptyUrlExample` needs a search
  result made by hand: search cites events itself and never with an empty URL, so what it returns is always
  accepted (`SearchedHitsAccepted`).
- The digest stream loses injectivity when a file changes size between `stat` and reading: what it grew by can
  pass for further files (`GrownCollides`, `UnmeasuredCollision`). A decoder recovers the files exactly when the
  two sizes agree (`DecodeEncode`).
- The capture pacer forgets an announced wait when a call fails: the next call sends its first request at once.
  It fails to wait exactly there (`WaitsAsTold`), and such runs exist (`ForgottenWaitExample`). A capture that
  stops at its first failure is not affected.
- A release evaluation that gets through its input checks still fails when building the assessment if it was
  given more than 100 captures, more than 99 drift reports, or two drift reports for the same pair
  (`EvaluationAccepts`); two captures whose one comparison is given twice are enough (`RepeatedDriftExample`).

## Model

| member | source | states |
|---|---|---|
| EvidenceForest.Forest.SetDefault | src/atlas_pulse/correlation.py:211-214 | A new node becomes a root; an existing entry is untouched. |
| EvidenceForest.Forest.Find | src/atlas_pulse/correlation.py:186-192 | Path halving terminates, returns the root of the node, and changes no node's root. |
| EvidenceForest.Forest.Union | src/atlas_pulse/correlation.py:194-200 | Exactly the two trees are merged, their root is the smaller of the two old roots, and every other node keeps its root. |
| EvidenceForest.RootIsLeast | src/atlas_pulse/correlation.py:186-200 | The root of a node is its own parent and no larger than the node. |
| EvidenceForest.LinkMergesRoots | src/atlas_pulse/correlation.py:198-200 | Hanging the larger root under the smaller keeps an acyclic forest and moves exactly one tree. |
| EvidenceGraph.SameRootIffConnected | src/atlas_pulse/correlation.py:186-217 | In a forest that represents the pairs, two nodes share a root exactly when a chain of pairs joins them. |
| EvidenceGraph.RepresentsMerge | src/atlas_pulse/correlation.py:216-217 | Merging the trees of a pair's nodes represents the pair graph with that pair added. |
| IncidentBuilder.ConsistentStep | src/atlas_pulse/correlation.py:202-217 | A consistent batch stays consistent with one more pair exactly when the builder's checks on that pair pass. |
| IncidentBuilder.RejectedIffInconsistent | src/atlas_pulse/correlation.py:202-217 | The pair loop rejects exactly the batches in which some node or edge is given two different contents. |
| IncidentBuilder.ConflictSticks | src/atlas_pulse/correlation.py:202-217 | The error is decided by the first offending pair, whatever follows. |
| IncidentBuilder.CollectPairs | src/atlas_pulse/correlation.py:202-217 | The loop reports the first conflict, and otherwise leaves a forest representing the collected edges. |
| IncidentBuilder.CollectComplete | src/atlas_pulse/correlation.py:202-217 | In a consistent batch every edge joins two collected nodes and every collected node has an edge. |
| Correlation.ComponentHasEdge | src/atlas_pulse/correlation.py:223-244 | No component has an empty edge set, so the maximum over its edges is defined. |
| IncidentBuilder.TreesAreComponents | src/atlas_pulse/correlation.py:219-221 | The trees are the reachability classes and the roots are their least node ids. |
| IncidentBuilder.GroupByRoot | src/atlas_pulse/correlation.py:219-221 | Grouping the sorted nodes by root, with roots still moving under path halving, lists every tree completely, in ascending order. |
| IncidentBuilder.BuildIncidents | src/atlas_pulse/correlation.py:223-261 | One incident per component, in component order, each being the incident of its class. |
| IncidentBuilder.BuildIncidentCandidates | src/atlas_pulse/correlation.py:173-272 | The whole builder answers with the error of the first conflict, or with the incidents of all reachability classes, ordered and cut to the limit. |
| CorrelationLaws.LeaderUnique | src/atlas_pulse/correlation.py:219-221 | No node lies in two classes. |
| CorrelationLaws.EdgeInOneComponent | src/atlas_pulse/correlation.py:226-232 | Every edge falls in exactly one component. |
| CorrelationLaws.SameIncidentIffConnected | src/atlas_pulse/correlation.py:219-261 | Two nodes are reported in one incident exactly when a chain of pairs joins them. |
| CorrelationLaws.ConsistentPairsJoinTwoNodes | src/atlas_pulse/correlation.py:40-48 | In a consistent batch a pair joins two different nodes, and its edge does not depend on which side is left. |
| CorrelationLaws.OrderIndependence | src/atlas_pulse/correlation.py:117-134 | Batches with the same pairs up to order, repetition and orientation are both rejected or give the same result: ids, order and truncation. |
| CorrelationLaws.JoinInjective | src/atlas_pulse/correlation.py:112-114 | Joining single-line values with newlines loses nothing. |
| CorrelationLaws.NodeIdsDiffer | src/atlas_pulse/correlation.py:24-26 | Node identifiers tell events apart by source and event id. |
| CorrelationLaws.IncidentIdsDiffer | src/atlas_pulse/correlation.py:246 | Incidents of different classes have different identifiers. |
| CorrelationReport.MessagesStand | src/atlas_pulse/correlation.py:202-213 | The message kept for a node is the last one of the batch that names it. |
| CorrelationReport.ChainsAlike | src/atlas_pulse/correlation.py:202-217 | The edges kept join two nodes by a chain exactly when the pairs of an accepted batch do. |
| CorrelationReport.IncidentReports | src/atlas_pulse/correlation.py:223-261 | An incident has all the evidence and all the edges of its class, as measured, and nothing else; its times are those of its first and latest message, its distance the longest, its sources all of theirs, its place that of the earliest message that has one. |
| CorrelationReport.ResultReportsNewest | src/atlas_pulse/correlation.py:263-272 | An accepted batch is answered with the first `limit` of its classes, one incident each, the latest signal first and of equals the greater identifier first; total and truncation are about all classes. |
| CorrelationReport.LeftOutNotNewer | src/atlas_pulse/correlation.py:263-272 | No class that the limit leaves out has a later signal, over the messages a chain of pairs joins, than a class that is reported. |
| Ledger.CheckEntry | src/atlas_pulse/agent_governance.py:641-664 | The faults listed for an entry are exactly those it has where it stands, in the order they are looked for. |
| Ledger.VerifyLedger | src/atlas_pulse/agent_governance.py:631-669 | A ledger is accepted exactly when every entry is in its place, follows its predecessor, repeats no identity, holds an acceptable event with matching metadata, and is signed by a trusted key over just that; otherwise exactly the faults found are listed, in order. |
| Ledger.FaultMeaning | src/atlas_pulse/agent_governance.py:585-664 | Each fault in the fields of the entry and of those before it; of the faults an entry has in itself only the first is found. |
| Ledger.AcceptedExactly | src/atlas_pulse/agent_governance.py:585-669 | Validity and trust of a ledger in the fields of its entries, with the verification of every signature. |
| Ledger.SignedInPlace | src/atlas_pulse/agent_governance.py:608-628 | If only what holders of keys signed verifies, every event of an accepted ledger was signed for its position and predecessor by a trusted holder. |
| Ledger.SharedEntryFixesHistory | src/atlas_pulse/agent_governance.py:524-567 | Two valid ledgers sharing one entry id have it at the same position and agree on everything up to it. |
| Ledger.SameHeadSameLedger | src/atlas_pulse/agent_governance.py:631-669 | Two valid ledgers with the same head entry id are equal. |
| Ledger.NextEntryIsNew | src/atlas_pulse/agent_governance.py:546-567 | A freshly built entry repeats no entry id of its ledger. |
| Ledger.AppendValidIff | src/atlas_pulse/agent_governance.py:546-567 | Appending a built entry keeps the ledger valid exactly when the event is acceptable and its artifact is new. |
| Ledger.RepeatedEventNeedsConstraint | src/atlas_pulse/agent_ledger.py:88-129 | Re-appending a recorded event builds an entry without a fault of its own that makes the ledger invalid. |
| Ledger.InMemoryLedger.Append | src/atlas_pulse/agent_governance.py:781-796 | The in-memory append refuses exactly repeated artifacts, changing nothing, and otherwise extends a valid ledger by the next entry. |
| LedgerProtocol.OnlyArtifactsCollide | migrations/versions/20260914_0024_signed_agent_run_ledger.py:22-41 | The table accepts the next entry exactly when its artifact is not yet recorded; the other constraints never fire. |
| LedgerProtocol.StepKeepsInvariant | src/atlas_pulse/agent_ledger.py:88-129 | Every step of every process keeps the protocol invariant and at most extends the committed table. |
| LedgerProtocol.CommittedTablesAreLedgers | src/atlas_pulse/agent_ledger.py:88-129 | In every interleaving every committed table is a valid ledger and a prefix of every later one. |
| LedgerProtocol.LockExcludes | src/atlas_pulse/agent_ledger.py:89-92 | At most one process is past the advisory lock. |
| LedgerProtocol.WhyAppendsFail | src/atlas_pulse/agent_ledger.py:93-129 | No append is ever refused for an invalid ledger, and an insert fails only on a repeated artifact. |
| Approval.GrantedAtMostOnce | src/atlas_pulse/agent_governance.py:714-727 | On a valid ledger an approval has at most one grant, so the branch for several is dead. |
| Approval.ActiveExactly | src/atlas_pulse/agent_governance.py:695-771 | Active means exactly: valid and fully trusted ledger, an in-scope grant within its lifetime, and at most one revocation, consistent and not yet effective. |
| Approval.StatusExactly | src/atlas_pulse/agent_governance.py:695-771 | Each of the eight statuses by its exact condition on ledger, trust, scope, revocations and clock, with what the observation then shows. |
| Approval.ActiveWasSigned | src/atlas_pulse/agent_governance.py:695-771 | If only what holders signed verifies, an active approval was granted, for this proposal and this moment, under the signature of a trusted holder. |
| Approval.NeverReactivated | src/atlas_pulse/agent_governance.py:695-771 | Once revoked or expired, no later evaluation on any extension of the ledger is active, whatever the scope and the trusted keys. |
| Approval.ManifestAcceptsResolution | src/atlas_pulse/agent_runs.py:380-407 | The manifest builder and the response validator accept every resolution of the manifest's own proposal; an active one was signed by a trusted key. |
| UtcTime.BeforeIffEarlier | src/atlas_pulse/source_poll_store.py:20-39 | Comparing calendar fields is comparing instants, leap years included, and an instant has one calendar form. |
| UtcTime.NextMicroFollows | src/atlas_pulse/source_polling.py:345-400 | The calendar's next microsecond is the next instant, across ends of months, leap days and ends of years. |
| UtcTime.DigitsOrder | src/atlas_pulse/source_poll_store.py:20-39 | Fixed-width decimal texts compare as their numbers. |
| UtcTime.IsoOrder | src/atlas_pulse/source_poll_store.py:20-39 | Comparing `isoformat` texts as strings, with or without a fractional part, is comparing instants. |
| StreamId.DecimalValue | src/atlas_pulse/source_poll_store.py:220-224 | Decimal writing is undone by reading. |
| StreamId.ParseFormat | src/atlas_pulse/source_poll_store.py:220-224 | Reading a written stream identifier gives its position back. |
| StreamId.ParseExactly | src/atlas_pulse/source_poll_store.py:220-224 | A cursor is read exactly when it is two decimal numbers joined by a dash. |
| SourcePoll.RankOrdersNames | src/atlas_pulse/source_polling.py:292-312 | The canonical order of sources is the string order of their names. |
| SourcePoll.FoldMeaning | src/atlas_pulse/source_polling.py:141-166 | The fold of every transition log has its most recent success, if there is one, and the number of failures after it. |
| PollStore.InMemorySourcePollStore.AppendTransition | src/atlas_pulse/source_poll_store.py:96-107 | Appends one numbered transition of the attempt's kind. |
| PollStore.InMemorySourcePollStore.RecordStarted | src/atlas_pulse/source_poll_store.py:109-123 | Verdict and new state of a start: rejected without change, or accepted with carried-over success and failures. |
| PollStore.InMemorySourcePollStore.RecordCompleted | src/atlas_pulse/source_poll_store.py:125-144 | Verdict and new state of a completion. |
| PollStore.InMemorySourcePollStore.LoadStates | src/atlas_pulse/source_poll_store.py:146-148 | The states of the known sources, in the order asked for. |
| PollStore.LoadedSplits | src/atlas_pulse/source_poll_store.py:146-148 | Loading goes source by source. |
| PollStore.LoadedOne | src/atlas_pulse/source_poll_store.py:146-148 | A source with a state is loaded with it, one without is left out. |
| PollStore.InMemorySourcePollStore.LoadRecentTransitions | src/atlas_pulse/source_poll_store.py:150-169 | The newest transitions below the cursor, newest first, at most the limit; bad limits and cursors are errors. |
| PollStore.RunKeepsFold | src/atlas_pulse/source_poll_store.py:96-144 | Over every run and source the state is the fold of the accepted transitions, each completion directly follows its own start, and all states and transitions are valid. |
| PollStore.RunKeepsTime | src/atlas_pulse/source_poll_store.py:109-144 | When completions keep their start's time, start times of a source strictly increase. |
| PollStore.RunNeverInvalid | src/atlas_pulse/source_polling.py:150-166 | Under the same condition no transition is ever refused for an inconsistent state. |
| PollAcceptance.AcceptedExactly | src/atlas_pulse/source_poll_store.py:109-144 | Over every run whose completions keep their start's time, a well-formed start is accepted exactly when it is later than every start time its source has in the history, and a completion exactly when the last transition of its source is the start of its attempt; anything else is stale. |
| PollAcceptance.ServerAcceptsExactly | src/atlas_pulse/source_poll_store.py:20-62 | The scripts accept by the same history. |
| PollAcceptance.PolicyOfLastStart | src/atlas_pulse/source_poll_store.py:109-144 | A state has the policy of the last accepted start of its source. |
| PollStore.RunNumbers | src/atlas_pulse/source_poll_store.py:96-107 | Transition identifiers are 0-1, 0-2 and so on. |
| PollStore.PagingSeesFirstHistory | src/atlas_pulse/source_poll_store.py:150-169 | Following cursors while polls go on shows exactly the history at the first request, newest first, each transition once. |
| Paging.PageShape | src/atlas_pulse/source_poll_store.py:150-169 | A page of a grown log is the next stretch of the first log, and says whether anything retained is left. |
| Paging.WalkShowsFirstLog | src/atlas_pulse/api.py:1404-1427 | A walk over the pages of a growing, expiring log shows the first log down to a point below which everything has expired. |
| PollHistory.ResponseValid | src/atlas_pulse/source_polling.py:205-223 | Every page of an ascending history passes the response validator. |
| PollHistory.AnswerMeaning | src/atlas_pulse/source_poll_store.py:150-169 | For every cursor a store answers with the newest transitions below it, as many as asked for, newest first. |
| PollHistory.CursorSessionSeesAll | src/atlas_pulse/api.py:1404-1427 | The endpoint's cursors realise that walk: nothing retained is skipped or repeated. |
| PollHistory.SessionValid | src/atlas_pulse/api.py:1404-1427 | Every page of a session passes the response validator. |
| ValkeyPollStore.ValkeySourcePollStore.RecordStarted | src/atlas_pulse/source_poll_store.py:20-39 | The start script's verdict and its new hash and stream. |
| ValkeyPollStore.ValkeySourcePollStore.RecordCompleted | src/atlas_pulse/source_poll_store.py:41-62 | The completion script's verdict and its new hash and stream. |
| ValkeyPollStore.StepSimulates | src/atlas_pulse/source_poll_store.py:20-62 | One script step gives the in-memory verdict and leaves corresponding states and histories. |
| ValkeyPollStore.LoadsAlike | src/atlas_pulse/source_poll_store.py:287-320 | Loading from the hashes gives the states of the in-memory store. |
| ValkeyPollStore.RunSimulates | src/atlas_pulse/source_poll_store.py:252-285 | Over every run the two stores correspond. |
| ValkeyPollStore.StoresAgree | src/atlas_pulse/source_poll_store.py:227-320 | Both stores accept and refuse the same operations for the same reasons and load the same states. |
| ValkeyPollStore.AgreementNeedsKeptStart | src/atlas_pulse/source_poll_store.py:130-134 | After a completion the stores agree on every possible next start exactly when it kept its start's time. |
| ValkeyPollStore.MovedStartDiffers | src/atlas_pulse/source_poll_store.py:130-134 | When it did not, a start at the later of the two times is judged differently. |
| ValkeyPollStore.MovedStartExample | src/atlas_pulse/source_poll_store.py:125-144 | A run of a start and a failure dated before it ends in disagreement. |
| ValkeyHistory.StreamAscends | src/atlas_pulse/source_poll_store.py:34-37 | Over every run the bounded stream stays ascending and its next identifier lies above it. |
| ValkeyHistory.StreamGrows | src/atlas_pulse/source_poll_store.py:34-37 | A later stream is the earlier one with an expired start and newer transitions at the end. |
| ValkeyHistory.PagingSeesRetainedHistory | src/atlas_pulse/source_poll_store.py:322-360 | Paging the trimmed stream while polls go on skips nothing that is still retained and repeats nothing; every page is valid. |
| Freshness.EvaluateSourceFreshness | src/atlas_pulse/source_polling.py:326-433 | The evaluating loop returns the specified evaluation or its first error. |
| Freshness.EvaluationMeetsContracts | src/atlas_pulse/source_polling.py:280-312 | Evaluation succeeds exactly for canonical policies with matching states in force, and then passes the server's and the browser's response contracts. |
| Freshness.PassingTimes | src/atlas_pulse/source_polling.py:326-433 | The times at which freshness passes form one closed interval. |
| Freshness.LostPassStaysLost | src/atlas_pulse/source_polling.py:326-433 | A lost pass is not regained without a new transition. |
| FreshnessMeaning.PollStatusExactly | src/atlas_pulse/source_polling.py:366-412 | Each poll status by its exact condition on the times of the last poll and of the last success. |
| FreshnessMeaning.DataStatusExactly | src/atlas_pulse/source_polling.py:366-412 | Each data status by its exact condition on the time the data was generated. |
| FreshnessMeaning.ResponseMeaning | src/atlas_pulse/source_polling.py:326-433 | Each item reports the stored state of its policy's source, with both statuses as they are on the clock, and nothing if there is none. |
| FreshnessOfStore.StoreStatesEvaluate | src/atlas_pulse/api.py:1372-1385 | For canonical policies and every run under them, evaluation of the loaded states succeeds and meets both contracts. |
| RateLimit.DecisionSound | src/atlas_pulse/rate_limit.py:166-183 | A script answer always decides: allowed within the budget, with exactly the number of requests still within it, and the reset time is the expiry rounded up to a second. |
| RateLimit.CountIsPosition | src/atlas_pulse/rate_limit.py:16-27 | A request's count is its position in its key's lifetime, so exactly the first N are admitted. |
| RateLimit.LivesForWindow | src/atlas_pulse/rate_limit.py:16-27 | A counter outlives its opening request by at least a window, extensions included. |
| RateLimit.PauseAdmits | src/atlas_pulse/rate_limit.py:16-27 | A request after the expiry of the counter starts a new one, and no counter is left for longer than a window after its last request. |
| RateLimit.OpenersApart | src/atlas_pulse/rate_limit.py:16-27 | Lifetimes open at least a window apart. |
| RateLimit.FewerThanTwice | src/atlas_pulse/rate_limit.py:16-27 | Any half-open interval of window length admits at most 2N - 1 requests. |
| RateLimit.BoundIsSharp | src/atlas_pulse/rate_limit.py:16-27 | Some trace admits 2N - 1. |
| RateLimitRuns.ApiRateLimiter.Consume | src/atlas_pulse/rate_limit.py:185-203 | A budget is charged when the script ran, whether or not the answer arrives. |
| RateLimitRuns.ApiRateLimiter.Dispatch | src/atlas_pulse/api.py:765-804 | The middleware charges the policies of a path in order and stops at the first refusal or failure. |
| RateLimitRuns.RunKeepsCounts | src/atlas_pulse/rate_limit.py:16-27 | In every interleaving each key's counter is the one its own requests give. |
| RateLimitRuns.RunKeepsCalls | src/atlas_pulse/api.py:765-804 | A call is served only after every budget of its path admitted it, in policy order. |
| RateLimitRuns.ServedFewerThanTwice | src/atlas_pulse/rate_limit.py:106-112 | In every interleaving a client is served at most 2N - 1 calls per window under each budget. |
| RateLimitPaths.PathsPassBudgets | src/atlas_pulse/rate_limit.py:26-33 | In every interleaving a served call to one of the four expensive paths was admitted by the general budget and then by the expensive one, a served call to another `/v1/` path by the general one, and charged no other; a call is denied exactly when a charge of it found its budget used up. |
| RateLimitPaths.PathsServedFewerThanTwice | src/atlas_pulse/rate_limit.py:106-112 | A client is served at most 2N - 1 calls to the four expensive paths per window under the expensive limit, and at most 2N - 1 limited calls under the general one. |
| RateLimitPaths.ServeMeaning | src/atlas_pulse/api.py:770-804 | One request charges its budgets in order up to the first that denies or cannot answer, which decides the response; otherwise the tightest of its decisions is shown. |
| Percentiles.PercentileForgetsOrder | src/atlas_pulse/agent_trajectory/scoring.py:196-202 | The percentile does not depend on input order. |
| Percentiles.PercentileWithin | src/atlas_pulse/agent_trajectory/scoring.py:196-202 | The percentile lies between any bounds of the values. |
| Percentiles.PercentileMonotone | src/atlas_pulse/agent_trajectory/scoring.py:196-202 | If no value grows, the percentile does not grow. |
| Percentiles.PercentileMeaning | src/atlas_pulse/agent_trajectory/scoring.py:196-202 | Between the values of which two ranks a percentile lies, and how far along, by counting how many values are smaller and how many no larger. |
| Scoring.OutcomeValid | src/atlas_pulse/agent_trajectory/scoring.py:55-87 | Every outcome passes its validator. |
| Scoring.StrictPassMeaning | src/atlas_pulse/agent_trajectory/scoring.py:205-266 | A strict pass means: compliant, the right final action, all required evidence inspected, every expected claim drafted as expected. |
| Scoring.OutcomeMeaning | src/atlas_pulse/agent_trajectory/scoring.py:205-266 | What an outcome counts: required evidence that some step inspects, and expected claims whose last draft cites just their evidence. |
| Scoring.SummaryValid | src/atlas_pulse/agent_trajectory/scoring.py:110-118 | Every non-empty set of valid outcomes has a summary that passes its validator. |
| Scoring.SummaryShares | src/atlas_pulse/agent_trajectory/scoring.py:324-356 | Which outcomes each share of a summary counts. |
| Scoring.SummaryMeans | src/atlas_pulse/agent_trajectory/scoring.py:324-356 | What each mean of a summary is the mean of. |
| Scoring.SummaryPercentiles | src/atlas_pulse/agent_trajectory/scoring.py:324-356 | The two 95th percentiles are those of the step counts and of the latencies. |
| Scoring.NoSlowerSummary | src/atlas_pulse/agent_trajectory/scoring.py:324-356 | If no case takes more steps or time, neither 95th percentile grows. |
| Drift.ComparisonValid | src/atlas_pulse/agent_trajectory/drift.py:190-282 | Comparison succeeds exactly on comparable, time-ordered reports, and its report passes its validator. |
| Drift.StableMeansAllPassed | src/atlas_pulse/agent_trajectory/drift.py:94-138 | The list of failed metrics is empty exactly when every check passed. |
| Drift.ComparisonMeaning | src/atlas_pulse/agent_trajectory/drift.py:152-282 | A metric fails exactly when it leaves its own allowance, a rate by dropping and a percentile by growing, and a comparison is stable exactly when none does. |
| Drift.RateBound | src/atlas_pulse/agent_trajectory/drift.py:152-167 | Over a stable chain a rate loses at most one allowance per step. |
| Drift.IncreaseBound | src/atlas_pulse/agent_trajectory/drift.py:170-187 | Over a stable chain a 95th percentile grows at most geometrically, and zero stays zero. |
| Drift.ChainWithinAllowance | src/atlas_pulse/agent_trajectory/drift.py:152-187 | Both bounds, for every metric of valid captures. |
| ReleaseLaws.SortedChain | src/atlas_pulse/agent_trajectory/release.py:448-480 | When the chain gate passes, the time-sorted drift reports are exactly the consecutive comparisons. |
| ReleaseLaws.DraftAccepted | src/atlas_pulse/agent_trajectory/release.py:244-305 | The assessment built passes its validator exactly when captures and drifts fit its field bounds and drift pairs are distinct. |
| ReleaseLaws.EvaluationAccepts | src/atlas_pulse/agent_trajectory/release.py:374-713 | Evaluation succeeds exactly when the inputs bind, captures and drifts fit their field bounds and drift pairs are distinct, and then its assessment is valid (the length bound on gate texts aside). |
| ReleaseMeaning.CaseFits | src/atlas_pulse/agent_trajectory/release.py:374-415 | The input checks pass exactly when captures and reviews occur once and each belongs to the other kind. |
| ReleaseMeaning.EvaluationMeaning | src/atlas_pulse/agent_trajectory/release.py:374-713 | An assessment exists exactly for inputs that fit together within the list bounds. It is eligible exactly when the supplied reports meet all 22 gates, each stated report by report; the gates passed and the reasons given are exactly those met and not met. |
| ReleaseLaws.RepeatedDriftExample | src/atlas_pulse/agent_trajectory/release.py:374-713 | For every policy some inputs bind, with genuine drift reports, and yield no assessment. |
| ReleaseLaws.EvaluationForgetsOrder | src/atlas_pulse/agent_trajectory/release.py:374-713 | Permuting reviews, captures and drifts changes neither success nor error nor any gate; with a passing chain gate the whole assessment is the same. |
| ReleaseLaws.PassedGatesBoundDrift | src/atlas_pulse/agent_trajectory/release.py:448-480 | When the drift-stability gate passes, any two captures differ by at most the allowance of the steps between them. |
| ReleaseLaws.FasterKeepsBudgets | src/atlas_pulse/agent_trajectory/release.py:612-625 | If no case gets slower or longer, a passing step or latency gate stays passing. |
| AgentRuns.FlagsReach | src/atlas_pulse/agent_runs.py:292-342 | The six flags together cover every one of the 22 gates. |
| AgentRuns.FlagsExactly | src/atlas_pulse/agent_runs.py:292-342 | Each flag by the gates it speaks for. |
| AgentRuns.FlagsMeanEligible | src/atlas_pulse/agent_runs.py:345-377 | All flags hold exactly when the status is eligible, which is exactly when every gate passed; the manifest builder accepts the observation. |
| AgentRuns.OnlyExecutionBlocks | src/atlas_pulse/agent_runs.py:410-480 | With traceable evidence, an eligible release and an active approval exactly the execution check blocks; without one of them another check blocks too. |
| AgentRuns.ChecksExactly | src/atlas_pulse/agent_runs.py:410-480 | Each named check passes exactly when what it stands for is warranted; execution never. |
| Agreement.ConfusionMarginals | src/atlas_pulse/evaluation/adjudication.py:405-414 | Rows, columns and diagonal of the confusion matrix give both reviewers' counts, the agreements and the total. |
| Agreement.ProductsBound | src/atlas_pulse/evaluation/adjudication.py:380-402 | Twice the expected agreement is at most one plus the observed, in whole numbers. |
| Agreement.ProductsFull | src/atlas_pulse/evaluation/adjudication.py:390-400 | Expected agreement reaches one exactly when one grade was given throughout. |
| Agreement.MetricsValid | src/atlas_pulse/evaluation/adjudication.py:96-112 | Metrics of a non-empty list pass their validator, with kappa in [-1, 1], undefined exactly when one grade was given throughout. |
| AgreementReport.Collect | src/atlas_pulse/evaluation/adjudication.py:417-456 | The loop groups grades by query, slice and source and lists the disagreements. |
| AgreementReport.GroupsPartition | src/atlas_pulse/evaluation/adjudication.py:417-456 | Grouping loses and duplicates no judgment and leaves no group empty. |
| AgreementReportLaws.AssembleReport | src/atlas_pulse/evaluation/adjudication.py:417-497 | From the compared rows on, the report is the one specified. |
| AgreementReportLaws.SlicesSound | src/atlas_pulse/evaluation/adjudication.py:430-456 | Every slice group is non-empty and graded, so it has valid metrics. |
| AgreementReportLaws.ReportForgetsOrder | src/atlas_pulse/evaluation/adjudication.py:417-497 | The judgments in any order give the same report: metrics of every group, matrix and disagreements. |
| AgreementReportLaws.ReportValid | src/atlas_pulse/evaluation/adjudication.py:153-216 | Every assembled report passes its validators: metrics of all groups valid, matrix complete and consistent with them, disagreements unique, in canonical order and matching the cells, groups adding up, slices bounded. |
| AgreementMeaning.ReportMeaning | src/atlas_pulse/evaluation/adjudication.py:380-497 | Every figure of a report as a number of judgments: metrics overall and over the judgments of each query, slice and source, the matrix cell by cell, and exactly the disagreements, in order. |
| ReviewComparison.CompareReviews | src/atlas_pulse/evaluation/adjudication.py:417-497 | The whole comparison yields the specified report, or its first error. |
| ReviewComparison.ComparisonValid | src/atlas_pulse/evaluation/adjudication.py:329-377 | Two pools are compared exactly when they are first-pass reviews of one capture, with some candidate, by different reviewers; the result passes every check and does not depend on which pool comes first. |
| AgreementReport.MetricsSymmetric | src/atlas_pulse/evaluation/adjudication.py:380-402 | Exchanging the reviewers does not change the metrics. |
| AdjudicationSheet.ParseSheet | src/atlas_pulse/evaluation/adjudication.py:592-664 | Reading accepts exactly the sheets with one sound line for each disagreement and none else; otherwise it names the first fault, or how many are missing. |
| AdjudicationSheet.EntriesByLine | src/atlas_pulse/evaluation/adjudication.py:608-660 | Each line decides its own disagreement. |
| AdjudicationSheet.AnswerMeaning | src/atlas_pulse/evaluation/adjudication.py:633-660 | An answer is read as it stands: open where that is allowed, or a grade from 0 to 3 with its rationale. |
| AdjudicationSheet.LineMeaning | src/atlas_pulse/evaluation/adjudication.py:608-660 | A line is refused for exactly the fault it has, and otherwise names a disagreement not yet read, unchanged, with an answer that can be read. |
| AdjudicationSheet.SheetForgetsOrder | src/atlas_pulse/evaluation/adjudication.py:608-664 | Permuting the lines changes neither acceptance nor any decision. |
| AdjudicationSheet.AnsweredSheetAccepted | src/atlas_pulse/evaluation/adjudication.py:545-580 | An exported sheet in which only answers were filled in is accepted exactly when each answer can be read by itself. |
| AdjudicationSheet.BlankSheetResumes | src/atlas_pulse/evaluation/adjudication.py:667-679 | The sheet as exported is accepted as a partial one, with every decision open. |
| AdjudicationSheet.CompleteEntries | src/atlas_pulse/evaluation/adjudication.py:633-657 | In a complete sheet every decision has a grade from 0 to 3 and a rationale of 10 to 1000 characters. |
| Adjudication.CanonicalEitherWay | src/atlas_pulse/evaluation/adjudication.py:329-346 | The canonical order of two reviews does not depend on which is passed first. |
| Adjudication.SettleQuery | src/atlas_pulse/evaluation/adjudication.py:710-737 | The loop over candidates settles every candidate of a query in place and records the disputed ones. |
| Adjudication.ApplyAdjudication | src/atlas_pulse/evaluation/adjudication.py:682-781 | The whole adjudication yields the specified pool and report, or its first error. |
| AdjudicationLaws.ReviewsComparable | src/atlas_pulse/evaluation/adjudication.py:349-377 | Reviews of one capture always pair up; the checks for changed queries, documents and evidence never fail. |
| AdjudicationLaws.SettleSucceeds | src/atlas_pulse/evaluation/adjudication.py:682-781 | It fails for no other reason than missing candidates, an unfit adjudicator or an unaccepted sheet. |
| AdjudicationLaws.AdjudicationForgetsOrder | src/atlas_pulse/evaluation/adjudication.py:682-781 | Neither the order of the reviews nor that of the lines changes the pool or the report. |
| AdjudicationLaws.FinalJudgments | src/atlas_pulse/evaluation/adjudication.py:710-737 | The final pool is the captured one with every judgment replaced: agreed grades where they agree, elsewhere what that candidate's line says. |
| AdjudicationLaws.FinalPoolValid | src/atlas_pulse/evaluation/base.py:343-384 | The final pool passes its validators. |
| AdjudicationLaws.ReportValid | src/atlas_pulse/evaluation/adjudication.py:265-291 | Agreed and decided judgments add up, decisions are unique and in order, and the adjudicator is independent. |
| AdjudicationLaws.ReportMeaning | src/atlas_pulse/evaluation/adjudication.py:710-781 | The report has exactly one decision for every candidate the reviewers disagree on, with both their grades and the final judgment, and names and identifies all three pools. |
| Campaign.MergeQuery | src/atlas_pulse/evaluation/campaign.py:288-300 | The loop over candidates adds what is new and reports exactly the conflicts in evidence or grade. |
| Campaign.SharedUnion | src/atlas_pulse/evaluation/campaign.py:264-301 | Succeeds exactly for captures of one shape that nowhere contradict each other, and gathers what they list, each candidate as the earliest capture has it. |
| CampaignLaws.CompatibleForgetsOrder | src/atlas_pulse/evaluation/campaign.py:264-301 | Whether captures fit together does not depend on their order. |
| CampaignLaws.UnionForgetsOrder | src/atlas_pulse/evaluation/campaign.py:349-366 | Up to rationales, which its digest leaves out, the union does not depend on the order of captures. |
| CampaignLaws.AlignedDistinct | src/atlas_pulse/evaluation/campaign.py:304-321 | An aligned query lists no document twice. |
| CampaignLaws.AlignedKeeps | src/atlas_pulse/evaluation/campaign.py:304-321 | An aligned query lists each of its own candidates, graded as it was. |
| CampaignLaws.AlignedCovers | src/atlas_pulse/evaluation/campaign.py:304-321 | An aligned query lists every document its own query listed. |
| CampaignLaws.AlignedPoolValid | src/atlas_pulse/evaluation/campaign.py:304-321 | Every capture aligned with the union passes the pool validators again: distinct graded candidates that cover the documents of its runs. |
| CampaignLaws.CountCaptures | src/atlas_pulse/evaluation/campaign.py:371-385 | The loop counts candidates, overlap, additions and removals of each capture. |
| CampaignLaws.CountsTelescope | src/atlas_pulse/evaluation/campaign.py:371-385 | All additions less all removals is what the last capture has. |
| CampaignLaws.UnionCount | src/atlas_pulse/evaluation/campaign.py:264-301 | The union built has exactly the candidates of all captures. |
| CampaignLaws.UnionAtMostAdded | src/atlas_pulse/evaluation/campaign.py:371-385 | The union has at most as many candidates as were added in all, and exactly as many when none returns after it was dropped. |
| CampaignLaws.UnionCoversCaptures | src/atlas_pulse/evaluation/campaign.py:164-167 | No capture has more candidates than the union. |
| RetrievalPacer.RetrievalApiPacer.Wait | src/atlas_pulse/evaluation/capture.py:75-84 | A wait that would exceed the total is refused without change, any other is added to it. |
| RetrievalPacer.RetrievalApiPacer.Fetch | src/atlas_pulse/evaluation/capture.py:86-117 | The bounded retry loop does what the specification of a call says, error paths included. |
| RetrievalPacer.GetHeeds | src/atlas_pulse/evaluation/capture.py:86-117 | A call waits first if a wait is due, waits after each refusal as told, and leaves due exactly what its last response announced. |
| RetrievalPacer.GetBudget | src/atlas_pulse/evaluation/capture.py:97-113 | A call makes at most four requests and keeps the wait budget. |
| RetrievalPacer.AnnouncedExactly | src/atlas_pulse/evaluation/capture.py:34-58 | Which wait a response asks for, in its status and headers. |
| RetrievalPacer.GetReturns | src/atlas_pulse/evaluation/capture.py:86-117 | A call goes on over refusals it may wait for, and the first other answer, or the fourth refusal, decides what it returns. |
| RetrievalPacer.RunBudget | src/atlas_pulse/evaluation/capture.py:61-117 | Over every run of calls at most 900 seconds are slept in all, each wait being 1 to 300 seconds. |
| RetrievalPacer.WaitsAsTold | src/atlas_pulse/evaluation/capture.py:86-117 | Over every run the pacer waits as the response before told it to, except exactly where a wait was announced and the call then failed; there it asks again at once. |
| RetrievalPacer.ForgottenWaitExample | src/atlas_pulse/evaluation/capture.py:86-117 | Some run announces a wait that is not observed. |
| Relationships.MatchTexts | src/atlas_pulse/relationships.py:321-330 | The loops collect exactly what the texts say on each subject, in order. |
| Relationships.ExtractOperational | src/atlas_pulse/relationships.py:315-349 | A record without a place makes no operational claim; otherwise the claims are those the matched texts agree on, by subject. |
| Relationships.OneClaimPerSubject | src/atlas_pulse/relationships.py:223-355 | A record makes one claim on a subject, except that a seismic one may also be tsunami-related. |
| Relationships.RelatedEitherWay | src/atlas_pulse/relationships.py:366-417 | Which claim is on the left does not matter. |
| Relationships.OneRelationshipPerSubject | src/atlas_pulse/relationships.py:420-444 | Along an edge between different sources there is at most one decisive relationship on each subject. |
| Relationships.RelateEdge | src/atlas_pulse/relationships.py:431-463 | An edge reports everything two claims establish, or, exactly when there is nothing, that the evidence is insufficient. |
| Relationships.AtMostThree | src/atlas_pulse/relationships.py:431-463 | An edge between different sources reports one to three relationships. |
| Relationships.ClaimsOfNode | src/atlas_pulse/relationships.py:422 | In an incident with distinct node ids every node is looked up with its own claims. |
| Relationships.AnalyzeIncident | src/atlas_pulse/relationships.py:420-473 | Every edge is covered, nothing else is reported, exactly the undecided edges count as insufficient, and the counts add up. |
| RelationshipMeaning.ClaimMeaning | src/atlas_pulse/relationships.py:223-355 | A record claims exactly what it asserts: its domain of hazard, and the operational state its texts name at a place without naming another. |
| RelationshipMeaning.EstablishedMeaning | src/atlas_pulse/relationships.py:358-417 | Two records' claims establish agreement exactly on a value both assert, and contradiction exactly on opposed states, operational states only at one place. |
| RelationshipMeaning.AnalysisMeaning | src/atlas_pulse/relationships.py:420-473 | Without collisions of identities the analysis shows agreement and contradiction on an edge exactly where its two records amount to it, and insufficient evidence exactly where they amount to neither. |
| EvidencePack.BuildEvidencePack | src/atlas_pulse/evidence_packs.py:306-428 | The packing loop builds the specified pack. |
| EvidencePack.ValidateItems | src/atlas_pulse/evidence_packs.py:258-303 | Items are accepted exactly when ids and ranks are distinct and every item's identity and text are consistent. |
| EvidencePack.ValidateEvidencePack | src/atlas_pulse/evidence_packs.py:233-303 | The validator accepts exactly the valid packs. |
| EvidencePackLaws.RanksPartition | src/atlas_pulse/evidence_packs.py:319-400 | Ranks of items and exclusions are 1 to n, each once, both lists ascending. |
| EvidencePackLaws.BudgetsHold | src/atlas_pulse/evidence_packs.py:319-400 | All three budgets hold after every hit. |
| EvidencePackLaws.IncludedArePrefix | src/atlas_pulse/evidence_packs.py:319-400 | The included hits are a prefix of the eligible ones, a proper one only when a budget is used up. |
| EvidencePackLaws.OnlyLastIsCut | src/atlas_pulse/evidence_packs.py:319-400 | Only the last item can be cut by the total budget. |
| EvidencePackLaws.PackMeaning | src/atlas_pulse/evidence_packs.py:319-400 | Every item is an excerpt of the hit at its rank, a prefix of its document; every exclusion names the hit at its rank with the one reason that hit was left out. |
| EvidencePackLaws.ItemsAreIncluded | src/atlas_pulse/evidence_packs.py:319-400 | Which hits are included, and how long their excerpts are, in closed form over the hits and the budgets. |
| EvidencePackLaws.BuiltAccepted | src/atlas_pulse/evidence_packs.py:233-428 | A built pack is accepted exactly when candidates are at least hits, no included hit has an empty URL, and included hits have distinct evidence ids. |
| EvidencePackLaws.DistinctHitsAccepted | src/atlas_pulse/evidence_packs.py:168-189 | With distinct messages and collision-free ids, exactly when candidates are at least hits and no included hit has an empty URL. |
| EvidencePackLaws.EmptyUrlExample | src/atlas_pulse/evidence_packs.py:233-428 | Some search result, made by hand, is packed into a pack the validator rejects. |
| Citations.ValidateEventCitation | src/atlas_pulse/retrieval/document.py:138-168 | The loop over the evidence fields yields the specified citation. |
| Citations.TraceableExactly | src/atlas_pulse/retrieval/document.py:138-168 | A citation is traceable exactly when some field has a public link, and then it has a non-empty URL and its field. |
| Citations.FirstPublicCited | src/atlas_pulse/retrieval/document.py:138-168 | With a public link the first one, in the order of the fields, is cited. |
| Citations.NonePublicCited | src/atlas_pulse/retrieval/document.py:138-168 | Without one the reasons of all links rejected are listed, each once; without those the link is missing. |
| EvidencePackLaws.SearchedHitsAccepted | src/atlas_pulse/retrieval/ranking.py:103 | Packs built from hits cited by the search itself are always accepted. |
| ArtifactDigest.FeedContent | src/atlas_pulse/relationship_nli.py:377-379 | Reading in chunks feeds exactly the file's bytes. |
| ArtifactDigest.FeedArtifacts | src/atlas_pulse/relationship_nli.py:369-380 | The loops feed the concatenated encoding, or fail exactly when a length exceeds its field. |
| ArtifactDigest.DecodeEncode | src/atlas_pulse/relationship_nli.py:369-380 | A decoder recovers the paths and bytes exactly when every reported size is the number of bytes read. |
| ArtifactDigest.GrownCollides | src/atlas_pulse/relationship_nli.py:369-380 | A file that grew after it was measured by the encoding of other artifacts gives the stream of the measured file followed by those. |
| ArtifactDigest.UnmeasuredCollision | src/atlas_pulse/relationship_nli.py:369-380 | Without equal sizes, different lists of files can give one stream. |
| ArtifactDigest.EncodeInjective | src/atlas_pulse/relationship_nli.py:369-380 | Different artifact lists give different streams. |

## Left out

- `relationship_nli.py` beyond the digest (truncating documents, choosing a label, the run report) is not part of this model.
- `score_pool` and the metric comparisons of a campaign: only its union and its counts are modelled.
- Text matching in `relationships.py`: which operational state, term or category a text names is a parameter.
- Layout and CSV text of adjudication sheets: a line is its key, its protected columns as one value, and its two answers.
- Copies of the agreement rate and of kappa in the provenance of a final pool.
- Interrupted sleeps of the capture pacer: a wait once begun is slept in full.
- `_center` trigonometry: the position of an incident is a parameter of the correlation model.
- Formats of identifiers (`evp-` and similar prefixes followed by hex digits), of reasons and actor names, and fields with a fixed literal value.
- JSON text of stored records: reading back what was written is taken to be the identity.
- Rounding of floating-point numbers: rates, latencies and ages are real numbers.
- Valkey string comparison is taken to compare bytes; of key expiry only the counter's expiry is modelled, with either answer allowed at the very moment of expiry.
- Cursors `0-0` and cursors with a part of 2^64 or more, which Valkey refuses as an exclusive bound (`src/atlas_pulse/source_poll_store.py:330`) and the in-memory store accepts: the endpoint model accepts them. No next cursor has that form.
- The answer `ledger_unavailable`, and `ledger_invalid` for a row that cannot be read back, when resolving an approval from PostgreSQL.
- Identities of drift reports and assessments, derived from their content, and the texts of observed and required values of gates with their bound of 300 characters.
- Cryptography: Ed25519 and SHA-256 are parameters; the base64 text form of keys and signatures is not part of this model.
- HTTP and command-line handling, telemetry, configuration, the PostGIS queries and the user interface.
