# Protocols of the repository, modelled and verified

This project states what a dozen self-contained protocols, loops and state machines of the
repository promise, and proves it with Dafny. `dafny verify dfyconfig.toml` checks everything.

Each module follows one script or component:

- `LogDrain` and `Completion`: draining a frozen horizon of a paged, filtered, growing session log,
  and detecting completions on top of it while it grows.
- `LivePersistence`: the greedy check that captured frames were persisted in order.
- `RouterConfig`, `Router`, `RouterHistory`, `Failover`: the model router, its startup validation,
  ordering strategies, routing memo, counters and latency estimates, and the two failover loops.
- `DeliveryProof`, `DeliveryReport`, `DeliveryRules`, `DeliverySample`: the checker of a completed
  delivery, the rules its success is equivalent to, and that success is possible.
- `SummaryDocument`, `SummaryWindows`: the daily summary's document in git, and its byte ranges,
  time windows and counters over many runs.
- `ReleaseCutover`: the fail-closed release with rollback, where every step may raise.
- `TenantPaths`, `TenantQuota`: materialised tenant paths, the SQL ancestor query, and quotas.
- `ProcessTree`, `LaneBusy`: which lanes of a host are busy.
- `Metrics`, `MetricsText`, `MetricsPage`: the metrics registry, its Prometheus text (exposition format
  0.0.4), and a scraper that reads the whole page back.
- `Supervisor`: the development container's service supervisor.
- `ImportClosure`: the proto import worklist.
- `Sequences`, `Sorting`: filters, joins and the stable sort the models share.

Objects whose methods update their fields are classes here, loops are loops, and each method is
proved against a specification function or condition; the properties are lemmas about those.
What the outside world does (a server's reply, a git step, a health request) is an input, so every
statement ranges over everything it can do.

## Where code and documentation part

The model follows the code. These lemmas say where that differs from a docstring or a reported text:

- Streaming failover is documented to happen before the first byte. It can also happen after chunks
  were sent: `Failover.SingleStreamIff` says exactly when the output is one stream, and
  `Failover.MidStreamFailureMixes` shows a mixed one.
- `ProviderError` is documented as non-retryable (`src/bifrost/ports/provider.py`); the router moves
  on to the next candidate on it, and so does the model.
- An alias is resolved once for the candidate and again for its providers. `Router.CandidatesServeIff`
  and `Router.CandidatesOnOnePathIff` characterise the effect on alias chains.
- The daily summary reports "the next run carries this section" for any failed git command. That is
  so iff the commit failed (`SummaryDocument.CarryPromiseIff`).
- The default restart policy is `on-failure`, but an exit code of 0 is restarted too
  (`Supervisor.ExitCodesAreIgnored`), and reconciling ignores every field but command and port
  (`Supervisor.SpecIsPickedUpIff`).
- `check_quota` speaks of the ancestor chain; the query reads each path as a LIKE pattern. So `team`
  counts as an ancestor of `teams`, and `a_b` of `axb`: `TenantQuota.WildcardRowsAreChainIff` and
  `TenantQuota.RowsAreChainIff` give the exact conditions, `TenantQuota.UnderscoreDeniesStranger` an
  unrelated tenant's denial. A lone backslash makes a tenant miss its own quota
  (`TenantQuota.BackslashBypassesQuota`), and an id with a dot makes a path look like a child's
  (`TenantQuota.DottedIdBreaksChain`).
- Greedy matching with snapshot reconciliation can report a frame missing on a log that accounts for
  it (`LivePersistence.GreedyIsCompleteIff` says for which captures it never does).
- `counter_moves` is documented as what moved since the last reading. After a gateway restart it leaves
  out whatever the old process counted after that reading, even when the restart is seen
  (`SummaryWindows.SeenRestartLosesTail`), and more when the push status was unreadable in its window
  (`SummaryWindows.UnreadRestartMisreports`). `SummaryWindows.ReportedIsGrowthLessMissed` gives the
  difference, `SummaryWindows.ReportedIsTrueIff` the exact condition for none.
- A shrunk log is taken for a rotated one and read from its start. What the old log held after the last
  offset is never counted, and neither is the beginning of a new log that is already longer than that
  offset (`SummaryWindows.DeliveredPlusLost`).
- Acceptance of a delivery does not ask that a forge wait was satisfied or carries a receipt, only that
  what it does carry fits (`DeliveryReport.WaitVouchesIff`, `DeliveryReport.SilentWaitStaysAccepted`,
  `DeliverySample.UnsatisfiedWaitIsAccepted`). Open blocking findings are looked at in the reviews of
  children and not in the integration review (`DeliveryReport.FindingsDecideChildrenOnly`).
- A release record may say `passed` although the run raised, when something interrupts it after the
  pass was recorded (`ReleaseCutover.PassedYetRaisedIff`).

## Model

| member | source | states |
|---|---|---|
| LogDrain.DrainRows | scripts/forge_live.py:91-118 | the client loop terminates and returns what the recursive drain says, for any server: rows up to the horizon, or the "cursor failed to advance" error |
| LogDrain.AcceptedRowsAreOrdered | scripts/forge_live.py:111-117 | whatever any server answers, rows handed back strictly increase and lie in (after, head] |
| LogDrain.PageCoversNextNumbers | scripts/forge_live.py:94-98 | pigeonhole: a raw page of a log with strictly increasing integer numbers holds every row of the next PAGE_SIZE numbers |
| LogDrain.EmptyPageSkipsNothing | scripts/forge_live.py:108-110 | an empty visible page may be skipped by PAGE_SIZE numbers: the wanted rows before and after the skip are the same |
| LogDrain.PagesOf500 | scripts/forge_live.py:94-110 | pages are of 500 raw rows, and an empty one moves the cursor by as much |
| LogDrain.PageThenRest | scripts/forge_live.py:111-117 | a short or full visible page is its rows up to the horizon followed by everything wanted after its last row, so a short page is not the end |
| LogDrain.GrowthUnseen | scripts/forge_live.py:91-98 | rows appended past the frozen horizon change nothing that is wanted |
| LogDrain.DrainIsWanted | src/volundr/adapters/inbound/rest_session_log.py:526-545 | against the server that pages first and filters afterwards, on a log that grows between requests, the drain is the visible slice of the log taken in one piece |
| LogDrain.DrainIsExact | scripts/forge_live.py:91-118 | main result: for every valid growing log and every filter, the drain never gives up and returns exactly the visible rows with after < seq <= head, in order |
| LogDrain.WantedIsExact | scripts/forge_live.py:94-98 | the one-piece slice meets the same independent description: increasing, and a row is in it iff it is logged, visible and in the window |
| LogDrain.ExactDrainIsUnique | scripts/forge_live.py:91-98 | that description leaves no freedom: two sequences meeting it are equal |
| Completion.CompletionResults | scripts/forge_trace.py:227-238 | the loop computes the scan over segments |
| Completion.CompletionsDistribute | scripts/forge_trace.py:229-237 | completions distribute over concatenation at result boundaries: a marker never leaks across a result |
| Completion.CompletionsAppend | scripts/forge_trace.py:231-237 | one more frame adds at most itself, and does so iff it is a result whose own segment holds the marker |
| Completion.CompletionsAreExact | scripts/forge_trace.py:227-238 | the scan returns exactly the frames at which a segment completes, described by position, once each and in order |
| Completion.AssistantTextSplit | scripts/forge_trace.py:229-236 | the text searched is, in order, every text block and content of assistant frames and every streamed delta, and nothing else |
| Completion.ContainsIff | scripts/forge_trace.py:234-234 | the marker is held iff the text is something, the marker, and something |
| Completion.SayingCompletes | scripts/forge_trace.py:229-236 | a result completes when it holds the marker, or any frame since the last result says it: streamed, in a text block or as content |
| Completion.SilentNeedsResult | scripts/forge_trace.py:234-235 | with no assistant text in its segment a result completes only by its own words |
| Completion.CompletionsGrow | scripts/forge_trace.py:227-238 | completions of a prefix are a prefix of the completions of any extension |
| Completion.SegmentHoldsNoResult | scripts/forge_trace.py:233-237 | the open segment holds no result frame |
| Completion.WantedExtends | scripts/forge_live.py:408-415 | a later horizon on a grown log wants everything an earlier one wanted, followed by more |
| Completion.PollFinds | scripts/forge_live.py:408-416 | a poll finds the completions among the payloads of exactly the streamable rows up to the head |
| Completion.PollingIsStable | scripts/forge_live.py:408-416 | polling with a growing head never loses a completion: the first poll's completions are a prefix of a later one's |
| Completion.ValidateRows | scripts/forge_trace.py:264-279 | no error iff every row has an integer number and an object payload, names the session and is no gap or conflict sentinel, and the rows make a well-formed log |
| Completion.ComplaintsAre | scripts/forge_trace.py:264-279 | each of the four complaints is made about exactly the rows that deserve it; numbers are compared with the last integer one |
| Completion.LastNumberIs | scripts/forge_trace.py:266-270 | the number compared with is that of the nearest earlier row that has one, in order or not |
| LivePersistence.Search | scripts/forge_corpus.py:140-147 | the search for one frame: first match from the cursor, else reconciled iff it is a snapshot type found behind the cursor, else missing |
| LivePersistence.CheckLive | scripts/forge_corpus.py:125-160 | the report of the whole capture; nothing is missing iff no relevant frame's fate is |
| LivePersistence.PassMeansPersisted | scripts/forge_corpus.py:133-160 | a pass means that every live frame that is none of the three connection seed kinds and not hidden is among the persisted ones |
| LivePersistence.CheckedAreCounted | scripts/forge_corpus.py:133-141 | checked is the number of exactly those live positions |
| LivePersistence.SeedsDoNotCount | scripts/forge_corpus.py:127-137 | a connection seed or hidden frame anywhere in the capture changes neither passed, checked nor reconciled |
| LivePersistence.NothingCheckedFails | scripts/forge_corpus.py:153-154 | a capture of nothing else does not pass |
| LivePersistence.FateMeans | scripts/forge_corpus.py:140-147 | matched iff persisted from the cursor on, at the first such place; reconciled iff only behind it and one of the three snapshot kinds |
| LivePersistence.ChecksAddUp | scripts/forge_corpus.py:140-156 | matched, reconciled and missing add up to checked, each counted by position |
| LivePersistence.MissingIff | scripts/forge_corpus.py:133-151 | a live index is reported missing iff its frame is relevant and that frame's own fate is missing |
| LivePersistence.PassIsWitnessed | scripts/forge_corpus.py:125-160 | soundness with snapshots: matched frames have strictly increasing witness positions, and each reconciled one occurs no later than an earlier match |
| LivePersistence.GreedyFindsEmbedding | scripts/forge_corpus.py:140-151 | greedy earliest match loses nothing: if the frames can be placed in order from the cursor on, none is missing |
| LivePersistence.ExactWithoutSnapshots | scripts/forge_corpus.py:125-160 | without snapshot types nothing is missing iff the relevant frames are an ordered subsequence of the persisted ones |
| LivePersistence.MiddleSnapshotDefeatsGreedy | scripts/forge_corpus.py:143-146 | a snapshot frame before a later non-snapshot one: a log is built on which every frame can be accounted for, and the greedy check reports one missing |
| LivePersistence.GreedyIsCompleteIff | scripts/forge_corpus.py:140-151 | for a capture, the check accepts every log that accounts for it iff its snapshots (the first frame aside) all come last |
| RouterConfig.ServingMembers | src/bifrost/config.py:1265-1268 | a provider is returned for a model iff it lists the resolved name |
| RouterConfig.ServingInOrder | src/bifrost/config.py:1265-1268 | in configuration order |
| RouterConfig.StrategyLookup | src/bifrost/config.py:1281-1293 | the requested name decides the strategy, then the name it is an alias of, then the default |
| RouterConfig.ServedModelIsListed | src/bifrost/router.py:169-171 | a model with a provider is among the models the validation goes through |
| RouterConfig.AcceptedModelsSharePath | src/bifrost/router.py:146-182 | after validation, the providers of any model that is its own canonical name are served on one path |
| RouterConfig.AcceptedIff | src/bifrost/router.py:146-182 | startup accepts iff no provider passes through without a protocol and, if one passes through at all, the cache is off and every listed model has one path |
| RouterConfig.NativeAre | src/bifrost/router.py:146-168 | a name has a native protocol iff a provider of that name passes through, and it is that provider's adapter's |
| Router.OrderIsPermutation | src/bifrost/router.py:317-372 | every strategy but direct returns a duplicate-free permutation of the providers; direct returns the first |
| Router.CostOptimisedOrder | src/bifrost/router.py:339-347 | cheaper providers first, configuration order between equal costs |
| Router.LatencyOptimisedOrder | src/bifrost/router.py:356-372 | faster measured providers first, unmeasured ones last, configuration order between equals and among the unmeasured |
| Router.FailoverFollowsConfiguration | src/bifrost/router.py:323-324 | failover: of any two candidates the one configured first comes first |
| Router.DirectTakesFirst | src/bifrost/router.py:320-321 | direct: the only candidate is the provider configured first of those that list the model |
| Router.RoundRobinGoesAround | src/bifrost/router.py:349-354 | round robin: candidate k stands k places after the counter, around the list |
| Router.AroundIsSuccessor | src/bifrost/router.py:353-354 | so after each candidate comes the provider configured next, the first after the last |
| Router.CheapestFirst | src/bifrost/router.py:339-347 | cost: on the built candidates, none is dearer than one behind it, equally dear ones in configuration order |
| Router.FastestFirst | src/bifrost/router.py:356-372 | latency: measured before unmeasured, faster before slower, otherwise configuration order |
| Router.EveryProviderIsTried | src/bifrost/router.py:310-316 | no candidate only when no provider lists the model; otherwise, direct aside, a provider is a candidate iff it does |
| Router.BuildMembers | src/bifrost/router.py:308-337 | a candidate carries the model resolved once, and its provider lists that model resolved once more |
| Router.CandidatesServeIff | src/bifrost/router.py:308-309 | what the double resolution does: candidates serve their model under every provider list iff resolving the requested name twice equals resolving it once |
| Router.CandidatesSharePath | src/bifrost/router.py:146-182 | candidates of an accepted configuration share one protocol when two resolution steps reach a canonical name |
| Router.HiddenPairMixed | src/bifrost/router.py:169-181 | otherwise an accepted configuration is built whose candidates answer in two protocols |
| Router.CandidatesOnOnePathIff | src/bifrost/router.py:392-395 | accepted configurations always give one-protocol candidates iff two steps reach a canonical name, or the cache is on, or the strategy is direct |
| Router.StartRouter | src/bifrost/router.py:244-267 | startup raises iff an explicit selection target is not configured or the passthrough validation refuses; otherwise the router starts valid |
| Router.ModelRouter.RoundRobinCandidates | src/bifrost/router.py:349-354 | the list rotated to the counter; the counter of that model, and no other, moves on by one around the list |
| Router.ModelRouter.BuildCandidates | src/bifrost/router.py:300-337 | candidates and counters afterwards are those of the specification function, by strategy; no provider is an error |
| Router.ModelRouter.Route | src/bifrost/router.py:374-427 | routed request, candidates and counters afterwards, the refusals included; a routed request keeps its candidates; `Valid()` (counters in range) is kept |
| Router.RefusedIsNotRouted | src/bifrost/router.py:645-686 | a rejecting rule, a failed or unconfigured pick: nothing is routed and no counter moves |
| Router.TargetIsTheCandidate | src/bifrost/router.py:392-396 | a picked target is the only candidate, under its own model |
| Router.StrategyOrders | src/bifrost/router.py:392-396 | without a target the candidates are those built for the name the rules gave |
| Router.StrategyTakesTurn | src/bifrost/router.py:349-354 | and a round-robin turn is taken for that name |
| Router.AdapterChooses | src/bifrost/router.py:606-616 | an adapter without targets must pick a provider of the model, under the resolved name |
| Router.PreparedIsKept | src/bifrost/router.py:645-655 | a prepared request consults neither rules nor targets again |
| Router.EmptyProviderIsNone | src/bifrost/router.py:392-396 | an empty provider name counts as none |
| Router.ContextIsHonoured | src/bifrost/router.py:412-427 | context management reaches only candidates whose adapter takes it |
| Router.ContextIsAllItChanges | src/bifrost/router.py:412-427 | and is refused for no other reason |
| RouterHistory.RoutedRequestsAreGood | src/bifrost/router.py:374-410 | when the requested name, and any name a rule or the selection substitutes, resolves in one step, a request the router returns, under any strategy, has candidates that serve their model and share the first one's protocol |
| RouterHistory.RequestsStayGood | src/bifrost/router.py:645-686 | the same for whole histories: from a fresh request on, through any sequence of preparing and routing, at any counters and latencies |
| RouterHistory.RoutedOnce | src/bifrost/router.py:389-391 | over any later preparing and routing, a routed request keeps the candidates it was first given |
| RouterHistory.RoutingIsGoodIff | src/bifrost/config.py:1242-1268 | one-step names are exactly what it takes, name by name: a name routes well under every accepted provider list iff resolving it twice equals resolving it once |
| RouterHistory.OneTurn | src/bifrost/router.py:349-354 | a round-robin call is led by the provider its counter points at and moves only that counter, also when it is then refused for context management |
| RouterHistory.RerouteIsIdentity | src/bifrost/router.py:389-391 | routing a routed request again, at any later time, returns the same candidates and moves no counter |
| RouterHistory.LeadersGoRound | src/bifrost/router.py:349-354 | over any calls, interleaved with other models, re-routings and refusals, the i-th round-robin leader of a model stands i places after its counter |
| RouterHistory.EachProviderLeadsOnce | src/bifrost/router.py:349-354 | fairness: of any n consecutive round-robin candidate lists of a model with n providers, each provider leads exactly one |
| RouterHistory.EstimateWithinObservations | src/bifrost/router.py:291-298 | for 0 < alpha <= 1 an estimate exists iff the provider was observed, and lies in every range its observations lie in |
| RouterHistory.SteadyObservations | src/bifrost/router.py:291-298 | the weights: k equal observations leave (1 - alpha)^k of the distance, and no other estimate changes |
| RouterHistory.FirstObservation | src/bifrost/router.py:294-297 | a first observation is the estimate |
| RouterHistory.AlwaysFasterLeads | src/bifrost/router.py:356-372 | a provider always observed faster than another (or than an unmeasured one) is tried before it |
| Failover.CompleteWithFailover | src/bifrost/router.py:527-560 | the calls made, the outcome with its attempt number, and the one latency recorded |
| Failover.FailoverRefinesFirst | src/bifrost/router.py:527-560 | the loop refines "ask the first candidate that does not fail retryably and report what it says"; all-failed iff every one fails retryably |
| Failover.OutcomeMeans | src/bifrost/router.py:537-560 | field by field: everything passed over was a provider error or one of 429, 500, 502, 503, 504; anything else settles the request |
| Failover.StreamWithFailover | src/bifrost/router.py:562-602 | exact output law: the partial outputs of the failed providers, in order, then the settling one's |
| Failover.SingleStreamIff | src/bifrost/router.py:447-448 | the output is one provider's stream alone iff no provider that failed before it had yielded a chunk |
| Failover.MidStreamFailureMixes | src/bifrost/router.py:573-598 | a retryable error after the first chunk leaves that chunk in front of the next provider's answer |
| DeliveryProof.Checks.Require | scripts/verify_delivery_proof.py:71-72 | an error is appended iff the condition fails, and none is ever removed |
| DeliveryProof.Checks.RequireCryptographic | scripts/verify_delivery_proof.py:81-86 | the same for signature checks, which are counted |
| DeliveryProof.Checks.Model | scripts/verify_delivery_proof.py:74-79 | a field that does not parse is an error |
| DeliveryProof.CurrentChildren | scripts/verify_delivery_proof.py:316-328 | the loop keeps, per child key, what the specification keeps |
| DeliveryProof.ListedIff | scripts/verify_delivery_proof.py:316-328 | a key is kept iff some entry of the generation carries it with an integer attempt |
| DeliveryProof.LatestIsLatest | scripts/verify_delivery_proof.py:325-327 | the entry kept is the latest attempt: none is later and no earlier entry ties with it |
| DeliveryProof.VerifyChildren | scripts/verify_delivery_proof.py:422-601 | all children: no early `continue` lets one pass, and with a trust file a clean non-empty list has a signature checked |
| DeliveryReport.VerifyDocuments | scripts/verify_delivery_proof.py:331-1003 | main result: success iff the documents meet one explicit condition, whatever early `continue` was taken; independent iff additionally a trust file was given (so never without a checked signature) |
| DeliveryRules.AcceptedIff | scripts/verify_delivery_proof.py:331-1003 | main result: a delivery is accepted iff its documents, field by field and index by index, meet every rule of execution, evidence, children, receipts, integration, review, merge and waits |
| DeliveryRules.AcceptedChildPassed | scripts/verify_delivery_proof.py:422-512 | soundness on fields: every latest child is completed, accepted without blockers, and every one of its verifications parsed and exited with 0 |
| DeliveryRules.AcceptedChildReviewed | scripts/verify_delivery_proof.py:513-579 | every review passed, without open blocking finding, by someone other than the allocated worker; code, security and adversarial are among them |
| DeliveryRules.AcceptedIsCompleted | scripts/verify_delivery_proof.py:355-404 | the execution is completed with a sealed ready join, its evidence accepted, its integration reviewed by someone else, its merge merged |
| DeliveryRules.FailedVerificationRefuses | scripts/verify_delivery_proof.py:481-481 | one verification of a latest child that did not exit with 0 refuses any documents |
| DeliveryRules.FailedReviewRefuses | scripts/verify_delivery_proof.py:525-579 | so does one failed, self-made or open review |
| DeliveryReport.DistinctIff | scripts/verify_delivery_proof.py:693-696 | comparing a list's length with its set's size is a duplicate check |
| DeliveryReport.AcceptedMeansBijection | scripts/verify_delivery_proof.py:653-700 | soundness: acceptance makes integration a bijection between the latest current-generation attempts and the receipts |
| DeliveryReport.AcceptedListsAgree | scripts/verify_delivery_proof.py:409-420 | acceptance means both documents settle on the same attempt of the same children |
| DeliveryReport.AcceptedMergeIsInspected | scripts/verify_delivery_proof.py:702-784 | acceptance means the inspected candidate names exactly the integrated children and receipts, and is what was reviewed and merged |
| DeliveryReport.AcceptedReceiptsAreSigned | scripts/verify_delivery_proof.py:278-313 | every receipt an acceptance rests on (verifications, reviews, integration receipts, integration review, merge, wait receipts) carries provenance, verified over its own content given a trust file, and names this execution; reviews are pinned |
| DeliveryReport.CandidateVouched | scripts/verify_delivery_proof.py:480-579 | a child's receipts are signed over exactly this attempt, commit and tree, so no signature can be taken from elsewhere |
| DeliveryReport.DigestPinsEvidence | scripts/verify_delivery_proof.py:580-600 | if digests do not collide, two child entries that pass with the same accepted digest have the same attempt, commit, tree, requirements and receipts |
| DeliverySample.SampleIsAccepted | scripts/verify_delivery_proof.py:331-983 | acceptance is not vacuous: a complete delivery of seven receipts, each with its own signature, is accepted without a trust file and with every one that verifies them, an open blocking finding of the integration review or not |
| DeliverySample.UnsatisfiedWaitIsAccepted | scripts/verify_delivery_proof.py:798-918 | and stays accepted with a current `forge.merge` wait whose observation is not satisfied and carries no receipt |
| DeliveryReport.WaitVouchesIff | scripts/verify_delivery_proof.py:835-918 | a forge wait that passes vouches for anything iff it carries the receipt of its kind, and then it was satisfied |
| DeliveryReport.SilentWaitStaysAccepted | scripts/verify_delivery_proof.py:798-918 | adding a notified wait on the inspected candidate that carries no receipt, satisfied or not, keeps any accepted delivery accepted |
| DeliveryReport.FindingsDecideChildrenOnly | scripts/verify_delivery_proof.py:574-579 | an open blocking finding refuses a child's review, and no integration review |
| DeliverySample.StrictTrustSuffices | scripts/verify_delivery_proof.py:278-290 | a trust file that verifies these seven signatures over these seven receipts and nothing else suffices |
| DeliveryReport.RunVerifier | scripts/verify_delivery_proof.py:1080-1126 | exit code 0 iff everything could be read and is accepted; `verified` iff that with a trust file, and then always independent |
| SummaryDocument.Worktree.AppendToDoc | scripts/guild_daily_summary.py:515-545 | origin, HEAD and working text after a run that ends at any step, a push the remote took although git reports failure included, and what the run says about itself |
| SummaryDocument.CleanRunAppends | scripts/guild_daily_summary.py:529-545 | one run that fails only at a guard, at commit or at push keeps landed <= committed <= working, and adds its section iff it wrote it |
| SummaryDocument.WrittenRunAppends | scripts/guild_daily_summary.py:533-545 | in strings: a run that writes leaves the old text, a newline and its own text, and pushes exactly that |
| SummaryDocument.LocalHoldsEverySection | scripts/guild_daily_summary.py:510-545 | over any such runs the landed text is a prefix of the local one, which is the initial document and every section written, once each and in order |
| SummaryDocument.PushLandsEverySection | scripts/guild_daily_summary.py:515-545 | after a successful push the landed document is the initial one followed by every section written so far |
| SummaryDocument.NothingLostIff | scripts/guild_daily_summary.py:529-534 | in every reachable state, which runs lose local text: exactly those that end between the hard reset and the end of the write while something was not safe elsewhere |
| SummaryDocument.AnyRunsMatch | scripts/guild_daily_summary.py:515-545 | over runs that end anywhere, torn writes included, origin, HEAD and working file are what a ledger of landed, pending and committed text says |
| SummaryDocument.LandsEverythingIff | scripts/guild_daily_summary.py:515-545 | after a push, over runs that end anywhere, every section ever written has landed, once each and in order, iff no run lost text |
| SummaryDocument.EveryTextLands | scripts/guild_daily_summary.py:515-545 | in strings: when no run lost text, the landed document splits at increasing positions into the initial one and, for each run that wrote, a newline and that run's own text |
| SummaryDocument.CleanRunsLoseNothing | scripts/guild_daily_summary.py:515-545 | runs that fail only at a guard, at commit or at push lose none |
| SummaryDocument.LossMeans | scripts/guild_daily_summary.py:529-534 | a run loses text iff it ends after a reset with text in no commit, after the checkout with text not landed, or inside the write |
| SummaryDocument.CarryPromiseIff | scripts/guild_daily_summary.py:599-609 | in every reachable state: of the runs reported as "the next run carries this section", the section is carried, uncommitted text before it, iff what failed was the commit |
| SummaryDocument.ForeignWriterIff | scripts/guild_daily_summary.py:510-512 | when someone else changed the landed document, carried sections survive iff it still begins the local copy |
| SummaryWindows.DailyJob.Deliver | scripts/guild_daily_summary.py:429-455 | one run: what is counted, and the saved state, which changes only when the message was sent |
| SummaryWindows.DeliveredChain | scripts/guild_daily_summary.py:231-235 | over any runs and any changes of the log, each delivered range starts where the last one ended, or at 0 when the log is shorter than that, and time windows tile |
| SummaryWindows.DeliveredPlusLost | scripts/guild_daily_summary.py:437-453 | over any runs and log rotations, delivered counts plus what rotations hid (the old logs' rest, and the new log up to the old offset) equal the errors written |
| SummaryWindows.WrittenIsAllOfIt | scripts/guild_daily_summary.py:231-235 | what counts as written: the rest of the first log, every log in between, and the present one |
| SummaryWindows.DeliveredTileIff | scripts/guild_daily_summary.py:231-235 | over any runs, rotations, failed sizes, counts and sends: delivered byte ranges and their time windows tile from the primed offset on iff no delivered count finds the log shorter than the offset |
| SummaryWindows.GrowingLogTiles | scripts/guild_daily_summary.py:231-235 | and a log that only grows is never found so |
| SummaryWindows.DeliveredErrors | scripts/guild_daily_summary.py:437-453 | on a log that only grows no error is counted twice or missed: delivered counts add up to the errors in exactly the covered bytes |
| SummaryWindows.ErrorsAreCounted | scripts/guild_daily_summary.py:445-447 | a count is the number of bytes in its range that end an error line |
| SummaryWindows.FirstSightPrimes | scripts/guild_daily_summary.py:440-447 | a log seen for the first time reports nothing; the next count that gets through covers exactly what was written from then on |
| SummaryWindows.NewBytesAre | scripts/guild_daily_summary.py:231-235 | from the offset on if the log reaches it, else from its start |
| SummaryWindows.WindowsTile | scripts/guild_daily_summary.py:582-591 | each delivered window starts where the one before it ended, and the first one reaches the configured time back |
| SummaryWindows.EveryCounterIsReported | scripts/guild_daily_summary.py:78-88 | each of the eleven counters is reported, less what was read before unless the gateway restarted |
| SummaryWindows.MovesTelescope | scripts/guild_daily_summary.py:78-88 | reported moves add up to the last value read, plus what each life ended by a seen restart was last read at, minus the first |
| SummaryWindows.MovesBetweenRestarts | scripts/guild_daily_summary.py:78-88 | between restarts they are last minus first |
| SummaryWindows.ReportedIsGrowthLessMissed | scripts/guild_daily_summary.py:491-501 | for any history of gateway lives: reported moves are the gateway's own growth, less what each ended life counted after its last reading (restart seen) or ever (restart not seen) |
| SummaryWindows.ReportedIsTrueIff | scripts/guild_daily_summary.py:491-501 | with counters that only grow, never more is reported than happened, and all of it iff each life that ended had counted nothing after its last reading (seen) or nothing at all (not seen) |
| SummaryWindows.SeenRestartLosesTail | scripts/guild_daily_summary.py:86-87 | 10 read, 17 reached before a restart that is seen, 5 after it: 12 alerts were sent, 5 are reported |
| SummaryWindows.UnreadRestartMisreports | scripts/guild_daily_summary.py:494-501 | the same restart in a window whose status was unreadable: 12 alerts are reported as minus 5 |
| ReleaseCutover.Compare | scripts/forge_api_release.py:302-319 | no error iff the preservation condition holds |
| ReleaseCutover.PreservedBeforeIff | scripts/forge_api_release.py:318-319 | before the cutover the condition is equality of the two snapshots |
| ReleaseCutover.PreservedAfterIff | scripts/forge_api_release.py:308-317 | after it: equality but for a new API process and the owned override among the unit files |
| ReleaseCutover.WaitReady | scripts/forge_api_release.py:391-398 | the poll ends at the first healthy answer, the first other exception, or the first failure past the deadline; it succeeds iff a healthy answer comes in time |
| ReleaseCutover.LocalRelease.Switch | scripts/forge_api_release.py:422-428 | install, restart, poll, snapshot of the resulting host, compare: the host and how far it got |
| ReleaseCutover.LocalRelease.Apply | scripts/forge_api_release.py:409-439 | host, record and exception of a whole attempt |
| ReleaseCutover.FailedGuardTouchesNothing | scripts/forge_api_release.py:409-420 | the host changes iff the manifest, both window checks, all four timings, override ownership, health, both audits and equality with the prepared snapshot all held and one of the two files could be written; otherwise the run raises with an empty record |
| ReleaseCutover.TouchedInTime | scripts/forge_api_release.py:322-334 | spelled out: what is touched is touched at start <= t < end with 2 * (command + ready) left, at both checks |
| ReleaseCutover.ClosedWindowRaises | scripts/forge_api_release.py:322-334 | outside these bounds, at either check, the run raises and records nothing |
| ReleaseCutover.RecordedHealthIff | scripts/forge_api_release.py:424-435 | a health entry is recorded iff that release was installed and restarted and answered well in time |
| ReleaseCutover.SwitchLeaves | scripts/forge_api_release.py:370-389 | what a switch leaves in file, systemd and process, by the step at which it failed |
| ReleaseCutover.KeptMeansTookOver | scripts/forge_api_release.py:422-428 | a switch that ends well is a full takeover: the release is in the file, loaded and running, polling became healthy in time, and the snapshot shows only its own override changed |
| ReleaseCutover.KeptIff | scripts/forge_api_release.py:302-319 | and it ends well iff every step did and the snapshot shows a new process, the override, and nothing else new |
| ReleaseCutover.ReleasesDiffer | scripts/forge_api_release.py:370-386 | the two releases are told apart by the file they leave |
| ReleaseCutover.PassedMeansPreserved | scripts/forge_api_release.py:422-428 | a run that does not raise passed, and the candidate fully took over from the prepared state |
| ReleaseCutover.FailureRollsBackOrSaysSo | scripts/forge_api_release.py:429-439 | after the first install every failure ends with a recorded rollback error, or with the rollback fully in charge and the prepared state preserved |
| ReleaseCutover.NoSilentCandidate | scripts/forge_api_release.py:429-439 | the candidate is never left selected, loaded or running without a pass or a recorded rollback error |
| ReleaseCutover.PassedYetRaisedIff | scripts/forge_api_release.py:428-439 | a recorded pass stands beside a failure iff something raised after it was recorded, and then the host is on the rollback or a rollback error is recorded |
| TenantPaths.DottedPrefixOfChild | src/identity/service.py:65-72 | the dotted prefixes of a child's path are its parent's and the parent itself, for dot-free ids |
| TenantPaths.PrefixMatches | src/volundr/adapters/outbound/postgres_tenants.py:68-77 | the repository's LIKE pattern finds every string prefix that holds no escape character |
| TenantPaths.PlainMatchesIff | src/volundr/adapters/outbound/postgres_tenants.py:68-77 | without wildcards it finds string prefixes and nothing else |
| TenantPaths.UnderscoreMatchesIff | src/volundr/adapters/outbound/postgres_tenants.py:68-77 | without percent signs and backslashes it finds prefixes in which an underscore stands for any character, and nothing else |
| TenantPaths.LikePercent | src/volundr/adapters/outbound/postgres_tenants.py:68-77 | a percent sign stands for any stretch of text |
| TenantPaths.LikeEscaped | src/volundr/adapters/outbound/postgres_tenants.py:68-77 | an escaped character stands for itself |
| TenantPaths.EscapeMisses | src/volundr/adapters/outbound/postgres_tenants.py:68-77 | a backslash not followed by another is an escape: the pattern misses every path that starts with this one, its own included |
| TenantQuota.TenantService.CreateTenant | src/identity/service.py:50-85 | result and table, with the missing parent, taken path and taken id errors; the hierarchy is kept |
| TenantQuota.TenantService.DeleteTenant | src/niuu/service_databases.py:73-83 | a tenant with children is refused by the foreign key; the hierarchy is kept |
| TenantQuota.TenantService.UpdateTenantSettings | src/identity/service.py:277-302 | exactly the given settings change; the hierarchy is kept |
| TenantQuota.TenantService.SyncFromPrincipal | src/identity/service.py:174-209 | the claimed (or default) tenant, created with its defaults when missing |
| TenantQuota.CreationMeans | src/identity/service.py:50-85 | created iff the parent is there and path and id are free; which error otherwise, and that nothing else changes |
| TenantQuota.DeletionMeans | src/niuu/service_databases.py:73-83 | exactly the tenant itself goes, unless somebody names it as parent |
| TenantQuota.UpdateMeans | src/identity/service.py:277-302 | each given setting is the new one, every other field and tenant is as before |
| TenantQuota.ClaimMeans | src/identity/service.py:174-209 | no claim: `default` with 100 sessions and 500 GB; a claim: a root of that id and name with 5 and 50 |
| TenantQuota.TenantService.CheckQuota | src/identity/service.py:106-144 | allowed iff no row is at its limit; a denial names the first that is, with its count |
| TenantQuota.CreationKeepsHierarchy | src/identity/service.py:64-85 | each path stays its parent's path plus its own id, and paths stay unique |
| TenantQuota.PathAncestorsAreChain | src/identity/service.py:64-72 | with dot-free ids, the tenants whose path is a dotted prefix are the parent chain and nobody else |
| TenantQuota.DottedIdBreaksChain | src/identity/service.py:61-70 | any dotted id breaks it: a valid hierarchy where a dotted prefix is no ancestor |
| TenantQuota.RowsAreChainIff | src/volundr/adapters/outbound/postgres_tenants.py:68-77 | for any ids, with no backslash up the chain: the ancestor query returns exactly the parent chain iff its pattern matches nobody outside it |
| TenantQuota.ChainIsPrefixes | src/identity/service.py:64-72 | for any ids: every ancestor's path is a dotted prefix of the tenant's |
| TenantQuota.RowsHoldChain | src/volundr/adapters/outbound/postgres_tenants.py:68-77 | for any ids: an ancestor whose own path holds no backslash is always among the rows, so no such ancestor goes unchecked |
| TenantQuota.WildcardRowsAreChainIff | src/volundr/adapters/outbound/postgres_tenants.py:68-77 | for any ids, without percent signs and backslashes: exactly the chain iff no tenant outside it has a path that is a prefix, underscores standing for any character |
| TenantQuota.UnderscoreDeniesStranger | src/volundr/adapters/outbound/postgres_tenants.py:68-77 | one session in a full `a_b` denies every start in the unrelated `axb`, where nothing runs |
| TenantQuota.BackslashBypassesQuota | src/volundr/adapters/outbound/postgres_tenants.py:68-77 | a tenant whose path holds a lone backslash is missed by its own pattern: every start in it is admitted, at any count |
| TenantQuota.AdmittedStartKeepsBounds | src/identity/service.py:114-126 | for any paths and counting rule: an admitted start leaves every counted tenant its pattern finds within its limit, adds one to a counted tenant it misses, and changes no other count |
| TenantQuota.StopFreesOne | src/identity/service.py:106-144 | a stop takes exactly that session out of every count |
| TenantQuota.DenialNamesFirstFull | src/identity/service.py:114-126 | a denial names a row at its limit; every row before it, and every matching tenant with a shorter path, still has room |
| TenantQuota.DenialNamesRootmostFull | src/identity/service.py:115-126 | with plain paths the denial names the root-most ancestor at its limit: any other full one lies strictly deeper |
| TenantQuota.RunsStayWithinQuota | src/identity/service.py:106-144 | over runs of creations, deletions, updates, starts and stops with backslash-free paths and limits not set below what runs, every subtree stays within its limit |
| TenantQuota.RunsStayUnderCeiling | src/identity/service.py:106-144 | over any runs, ids, limits and counting rule: a tenant never counts more than its limit, what ran when that limit was set, and the starts its pattern missed since |
| TenantQuota.ClaimConflictIff | src/identity/service.py:174-194 | creating the claimed tenant fails iff its id is taken as a path, and never for a dot-free claim |
| ProcessTree.TreeMembers | scripts/forge_lane_busy.py:83-87 | the recursion lists a pid iff it is one of the children it starts from or lies below one |
| ProcessTree.TreeDistinct | scripts/forge_lane_busy.py:83-87 | it lists no process twice |
| ProcessTree.CycleRunsThroughTop | scripts/forge_lane_busy.py:83-87 | parents are single-valued, so a cycle anywhere below a process runs through that process |
| ProcessTree.CycleHasEveryDepth | scripts/forge_lane_busy.py:83-87 | when a process does lie below itself the recursion has no bottom |
| LaneBusy.KidsTable | scripts/forge_lane_busy.py:79-81 | the children table holds each process's children in table order |
| LaneBusy.LaneReasons | scripts/forge_lane_busy.py:71-103 | pids are exactly the strict descendants of the pane; reasons are the activity unless idle, and one each for every train and every topmost tool shell |
| LaneBusy.ReasonsAre | scripts/forge_lane_busy.py:95-102 | process by process: which command gives a train reason, and which tool shell, under which parent, a tool reason |
| LaneBusy.NestedShellIsReported | scripts/forge_lane_busy.py:98-102 | a nested tool shell always has a reported one at or above it |
| LaneBusy.RestartableIff | scripts/forge_lane_busy.py:71-103 | no reason iff the lane is idle and no tool shell and no train runs below its pane |
| LaneBusy.RunsNothingIff | scripts/forge_lane_busy.py:95-102 | that is, no command of a process below the pane matches either pattern |
| LaneBusy.JudgeHost | scripts/forge_lane_busy.py:115-139 | a lane is listed iff it is busy; a pid is listed as a host train iff it is a train outside every lane; the exit code says whether any lane is busy |
| LaneBusy.HostTrainsIff | scripts/forge_lane_busy.py:106-112 | a pid is listed iff it is that of a train, not this script, outside the lane pids |
| Metrics.CounterIsTotal | src/bifrost/metrics.py:45-48 | over any history a label tuple is shown iff incremented, with the total of its increments |
| Metrics.FillBuckets | src/bifrost/metrics.py:80-84 | each bucket whose bound is at or above the value grows by one, and +Inf always |
| Metrics.Histogram.Observe | src/bifrost/metrics.py:73-86 | buckets, sum and count after an observation, starting at zero |
| Metrics.HistogramIsFaithful | src/bifrost/metrics.py:73-86 | over any history each bucket is the number of observations at or below its bound, with their sum and count |
| Metrics.BucketsAreCounted | src/bifrost/metrics.py:80-84 | bucket by bucket: the number of observed values at or below the bound, equality included, and of all of them in the last |
| Metrics.BucketsAreCumulative | src/bifrost/metrics.py:73-86 | with ascending bounds buckets never decrease, and +Inf equals the count |
| MetricsText.EscapeIsOnePass | src/bifrost/metrics.py:124-125 | the three replacements, in their order, equal a one-pass escape |
| MetricsText.EscapesAre | src/bifrost/metrics.py:124-125 | backslash, quote and newline are escaped, and no other character |
| MetricsText.ReadBack | src/bifrost/metrics.py:117-125 | a scraper reads the value back exactly, and stops exactly at the quote that ends it |
| MetricsText.PairsInjective | src/bifrost/metrics.py:117-121 | the printed pairs determine the values, whatever text follows |
| MetricsText.LabelsPrintApart | src/bifrost/metrics.py:117-121 | label tuples of one metric print alike iff they are equal |
| MetricsText.BucketLabelsAreLabels | src/bifrost/metrics.py:137-153 | a bucket's label string, made by cutting the brace, is that of the metric with `le` as one more label |
| MetricsPage.SampleBack | src/bifrost/metrics.py:135-155 | a sample line (name, labels, value) is read back exactly, and reading stops at its end |
| MetricsPage.WriteCounter | src/bifrost/metrics.py:128-135 | the text is header, one line per label tuple and a blank line; it raises iff a tuple has the wrong length |
| MetricsPage.WriteHistogram | src/bifrost/metrics.py:128-155 | the same with every bucket, `+Inf` last, then sum and count |
| MetricsPage.GenerateText | src/bifrost/metrics.py:109-114 | the page is every metric in registration order; it raises iff some metric does |
| MetricsPage.PageReadsBack | src/bifrost/metrics.py:109-155 | round trip: a scraper reads from the page every counter, bucket, sum and count line, exactly and in order |
| MetricsPage.BucketLineIsCount | src/bifrost/metrics.py:73-145 | end to end: after any history the scraped i-th bucket line shows how many observations lie at or below bound i |
| MetricsPage.SumAndCountShown | src/bifrost/metrics.py:85-155 | after any history the sum line shows the sum of the values, and the count and `+Inf` lines their number |
| MetricsPage.LastLines | src/bifrost/metrics.py:146-154 | behind the bounds: `+Inf`, sum and count, in this order and under these names |
| MetricsPage.MetricFrame | src/bifrost/metrics.py:129-137 | name and help first, then the kind, the samples, and a blank line |
| MetricsPage.HeaderText | src/bifrost/metrics.py:129-137 | the two comment lines, character by character |
| MetricsPage.SampleText | src/bifrost/metrics.py:117-135 | a sample line without labels and with one, character by character |
| Supervisor.Devrunner.StopService | containers/devrunner/devrunner.py:279-297 | the service table and the stop; an unknown name changes nothing |
| Supervisor.Devrunner.Reconcile | containers/devrunner/devrunner.py:299-340 | the table afterwards, and that exactly the missing and outdated were launched and exactly the removed and outdated stopped, once each |
| Supervisor.Devrunner.MonitorOne | containers/devrunner/devrunner.py:351-390 | one service: restarted iff it exited, may be restarted and is below its limit; the table and what was stopped and launched |
| Supervisor.Devrunner.MonitorPass | containers/devrunner/devrunner.py:345-390 | one pass restarts exactly the services that are due, once each |
| Supervisor.ReconcileSettles | containers/devrunner/devrunner.py:299-340 | one reconcile leaves exactly the configured names with their command and port; repeating it starts and stops nothing |
| Supervisor.SpecIsPickedUpIff | containers/devrunner/devrunner.py:325-340 | after any run, a new configuration is in force after a reconcile iff it was already or its command or port differ: no other change ever takes effect |
| Supervisor.RestartsStayWithinLimits | containers/devrunner/devrunner.py:373-390 | in every reachable state restart_count <= max_restarts |
| Supervisor.PassRestartsIff | containers/devrunner/devrunner.py:351-390 | a pass restarts a service iff it has exited, its policy is not `never` and its limit is not reached |
| Supervisor.CrashLoopLaunches | containers/devrunner/devrunner.py:351-390 | a service that exits k times is restarted exactly min(k, what is left of its limit) times, and never under `never` |
| Supervisor.CountIsLaunches | containers/devrunner/devrunner.py:386-390 | the count survives each stop and start: it is the number of monitor launches of this incarnation |
| Supervisor.LaunchesAreBounded | containers/devrunner/devrunner.py:373-390 | per configured incarnation the monitor launches at most max_restarts more processes |
| Supervisor.ExitCodesAreIgnored | containers/devrunner/devrunner.py:345-390 | two runs that differ only in exit codes restart the same services equally often: an exit code of 0 is restarted like any other |
| ImportClosure.ClosedHoldsRoute | scripts/generate_envoy_authz_protos.py:121-156 | a set that holds the seeds and the imports of its members holds everything reachable |
| ImportClosure.Walk | scripts/generate_envoy_authz_protos.py:128-154 | the loop ends on every finite, possibly cyclic graph and keeps: queue and visited reachable, imports of visited files visited or queued, each file fetched once |
| ImportClosure.SortedTargets | scripts/generate_envoy_authz_protos.py:156-156 | sorting keeps the targets, duplicate-free and in order |
| ImportClosure.CollectProtoSources | scripts/generate_envoy_authz_protos.py:121-156 | either a reachable file that cannot be fetched is named, or every reachable file was fetched once and the reachable targets come back sorted |
| ImportClosure.SourcesAre | scripts/generate_envoy_authz_protos.py:95-110 | which repository and path each known prefix is fetched from |
| ImportClosure.NoOtherSource | scripts/generate_envoy_authz_protos.py:111-111 | anything else has no source |
| ImportClosure.WhatStops | scripts/generate_envoy_authz_protos.py:103-154 | the walk stops at a path without a source or a file it cannot read, and expands every file it reads |
| ImportClosure.TargetIff | scripts/generate_envoy_authz_protos.py:147-156 | of the paths with a source, those of the Google packages are not compiled and all others are |
| Sorting.StableSortIsStable | src/bifrost/router.py:346-371 | the sort keeps the order of elements that compare equal |
| Sorting.StableSortPrecedes | src/bifrost/router.py:346-371 | a strictly smaller element comes first |
| Sorting.StringLeMeans | scripts/generate_envoy_authz_protos.py:156-156 | strings are ordered by the first character in which they differ, a prefix first |

## Left out

Outside the models:

- HTTP, WebSocket, systemd, /proc, tmux, ps, git and file-system calls: each is an input that says how the step ended.
- Regular expressions, JSON and typed parsing, SHA-256 and RSA: opaque predicates, `None` for what does not parse.
- Floating-point rounding (latencies, costs, sums are reals) and wall-clock time (integers that only increase).
- The rule engine, selection adapters, provider adapters and the read-path exclusion rule: their answers are inputs.
- Of `forge_trace.py`: `check_scenario`, `compare_streams`, tool and agent evidence other than the assistant text.
- Of `forge_live.py`: the WebSocket observer and the provider run around the polling loop.
- Of the daily summary: `environment_moves`, `window_trend`, `render`, the error classification and the journal-based counts.
- Of the release script: how snapshots and audits are taken; override ownership, health and the two audits are each one flag.
- Of `identity/service.py`: memberships, users and reprovisioning; a generated tenant id is an input.
- Of the metrics module: number formatting, an opaque string per number; and the order of label tuples, an input.
- Of devrunner: PostgreSQL, nginx and status files, a command that cannot be spawned, and interleaving of the watcher with the monitor (each reconcile and each pass is one step).
- Of the proto script: writing files, the virtual environment and protoc itself.
- Thread locks of the metrics registry; asyncio cancellation anywhere.

Stated with a hypothesis, or weaker than one might read them:

- LogDrain.DrainIsExact: sequence numbers are strictly increasing and positive and appended rows lie past the horizon, as the log assigns them; a malformed reply (not an array) is not modelled.
- RouterHistory.RoutedRequestsAreGood: the names at hand resolve in one step, which `RouterHistory.RoutingIsGoodIff` shows to be exactly what is needed.
- Router.ModelRouter.Route: the dropping of thinking controls is not modelled; it touches neither candidates nor counters.
- Failover.CompleteWithFailover: an adapter that cannot be built counts as an uncaught error; the adapter cache and key reload are not modelled.
- DeliveryReport.VerifyDocuments: the summaries copied into the report are not modelled; errors carry what was checked, not its text. The methods for single records have no rows of their own: each is clean iff its conjunct of the condition holds.
- DeliveryReport.DigestPinsEvidence: assumes that digests of typed payloads do not collide.
- SummaryDocument.Worktree.AppendToDoc: a write that raises leaves the same texts as a run killed during it and is modelled as that; the report it makes is not.
- SummaryDocument.LocalHoldsEverySection: covers runs that fail at a guard, at commit or at push; runs that end anywhere are `SummaryDocument.LandsEverythingIff`.
- SummaryWindows.DeliveredErrors: the log only grows; with rotations see `SummaryWindows.DeliveredPlusLost`.
- SummaryWindows.ReportedIsTrueIff: a restart between the reading of the status and that of the log, within one run, is not modelled.
- TenantQuota.RunsStayWithinQuota: check and start are one step, paths hold no backslash, and a new or lowered limit is not below what already runs; without the last two see `TenantQuota.RunsStayUnderCeiling`. Which sessions a path counts is a parameter.
- TenantQuota.DenialNamesFirstFull: with wildcards in paths, rows of equal length come in an order the query leaves open, so which of them is first is too; with plain paths see `TenantQuota.DenialNamesRootmostFull`.
- LaneBusy.LaneReasons: process ids are distinct and the pane is not its own descendant; with a cycle the source does not terminate (`ProcessTree.CycleHasEveryDepth`). Ages and the wording of reasons are not modelled.
- TenantQuota.RowsAreChainIff: with a backslash in an ancestor's path see `TenantPaths.EscapeMisses`.
- ReleaseCutover.PassedMeansPreserved: what the API process is seen as, and all inventories, are inputs of a snapshot; only the override file in it comes from the modelled host.
- Supervisor.RestartsStayWithinLimits: configured limits are not negative.
- Supervisor.Devrunner.StopService: stopping is assumed to succeed, also for a process that has already exited (`devrunner.py:287`, called on every monitor restart), where the event loop may raise instead.
- MetricsText.BucketLabelsAreLabels: the printed bound needs no escaping.
- MetricsPage.PageReadsBack: names hold no brace, blank or newline and do not start with `#`, label names hold no `=`, help text and printed numbers hold no newline. Help text is written unescaped; what its second line would be read as is not stated.
- ImportClosure.CollectProtoSources: a fetched file that is empty counts as one that cannot be fetched, as in the source.
