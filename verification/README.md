# PayLessForAI routing: a verified model

PayLessForAI is a local gateway that offers one model name to AI clients and sends each request to the cheapest
provider route a user-defined group allows. This project models the parts of it whose correctness spans several
functions, and proves what those parts promise:

- **From a group to a plan.** A group is a ladder of stages whose sources may be other groups. `Compiler` flattens it
  under inherited policies, `Matcher` filters and ranks routes with fixed-point prices, `Routing` turns the ranked
  stages into a bounded plan.
- **From a plan to one client.** `Proxy` runs the plan with retries, failover, quota blocking and format probing;
  `Delivery`, `Streams`, `StreamReading`, `Wire` and `Sse` carry a provider's answer to the client in the client's own
  wire format, down to the bytes of server-sent events.
- **Beside it.** `Sessions` and `SessionStore` correlate requests into sessions, `Updater` replaces the program without
  losing the database, `RemoteAccess` runs the remote-access node, `Catalog` refreshes the list of models and routes.

`Wrappers`, `Text` and `Ordering` hold what several modules share; the modules named `…Laws` hold lemmas about the
module they are named after. Everything outside the program (clocks, providers, file operations, power, the choice of
the next goroutine) is an arbitrary function or schedule given to the model, so each statement holds for all of them.
`dafny verify dfyconfig.toml` checks the whole project.

## What the code does not do

Some expected properties are false of the code. Each is kept as it is, shown by an example, and replaced by the exact
condition under which the property holds.

- **Narrowing a request can widen its ranking.** The overflow guard of the percentage cap compares the official price
  with the largest integer divided by the percentage, so a larger percentage can reject a route that a smaller one
  accepts (`MatcherLaws.WiderPercentageCanLoseARoute`); nothing else can (`MatcherLaws.NarrowerAcceptsExactly`), and the
  narrower ranking is part of the wider one exactly if that happens to no route the narrower request accepts
  (`MatcherLaws.NarrowerRankingIsSubsequence`).
- **Disjoint allow-lists stop restricting.** An empty intersection is read as "unrestricted" by the next level
  (`GroupsLaws.DisjointListsWiden`). Because an ordinary stage is composed twice, two nested groups are enough
  (`CompilerLaws.TwoLevelsWiden`). Lists narrow exactly when no running intersection is empty
  (`GroupsLaws.AllowListsNarrowExactly`).
- **A key that ran out of quota can be called again at once.** While the format of a route is unknown, a quota error
  with a status that looks like a format problem makes the next format call the same key, whatever reset time was
  named (`ProxyLaws.LimitedKeyIsCalledThreeTimes`). `ProxyLaws.QuotaKeyUsedAgainExactly` says exactly when; in every
  other case the key rests until its reset.
- **Reasoning does not survive the Responses format.** The encoder names its event `response.reasoning.delta`, which
  the decoder does not know; `StreamLaws.TranslationKeepsEvents` says which events each format carries.
- **Text that comes in the final snapshot only is lost on its way to a Chat or Anthropic stream.** A Responses provider
  that sends no deltas is read as complete, and its snapshot has no frame of its own in the other formats
  (`DeliveryLaws.SnapshotOnlyTextIsLost`). The text arrives exactly if that snapshot says nothing, or nothing but what the
  deltas said (`StreamLaws.TextArrivesExactly`, `DeliveryLaws.ClientGetsTextExactly`).
- **The status can name another mode than the one configured last.** A call that disables remote access, overtaken by
  one that enables it, begins its worker last and says "disabled" until that worker has published
  (`RemoteAccess.OvertakenDisable`). `RemoteAccess.Manager.SettledStatusIsDesired` gives the exact condition.
- **An interrupted update can lose the write-ahead log.** The snapshot copies the database file only. If transactions
  are still in the log when the update begins (a staged update resumed after a power failure), recovery restores the
  file and deletes the log (`Updater.PendingLogIsLost`). The contract of `Updater.Machine.Recover` says that the start
  of the update comes back if and only if its log was empty. An update that fails without interruption after its
  candidate has started loses such a log in the same way (`Updater.Machine.RollBack`).
- **An interrupted update can restore an older backup.** The staged phase is journaled before the request file is
  replaced, and a failed preflight leaves its request file behind. An update resumed from such a request and
  interrupted before its own snapshot is finished restores the older backup of the same name
  (`Updater.OlderBackupIsRestored`). What is promised is therefore stated for an update that begins `clean`.
- **An update interrupted before its backup exists cannot be recovered.** The database is whole, but every later start
  of the supervisor gives up (`Updater.NoBackupNoStart`).

## Model

| member | source | states |
|---|---|---|
| Matcher.EstimateParts | internal/matcher/matcher.go:427-448 | succeeds exactly when the list is even, all values are non-negative and the true sum of products fits 64 bits, and then returns that sum; no step overflows |
| Matcher.DivisionGuard | internal/matcher/matcher.go:438-440 | the overflow test by division is the test that the product exceeds the bound |
| Matcher.CostPartsAddUp | internal/matcher/matcher.go:398-400 | the parts of an estimate add up to the request's true cost |
| Matcher.Match | internal/matcher/matcher.go:166-230 | the loop computes the specification: every route judged once, accepted ones sorted, the first one selected |
| MatcherLaws.RanksBeforeIsStrictWeakOrder | internal/matcher/matcher.go:201-219 | the comparison the ranking sorts by is a strict weak order |
| MatcherLaws.MatchIgnoresRouteOrder | internal/matcher/matcher.go:166-230 | for distinct route IDs, permuting the input changes neither the ranking, nor the selected route, nor the error |
| MatcherLaws.RankedExactly | internal/matcher/matcher.go:183-199 | a route is ranked once per copy, at its exact cost, exactly when it is accepted |
| MatcherLaws.RankedXorRejected | internal/matcher/matcher.go:183-199 | every route is either ranked or rejected, never both |
| MatcherLaws.RankingIsSorted | internal/matcher/matcher.go:201-219 | the ranking is sorted by the comparison |
| MatcherLaws.TiesKeepTheirOrder | internal/matcher/matcher.go:201-219 | routes the comparison does not tell apart keep their input order |
| MatcherLaws.PercentTestIsExact | internal/matcher/matcher.go:337-345 | truncating division loses nothing: the test is the inequality 100 * price <= percent * official |
| MatcherLaws.GuardIsOverflow | internal/matcher/matcher.go:337-340 | the guard refuses exactly the official prices whose product with the percentage does not fit 64 bits |
| MatcherLaws.PercentCapExactly | internal/matcher/matcher.go:333-352 | a percentage cap accepts exactly the routes the unbounded inequalities accept and the overflow guard lets through |
| MatcherLaws.RankedRouteIsAllowed | internal/matcher/matcher.go:242-354 | a ranked route is one of the input, at its true cost, inside every cap and on every allow-list of the request |
| MatcherLaws.NarrowerAcceptsExactly | internal/matcher/matcher.go:242-354 | what a narrower request accepts, the wider one accepts at the same cost if and only if the overflow guard does not hide it |
| MatcherLaws.NarrowerRankingIsSubsequence | internal/matcher/matcher.go:166-230 | the narrower request's ranking is the wider one's with routes left out, in the same order, if and only if the guard hides no route the narrower request accepts |
| MatcherLaws.WiderPercentageCanLoseARoute | internal/matcher/matcher.go:337-340 | a route that a smaller percentage accepts and a larger one rejects |
| Groups.IntersectLists | internal/groups/compiler.go:211-248 | the loops compute the common members of two lists, in the first one's order, an empty list standing for no restriction |
| GroupsLaws.NormalizeStageTwice | internal/groups/validate.go:147-185 | normalizing a stage twice, or after its sources, changes nothing |
| GroupsLaws.UniqueLowerIsNormal | internal/groups/validate.go:173-185 | the normalized list is clean, sorted, without duplicates or empty entries |
| GroupsLaws.UniqueLowerMembers | internal/groups/validate.go:173-185 | its members are exactly the cleaned, non-empty members of the input |
| GroupsLaws.ExactIntersection | internal/groups/compiler.go:113-151 | while no running intersection is empty, the effective list is the intersection of all restricting lists on the path |
| GroupsLaws.AllowListsNarrowExactly | internal/groups/compiler.go:113-151 | the effective list keeps the promise of every list on the path if and only if no running intersection is empty |
| GroupsLaws.DisjointListsWiden | internal/groups/compiler.go:211-248 | three disjoint lists whose composition allows what the first two forbid |
| CompilerLaws.TwoLevelsWiden | internal/groups/compiler.go:72-83 | a group around another one, whose only compiled stage allows what the outer group forbids |
| GroupsLaws.MinCapsIsTightest | internal/groups/compiler.go:193-201 | the composed cap is at most every cap on the path, and one of them |
| GroupsLaws.MinIntsIsTightest | internal/groups/compiler.go:182-191 | the composed percentage is at most every percentage on the path, and one of them |
| GroupsLaws.FirstSomeIsFirst | internal/groups/compiler.go:113-137 | the outermost explicit retry count wins |
| Compiler.PolicyClosedForm | internal/groups/compiler.go:113-161 | composing level by level equals one closed form over the whole path |
| Compiler.SecondComposition | internal/groups/compiler.go:163-180 | composing a stage's policy a second time changes nothing but the lists, and those only by another intersection with the same list |
| Compiler.WholeStageIsClosedForm | internal/groups/compiler.go:72-83 | the effective stage of an ordinary stage is the closed form over its path |
| Compiler.SourceStageIsClosedForm | internal/groups/compiler.go:64-71 | the effective stage of a single source is the closed form over its path, although its policy is composed twice |
| Compiler.Compile | internal/groups/compiler.go:16-99 | terminates on every definition map; reports an error exactly when the root is disabled, the nesting is bad or there are too many stages; otherwise the stages mirror the pure flattening in position order and stay within the limit |
| Compiler.Walk.Visit | internal/groups/compiler.go:25-62 | one group adds the leaves of its flattening and leaves the stack as it was, or adds an error |
| CompilerLaws.NestingIsGoodExactly | internal/groups/compiler.go:25-62 | the nesting is good if and only if every chain of enabled groups from the root is free of repetition, within the depth limit and names existing groups only |
| CompilerLaws.LeafCapsHold | internal/groups/compiler.go:113-180 | a stage's caps are at least as tight as those of every level of its nesting path |
| CompilerLaws.LeafListsHold | internal/groups/compiler.go:113-180 | with no empty running intersection of providers, a stage's providers are on the list of every level of its nesting path; the same for billing classes |
| Routing.MaxAttempts | internal/routing/plan.go:33-39 | the loop computes the tries a plan allows |
| Routing.BuildGroup | internal/routing/plan.go:62-144 | a group that does not compile gives no entries and a compile error; otherwise the plan is the concatenation over runs of equal try keys, cut at the route limit, with the error the limits call for |
| Routing.BuildDirect | internal/routing/plan.go:48-60 | the plan of a plain model is its ranking, one retry on each route that is not free |
| RoutingLaws.CycleHasNoRouteTwice | internal/routing/plan.go:85-113 | the list that one run of a try key repeats holds no route twice |
| RoutingLaws.CycleHoldsEveryRankedRoute | internal/routing/plan.go:85-113 | and misses no route ranked by any of its stages |
| RoutingLaws.PlanIsBounded | internal/routing/plan.go:107-143 | no plan exceeds the route limit, and one without error stays within the attempt limit |
| RoutingLaws.LeavesAreNormal | internal/groups/validate.go:147-171 | every level of every compiled stage's path is in normal form |
| RoutingLaws.PlanEntryRespectsItsPath | internal/routing/plan.go:86-113 | every entry comes from a leaf whose stage ranks its route, and respects the caps of every level of that leaf's own path, their provider lists when no running intersection of providers is empty, and their billing lists when none of billing is |
| Retry.Backoff | internal/retry/retry.go:192-204 | the doubling loop equals min(Base * 2^(n-1), Max) and never leaves 64 bits |
| Retry.NormalizePolicy | internal/retry/retry.go:176-190 | a normalized policy is usable, and a usable one is unchanged |
| Retry.SameRouteRetryExactly | internal/retry/retry.go:98-165 | exactly when the same route is tried again, in either mode and with or without a deadline |
| Retry.FailOverExactly | internal/retry/retry.go:98-165 | exactly when the next route is tried, in either mode and with or without a deadline |
| Retry.NoRetryAfterDelivery | internal/retry/retry.go:98-112 | no decision leads to another call once a byte has reached the client |
| Retry.DelayIsBounded | internal/retry/retry.go:140-165 | every wait is within the policy, and before the deadline when there is one |
| Sse.ReadSSE | internal/wire/stream_decoder.go:53-87 | the line loop computes the frames a body dispatches; a failed read flushes nothing, a clean end flushes a last unterminated frame |
| Sse.FramesRoundTrip | internal/wire/stream_encoder.go:66-83 | reading any concatenation of printed frames dispatches exactly the same names and payloads, for single-line names and trimmed payloads below the scanner limit |
| Sse.ScanFrame | internal/wire/stream_decoder.go:53-67 | a printed frame is scanned as its own lines, whatever follows |
| Wire.MergeUsage | internal/wire/stream_encoder.go:232-254 | a merged total never shrinks and covers input plus output plus the cache counted apart, and is one of the two totals or that sum |
| StreamLaws.MergedIsLastReported | internal/wire/stream_encoder.go:232-254 | over a whole stream each count is the last one reported other than zero, and the total covers every report |
| Streams.StreamWriter.Start | internal/wire/stream_encoder.go:151-160 | the writer is committed before the first header or byte can leave |
| Streams.StreamWriter.Write | internal/wire/stream_encoder.go:162-188 | an event sends the opening frames if they are missing and then its own, up to the first failed write, and is remembered |
| Streams.StreamWriter.End | internal/wire/stream_encoder.go:190-198 | the end sends the closing frames of everything remembered |
| Streams.EncodeStream | internal/wire/stream_encoder.go:256-267 | a list of events becomes its transcript, cut where the client stops accepting |
| StreamReading.StreamDecoder.Dispatch | internal/wire/stream_decoder.go:112-182 | one frame emits its usage, then its event or its failure, and says whether the stream is over |
| StreamReading.StreamResponse | internal/wire/stream_decoder.go:21-50 | a stream is read up to its first error; a failure after an event is a partial one, no event at all is malformed |
| StreamLaws.ChatDeltaRoundTrip | internal/wire/chat_adapter.go:402-471 | a delta written as a chat chunk is read as the same delta, an empty one as nothing |
| StreamLaws.AnthropicDeltaRoundTrip | internal/wire/anthropic_adapter.go:361-415 | a delta written as a content block delta is read as the same delta, an empty text as nothing |
| StreamLaws.ResponsesDeltaRoundTrip | internal/wire/responses_adapter.go:411-473 | a text delta is read as itself, a reasoning delta as nothing |
| StreamLaws.UsageRoundTrip | internal/wire/canonical.go:509-556 | a usage record written into a Responses snapshot is read back, a missing total being recomputed |
| StreamLaws.ChatUsageRoundTrip | internal/wire/chat_adapter.go:445-471 | a usage record in a Chat chunk is read back, a missing total being recomputed |
| StreamLaws.AnthropicUsageRoundTrip | internal/wire/anthropic_adapter.go:398-415 | an Anthropic stream carries the input and output counts |
| StreamLaws.SnapshotRead | internal/wire/responses_adapter.go:350-451 | a final snapshot is read back with its text, model, message and usage |
| StreamLaws.TranslationKeepsEvents | internal/wire/stream_encoder.go:85-198 | writing any events that report no failure in a format and reading them back gives exactly what the format carries, in order, then a clean end; the Responses snapshot is the last one seen with the whole text and all usage |
| StreamLaws.TranslationKeepsText | internal/wire/stream_decoder.go:21-50 | text deltas survive in every format, their concatenation is the text of the Responses snapshot, and the stream reads as complete unless Chat or Anthropic got none at all |
| StreamLaws.TextArrivesExactly | internal/wire/stream_encoder.go:85-198 | a Chat or Anthropic client gets the text of a stream if and only if the last snapshot says nothing or just what the deltas said; a Responses client always gets it |
| StreamLaws.EventsSurviveTheWire | internal/wire/stream_encoder.go:66-83 | the same down to bytes, for every one-line JSON printer with a parser that inverts it |
| Delivery.PumpTranslatedStream | internal/proxy/stream.go:25-44 | the client receives the translation of the whole stream up to its first failed write; it is committed exactly if there was an event, and untouched otherwise |
| Delivery.WriteResponse | internal/wire/stream_encoder.go:200-230 | a JSON reply is written as its snapshot, its text in one delta, its reasoning in order and its usage, up to the first failed write |
| Delivery.CompleteTranslatedStream | internal/proxy/stream.go:65-92 | a complete reply is replayed as a stream, snapshots of a buffered one expanded, without an end if the upstream was cut short |
| Delivery.PassThrough | internal/proxy/stream.go:129-165 | lines are forwarded up to the first reported failure; success needs a terminal line, no failure and no failed write |
| DeliveryLaws.ClientReadsCompleteExactly | internal/proxy/stream.go:25-44 | whatever the provider sent and wherever either connection broke, the client reads its stream as complete if and only if the provider's was complete, every frame arrived and the client's format carries any of it |
| DeliveryLaws.SnapshotOnlyTextIsLost | internal/wire/stream_encoder.go:162-188 | a complete provider stream whose text a client of another format never gets |
| DeliveryLaws.ClientGetsTextExactly | internal/proxy/stream.go:25-44 | the same from provider to client, for every complete provider stream; text of a Chat or Anthropic provider always arrives |
| DeliveryLaws.DocumentReadsBack | internal/wire/stream_encoder.go:200-230 | a JSON reply replayed as a stream is read back with its whole text, its reasoning but for Responses, and its usage; the Responses snapshot is the reply itself |
| Proxy.CandidateFormats | internal/providers/endpoints.go:83-101 | the loops compute the three formats where they are seen first in the list that begins with the saved, the hinted and the client format |
| Proxy.FirstSeenExactly | internal/providers/endpoints.go:83-101 | that list holds exactly the valid formats, none twice, in the order of their first occurrences |
| Proxy.NextActionExactly | internal/proxy/proxy.go:629-648 | after an error a run retries, moves on or stops exactly under these conditions; it stops only at the last entry |
| Proxy.Execution.ProviderBlocked | internal/catalog/catalog.go:66-78 | a key is blocked until its reset, forever without one; an expired limit is dropped |
| Proxy.Execution.Call | internal/proxy/proxy.go:716-718 | a call to a provider requires a client that has received nothing |
| Proxy.Execution.Deliver | internal/proxy/proxy.go:727-773 | a usable reply reaches the client as its translation; an unusable one leaves the client untouched and gives the error |
| Proxy.Execution.ExecuteTranslatedRoute | internal/proxy/proxy.go:654-787 | attempts are numbered on without gap, use one key and the formats of the search list in its order, and go on to the next format exactly when the rules say so; the last attempt alone decides the outcome |
| Proxy.Execution.Execute | internal/proxy/proxy.go:453-652 | every run ends; all bytes come from the last attempt and every earlier one failed; attempts are numbered 1 to n within the limit and go through the plan in its order, on the keys of its routes; an entry is tried again only if a retry is due, no more often than allowed, and given up only if none is; each entry before the one that delivered, or before the end of a run without delivery, has a stated reason; a run fails only with every entry settled or the attempts used up |
| Proxy.TryKeepsQuota | internal/catalog/catalog.go:52-78 | a try on a key just found unblocked keeps the rule that a key whose try ended in a quota error rests until its reset |
| Proxy.TryKeepsProbing | internal/proxy/proxy.go:692-787 | a try keeps the rule that a try goes on exactly when the error asks for another format and one is left |
| Proxy.BudgetSuffices | internal/proxy/proxy.go:462-466 | attempts do not run out while an entry is open if the budget covers every allowed try and each needs one attempt |
| ProxyLaws.QuotaKeyUsedAgainExactly | internal/proxy/proxy.go:842-868 | exactly when a key is used again right after a quota error, and that otherwise it rests until its reset |
| ProxyLaws.LimitedKeyIsCalledThreeTimes | internal/proxy/proxy.go:717-726 | a run in which a limited key is called in all three formats |
| ProxyLaws.GoodPlanLeavesNothingUntried | internal/routing/plan.go:140-142 | a failed run of a group plan without error has settled every entry, if each try needs one attempt |
| Sessions.HashIsInjective | internal/session/fingerprint.go:12-27 | two histories of two clients have the same hash only if both agree |
| Sessions.PrefixHashes | internal/session/fingerprint.go:12-27 | the loop computes the hash of every prefix, shortest first |
| Sessions.AtMostOneAnchor | internal/db/repositories/sessions_repository.go:87-115 | a session has at most one anchor, the hash of its first message |
| Sessions.AtMostNineKeys | internal/db/repositories/sessions_repository.go:161-204 | a session has at most nine keys |
| Sessions.ResolvingKeepsGood | internal/db/repositories/sessions_repository.go:43-121 | a call keeps the invariant: keys hash their own client's histories, all keys of a session share the first message, anchors are exactly the one-message keys, at most eight others; no other session's keys change |
| Sessions.ChosenExactly | internal/db/repositories/sessions_repository.go:62-79 | the answer is the sole owner of the longest owned prefix of the history, and the fresh id if that prefix has several owners or no prefix has one |
| Sessions.NewestKeyStays | internal/db/repositories/sessions_repository.go:161-204 | pruning never drops the key just registered, given a clock that moves |
| Sessions.SessionContinuesLater | internal/db/repositories/sessions_repository.go:43-121 | after a call that was not ambiguous, the client's next call within retention with the history or an extension gets the same session, unless another one owned a longer prefix, whatever happened in between to other clients |
| Sessions.CleaningKeepsOwners | internal/db/repositories/sessions_repository.go:51-60 | cleaning takes no retained owner away |
| Sessions.OtherClientsKeepOwners | internal/db/repositories/sessions_repository.go:43-121 | a call for one client changes no owner of another's hashes |
| SessionStore.Store.Lookup | internal/db/repositories/sessions_repository.go:123-159 | finds for each hash none, the one or two of its retained owners, whatever order the rows come in |
| SessionStore.Store.Prune | internal/db/repositories/sessions_repository.go:161-204 | keeps the anchor and the eight most recent other keys of one session, and nothing else changes |
| SessionStore.Store.ResolveAndRegister | internal/db/repositories/sessions_repository.go:43-121 | answers the sole owner of the longest owned prefix or the fresh id, and leaves the registered and pruned tables, for any hashes, anchor and fingerprint; a failure changes no table |
| SessionStore.Store.CleanupDue | internal/db/repositories/sessions_repository.go:206-214 | cleaning is due at most once per interval |
| SessionStore.Store.UpsertSession | internal/db/repositories/sessions_repository.go:29-41 | stamps one session and touches no key |
| SessionStore.KeptExactly | internal/db/repositories/sessions_repository.go:184-194 | a row is kept exactly if it is an anchor or fewer than eight others come before it |
| SessionStore.ReverseInPlace | internal/session/detector.go:54-58 | the swap loop reverses the hashes |
| SessionStore.Detector.DetectSessionID | internal/session/detector.go:35-74 | always answers: the header, the fresh id, or what the store resolves for the prefixes longest first; the store's invariant is kept |
| SessionStore.Detector.Run | internal/session/detector.go:35-74 | over every run of requests the store's invariant is kept, and no client's keys change owner unless it makes a request itself |
| SessionStore.Detector.Converse | internal/db/repositories/sessions_repository.go:43-121 | continuity over a run: any requests of other clients may come in between, and cleaning before either call; the conditions are on the store at the start |
| Updater.Machine.NothingIsLost | internal/updater/supervisor.go:241-330 | at every step of an update that is not promoted, the start of the update is in the live database or in a complete backup; a clean start is needed only until its own snapshot is finished |
| Updater.Machine.Recover | internal/updater/supervisor.go:555-567 | recovery ends rolled back with the previous binary current and the database of the backup, which is the start of the update exactly if its log was empty; it gives up only without a backup or on a failed file operation |
| Updater.Machine.Restore | internal/updater/supervisor.go:524-537 | restoring puts the backup in place and removes the stale log, keeping the invariant at every step |
| Updater.Machine.Snapshot | internal/updater/supervisor.go:251-256 | the snapshot is complete or absent, and the live database is untouched |
| Updater.Machine.RollBack | internal/updater/supervisor.go:463-493 | a rollback that succeeds restores the database file and the previous binary; one that fails asks for manual recovery with the backup still there |
| Updater.Machine.FailEarly | internal/updater/supervisor.go:449-461 | a failure before the candidate runs only changes the journal |
| Updater.Machine.Settle | internal/updater/supervisor.go:317-329 | the candidate becomes current durably before its gate opens |
| Updater.Machine.Promote | internal/updater/supervisor.go:241-330 | an update ends served by the candidate, rolled back with the database as it was, or asking for help with a complete backup; power may fail at any step |
| Updater.Machine.Boots | internal/updater/supervisor.go:37-142 | over any number of boots, each cut short at any step, the disk keeps its guarantee and no gate is open whose promotion is not durable, nor that of a candidate not promoted yet |
| Updater.PendingLogIsLost | internal/updater/supervisor.go:495-537 | an interrupted update that loses the transactions of a pending log |
| Updater.OlderBackupIsRestored | internal/updater/service.go:397-410 | an interrupted update that restores an older backup |
| Updater.NoBackupNoStart | internal/updater/supervisor.go:555-567 | an update interrupted before its backup exists: the database is whole, recovery fails |
| RemoteAccess.Manager.Begin | internal/remoteaccess/manager.go:220-249 | starting a worker cancels the previous one and keeps the protocol's invariant; a closed manager starts none |
| RemoteAccess.Manager.SetDesired | internal/remoteaccess/manager.go:128-148 | the desired configuration changes exactly if it was saved, the manager is open and there is something to change |
| RemoteAccess.Manager.Publish | internal/remoteaccess/manager.go:469-483 | only the current generation's status is kept |
| RemoteAccess.Manager.EnsureNode | internal/remoteaccess/manager.go:408-444 | the worker has a node for its host name, to be started by it unless it was running |
| RemoteAccess.Manager.Clear | internal/remoteaccess/manager.go:252-259 | only the current worker clears the manager's channel |
| RemoteAccess.Manager.Run | internal/remoteaccess/manager.go:116-372 | every schedule of calls and workers keeps the invariant; a closed manager stays closed and begins no worker; after a Shutdown that returned nil there is no node, no new node and no running worker ever again |
| RemoteAccess.Manager.AdvanceWorker | internal/remoteaccess/manager.go:251-372 | a worker changes the status only as the current generation |
| RemoteAccess.Manager.AdvanceCall | internal/remoteaccess/manager.go:116-249 | a call changes the status only by starting a generation |
| RemoteAccess.Manager.OneBody | internal/remoteaccess/manager.go:243-259 | at most one reconcile body runs |
| RemoteAccess.Manager.SettledStatusIsDesired | internal/remoteaccess/manager.go:116-148 | once configuration calls have begun their workers and nothing was shut down, the status names the mode configured last, online included, if and only if the latest worker has published, was not begun to disable, or disabling is what is configured |
| RemoteAccess.OvertakenDisable | internal/remoteaccess/manager.go:128-148 | a run after which the status says disabled while a public mode is configured |
| RemoteAccess.Manager.ShutDownIsFinal | internal/remoteaccess/manager.go:197-218 | once Shutdown has returned nil there is no node, and every worker is over |
| Catalog.Manager.Refresh | internal/catalog/catalog.go:113-277 | every route's logical model keeps exactly one entry; known models only grow, each addition is new, known and recorded once; a failed write of the history leaves models, routes, additions and known models as they were |
| Catalog.Manager.Restore | internal/catalog/discoveries.go:33-52 | loads the stored history and no routes; an unreadable store changes nothing |
| Catalog.Manager.RecordDiscoveries | internal/catalog/discoveries.go:54-82 | the history goes to the store before memory; an empty catalogue sets no baseline |
| Catalog.RecordedExactly | internal/catalog/discoveries.go:54-68 | what is added is exactly what was listed and not known, once each, and nothing before a baseline |
| Catalog.RoutesAfterRefresh | internal/catalog/catalog.go:211-248 | a route is there exactly if an answering client lists it or its client could not be asked; a known format is kept |
| Catalog.BuildRoutes | internal/catalog/catalog.go:152-210 | the nested loops build one route per listing and one model per logical name, free if one of its routes is and with the largest context of its routes |
| Catalog.SortedModels | internal/catalog/catalog.go:227-231 | the models come out once each, sorted by id |
| Catalog.Manager.LearnFormat | internal/catalog/catalog.go:307-318 | a learnt format reaches every route of that id and changes nothing else |
| Catalog.Manager.Run | internal/catalog/catalog.go:113-277 | over every run of restarts, restores, refreshes and format changes with arbitrary failures, the invariant holds and the stored history only grows; so does the remembered one between restarts |

## Left out

- Strings: case folding and trimming are ASCII only. The joined try key of a stage is taken to tell its parts apart (names without a zero byte).
- JSON text: payloads are values, and a printer and parser with the laws the streams need stand for the JSON library. Strings are valid Unicode, as the encoder makes them.
- Keyed hashes are injective and never empty: a hash is the value it hashes. Times are integers; the stored time strings of the sessions table do not always sort like times.
- Tool calls, audio, and the text of tool results, in streams and in snapshots; translation of requests.
- Whether a provider's error reply speaks of a used-up quota is a flag of the reply, since its text is not modelled.
- HTTP, SQL, process and file primitives, the Tailscale library, provider clients and configuration flags.
- A write to a client is one whole frame: a frame that is cut in the middle is not distinguished from one that was not written.
- Requests running at the same time. One request's run is modelled alone; another one could change the blocked keys or the formats under it.
- Structured-output probes count as no call of the run, and their effect on learnt capabilities is not kept.
- What the request handler does after a run (error bodies, usage records), and the error texts of attempts.
- The rejections of a plan that was cut at the route limit, the order of issues, and the boolean result of the compiler's recursive closure, which its callers ignore.
- Updater.Machine.Promote: journal writes and the removal of files are taken to succeed; a promoted journal write that fails returns without rollback.
- Updater.Machine.Recover: a journal of an interrupted update without backup or previous path, which no update writes.
- Updater.Machine.Boots: a candidate that outlives its supervisor; power failing kills every process here.
- Updater.Machine.Restore: the copy aside is one step, since a partial copy is never read.
- RemoteAccess.Manager.AdvanceWorker: listeners, authorization and the checks between two publications; which status is published, and when, is arbitrary within a worker's body.
- Forgetting the Tailscale identity, and the persisted last result of the remote-access lifecycle.
- Catalog.Manager.Refresh: prices, capabilities and merged parameter lists; a format learnt while a refresh runs is not modelled.
- The canonical slug of a model id, which is an arbitrary function here, and display names.
- SessionStore.Store.ResolveAndRegister: database failures are one flag for the whole transaction.
- Statistics, key storage, migrations, price estimation of past usage and the update download, which the properties above do not depend on.
