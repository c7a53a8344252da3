# fwd event forwarder — a Dafny model

fwd gathers activity events from several sources and forwards them to a Google Cloud Pub/Sub topic. The sources are GitHub repository events, GitHub and Terraform Cloud webhooks, and the Kubernetes event stream. This project models the logic at the heart of that pipeline and proves what it promises:

- **Cursor tracker.** `EventTracker` maps a repository name to the ID of the last event seen (module `Tracker`). The classes keep the source's objects: the tracker owns a map of `RepoState` objects, each holding one ID. The abstract view `Cursors()` is a `map<string, string>`.
- **Incremental GitHub collector.** One `collectEvents` cycle works as follows:
  - It lists the organisation's repositories page by page and follows only `elixir`.
  - It accumulates that repository's event pages and remembers the first ID of the first non-empty page.
  - It scans newest first. It skips the stored cursor and everything after it, stops at the 24-hour cutoff, skips events that fail to convert, and sends the rest.
  - Finally it moves the cursor to the remembered ID.

  Module `Collector` states this as functions: `WalkFrom` for the walk, `Scan` for the scan, `CollectRepo` for one repository, and `ReposFrom`, `ListFrom`, `AfterPage` and `Cycle` for the cycle. `CollectorProps` proves the cycle's properties. `CollectorImpl.GitHubCollector` has the imperative loops, and each is proved equal to its function. `CollectorScenarios` works through concrete cycles.
- **Pub/Sub processor** (module `PubSub`):
  - the default configuration;
  - the attribute map of each message;
  - `PubSubProcessor` with a bounded event buffer of `BufferSize` events, `RegisterSource`, `Start`, the `processEvents` drain loop, `Stop` and `Name`.

  Effects on sources, topic and client are recorded in order in a `trace` of actions.
- **Webhook and watch-stream adapters.** Each HTTP handler is a pure gate function `Decide` that returns an error status or the event to enqueue. A method then performs the non-blocking enqueue, answering 202, or 503 when the queue is full; there is one for the receiver revision (`internal/receiver`, which produces `types.Event`) and one for each webhook adapter of the source revision (`internal/source`, which produces CloudEvents). The modules are `Receiver`, `WebhookGitHub` and `WebhookTerraform`. The Kubernetes source (module `Kube`) has no HTTP gate: `Forwarded` decides which informer notifications are handled, `ToCloudEvent` builds the event, and the method `Notify` enqueues it without blocking, dropping it when the queue is full.

Shared modules:
- `Wrappers` has the Option type.
- `Text` has prefixes, decimal rendering and parsing with a round trip, and ASCII lowercasing.
- `Types` has the event envelope and time units; times are integers in nanoseconds.
- `CloudEvents` has the SDK event as the adapters set it.
- `Http` has the request, header lookup, status codes and the shared enqueue tail.
- `Channels` has a buffered Go channel as a bounded FIFO class with `TrySend`, `Receive` and `Close`.

Things the code calls but that are not modelled become parameters:
- the clock (`now`);
- the rate limiter (`waitBudget`: how many waits succeed);
- context cancellation of the collector's blocking send (`cancelAfter`: how many sends complete first);
- the answers of the GitHub listing API (`repoPages`, `eventPages`);
- HMAC digests (`MacFn`);
- JSON decoding (parser functions returning `Option`);
- SDK `SetData` and `json.Marshal` (encoder functions returning `Option`);
- the result of each Pub/Sub `Get` (`results`).

Behaviour of the code worth knowing:
- The collector's send blocks until the consumer takes the event or the context is cancelled (`select` with `ctx.Done`). It does not fail fast on a full queue.
- A limiter error or a repository-listing error aborts the whole cycle (`return err`), not just one repository.
- An error fetching a page of events only ends that repository's pagination. The events already accumulated are still scanned and the cursor still advances.
- `Stop` drains the buffer only if `Start` launched the loop. Buffered events are lost when it did not.
- Each webhook handler verifies its own signature (`validateSignature`).
- Batching by count, bytes and delay is left to the Pub/Sub library.

On the SDK: `SetData(ApplicationJSON, …)` also sets the data content type. So the GitHub source's event ends with `application/json` whatever `Content-Type` the request carried.

## Model

| member | source | states |
|---|---|---|
| Tracker.RepoState.constructor | internal/collector/collector.go:17-21 | a fresh state holds the empty ID |
| Tracker.RepoState.Update | internal/collector/collector.go:23-27 | the stored ID becomes the given one |
| Tracker.RepoState.Get | internal/collector/collector.go:29-33 | returns the stored ID |
| Tracker.Touch | internal/collector/collector.go:52-56 | a read of an unseen repository adds exactly that key with ""; existing entries are unchanged |
| Tracker.EventTracker.constructor | internal/collector/collector.go:41-45 | a new tracker has no cursors |
| Tracker.EventTracker.GetLastEventID | internal/collector/collector.go:47-59 | returns the stored cursor or "" for an unseen repository; the cursor map changes only by adding that repository with "" |
| Tracker.EventTracker.UpdateLastEventID | internal/collector/collector.go:61-73 | the cursor map becomes the old one with repo set to id: the entry is created if unseen and every other entry is unchanged |
| Tracker.ReadOfUnseenRepo | internal/collector/collector.go:52-58 | reading an unseen repository yields "" and adds exactly that key |
| Tracker.ReadKeepsValues | internal/collector/collector.go:47-58 | a read changes no stored value, and reading twice is the same as reading once |
| Tracker.UpdateThenRead | internal/collector/collector.go:61-73 | after an update a read returns the new ID and creates nothing; other repositories read as before |
| Tracker.LatestUpdateWins | internal/collector/collector.go:23-27 | of two updates of one repository the second wins |
| Tracker.KeysOnlyGrow | internal/collector/collector.go:47-73 | neither read nor update removes a repository |

| Collector.ConvertGitHubEvent | internal/collector/github.go:44-75 | fails exactly when the payload cannot be parsed or re-encoded; otherwise maps the ID, time, data and actor, sets type "github."+type and source "//github.com/"+org+"/"+repo, and sets exactly the extensions org/repo/actor/raw_type |
| Collector.Converted | internal/collector/github.go:176-180 | converting a listing yields at most one event per listed event; ScanIsConvertedFreshPrefix and CollectRepoSends relate it to the scan |
| Collector.Kept | internal/collector/github.go:111-142 | how many leading pages the walk keeps: each is non-empty, each but the last announces a next page, and the walk stops after them |
| Collector.WalkFrom | internal/collector/github.go:111-142 | the pagination loop from one call on: a finished walk has spent at least one more limiter wait; WalkFromShape gives its whole result |
| Collector.FreshPrefix | internal/collector/github.go:152-171 | the longest prefix of the listing holding neither the cursor nor an event older than the cutoff |
| Collector.Scan | internal/collector/github.go:152-189 | the newest-first scan emits at most one event per listed event and nothing once the cursor has been met; ScanIsConvertedFreshPrefix gives its whole result |
| Collector.Deliver | internal/collector/github.go:182-187 | without cancellation every emitted event is appended in order; with cancellation a proper prefix is appended and the cancellation is reported |
| Collector.CollectRepo | internal/collector/github.go:100-194 | one visit of the tracked repository: a visit that returns without error sent nothing past the cancellation point; CollectRepoSends, CursorBecomesNewestId and CancelledKeepsCursor give its effect |
| Collector.ReposFrom | internal/collector/github.go:95-103 | the loop over one page of names: a loop that returns without error has no cancelled send |
| Collector.ListFrom | internal/collector/github.go:85-93 | the repository listing loop: a loop that returns without error has no cancelled send |
| Collector.AfterPage | internal/collector/github.go:197-200 | after a page of names: an error passes through unchanged, and a follow-up call keeps sends uncancelled |
| Collector.Cycle | internal/collector/github.go:77-204 | one collectEvents call: a cycle that returns without error has no cancelled send; CollectEvents is proved equal to it |
| CollectorProps.WalkFromShape | internal/collector/github.go:111-142 | the walk fails exactly when the limiter runs out before its last call; otherwise it holds the events of the kept pages and the first head ID, and used one wait per call |
| CollectorProps.WalkAccumulates | internal/collector/github.go:122-141 | the accumulated events are the concatenation of the kept pages, so pages fetched before a later error are kept; the remembered ID is the first event's |
| CollectorProps.FlattenKeptHead | internal/collector/github.go:131-136 | a walk that kept a page has a non-empty listing headed by that page's first event |
| CollectorProps.LatestAfterKeeps | internal/collector/github.go:132-134 | once an ID is remembered, later pages do not replace it |
| CollectorProps.ScanAfterFound | internal/collector/github.go:157-165 | once the cursor has been met, nothing more is emitted |
| CollectorProps.ScanIsConvertedFreshPrefix | internal/collector/github.go:152-189 | the scan emits exactly the convertible events of the fresh prefix, in newest-first order |
| CollectorProps.ScanNeverEmitsCursorOrStale | internal/collector/github.go:157-171 | no emitted event has the cursor's ID or is older than the cutoff |
| CollectorProps.ConvertedKeepsFreshness | internal/collector/github.go:157-180 | converting fresh events yields events that are neither the cursor nor older than the cutoff |
| CollectorProps.ScanStopsAt | internal/collector/github.go:165-171 | nothing at or after the first cursor or too-old event is emitted |
| CollectorProps.ConversionFailureSkipsOnlyIt | internal/collector/github.go:176-180 | an event that fails to convert is skipped and the rest of the scan is as if it were absent |
| CollectorProps.CursorBecomesNewestId | internal/collector/github.go:132-194 | after a completed visit the cursor is the first event of the first page, whatever the scan met |
| CollectorProps.EmptyListingChangesNothing | internal/collector/github.go:144-146 | an empty first page sends nothing and keeps the cursor |
| CollectorProps.CancelledKeepsCursor | internal/collector/github.go:182-187 | a cancelled send returns before the cursor is updated |
| CollectorProps.CollectRepoSends | internal/collector/github.go:152-189 | a completed visit appends the convertible events of the fresh prefix of the accumulated listing |
| CollectorProps.ReposFromFrame | internal/collector/github.go:95-103 | the loop over one page's names changes no cursor but the tracked repository's |
| CollectorProps.AfterPageFrame | internal/collector/github.go:197-200 | moving to the next repository page changes no cursor but the tracked repository's |
| CollectorProps.ListFromFrame | internal/collector/github.go:85-201 | the repository listing loop changes no cursor but the tracked repository's |
| CollectorProps.CycleTouchesOnlyTrackedRepo | internal/collector/github.go:100-103 | a whole cycle changes no cursor but the one for "elixir" |
| CollectorProps.ListingErrorAbortsCycle | internal/collector/github.go:90-93 | a failing first listing call ends the cycle with an error, after one wait, with nothing sent and no cursor changed |
| CollectorProps.AbortIgnoresLaterRepos | internal/collector/github.go:95-98 | once a repository step aborts (limiter failure or cancelled send), repositories listed after it are never visited and the abort passes through the page loop unchanged, so the error ends the whole cycle |
| CollectorProps.CollectRepoAdvances | internal/collector/github.go:100-194 | a repository visit only appends to what was sent, never lowers the wait count (an abort inside the walk keeps the count from before it), and removes no cursor entry while creating its own |
| CollectorProps.ReposFromAdvances | internal/collector/github.go:95-103 | the name loop only appends sends, only spends waits and removes no cursor entry |
| CollectorProps.ListFromAdvances | internal/collector/github.go:85-201 | the listing loop only appends sends, only spends waits and removes no cursor entry; a loop that returns without error has made at least one listing call |
| CollectorProps.CycleAdvances | internal/collector/github.go:77-204 | a cycle removes no cursor entry, and one that returns without error has waited on the limiter at least once |
| CollectorImpl.GitHubCollector.constructor | internal/collector/github.go:30-38 | the collector starts with an empty tracker |
| CollectorImpl.GitHubCollector.Name | internal/collector/github.go:40-42 | the name is "github", which is also the namespace of every event type the collector produces |
| CollectorImpl.GitHubCollector.FetchEvents | internal/collector/github.go:106-142 | the pagination loop computes the walk `WalkFrom` describes |
| CollectorImpl.GitHubCollector.ScanAndSend | internal/collector/github.go:151-189 | the scan loop sends exactly what `Scan` emits, cut short where cancellation wins a send |
| CollectorImpl.GitHubCollector.CollectTracked | internal/collector/github.go:100-194 | one tracked repository's visit changes the tracker, the sent events and the waits as `CollectRepo` says |
| CollectorImpl.GitHubCollector.CollectPage | internal/collector/github.go:95-195 | the loop over one page's names computes `ReposFrom` |
| CollectorImpl.GitHubCollector.CollectEvents | internal/collector/github.go:77-204 | a whole cycle leaves the tracker, the sent events and the returned error as `Cycle` says |
| CollectorScenarios.OnlyTrackedRepoCycle | internal/collector/github.go:95-103 | a listing of just "elixir" is that repository's visit after two waits |
| CollectorScenarios.SinglePageWalk | internal/collector/github.go:111-142 | one page with NextPage 0 is accumulated whole and its head remembered |
| CollectorScenarios.ScanResumes | internal/collector/github.go:152-189 | D, C, B, A scanned with cursor B emits D and C |
| CollectorScenarios.ScanFromScratch | internal/collector/github.go:152-189 | C, B, A scanned with no cursor emits all three |
| CollectorScenarios.ResumesAfterCursor | internal/collector/github.go:152-194 | cursor B with listing D, C, B, A sends D then C and sets the cursor to D |
| CollectorScenarios.FirstCycleSendsEverythingFresh | internal/collector/github.go:152-194 | no cursor and listing C, B, A sends all three in order and sets the cursor to C |
| CollectorScenarios.LimiterAbortsInsideWalk | internal/collector/github.go:111-114 | a limiter failure inside the walk aborts the cycle with the entry created and the cursor unchanged |
| PubSub.DefaultPubSubConfig | internal/processor/pubsub.go:28-35 | BufferSize 1000, BatchSize 100, BatchBytes 1000000, BatchTimeout 100 ms, no project or topic |
| PubSub.MessageAttributes | internal/processor/pubsub.go:138-142 | the attributes are exactly type, source and id, taken from the event |
| PubSub.PublishEvent | internal/processor/pubsub.go:130-154 | a marshal failure publishes nothing; otherwise the message is the encoding plus those attributes, and is published exactly when Get succeeds |
| PubSub.FirstStartFailure | internal/processor/pubsub.go:95-99 | the first source whose Start fails; all before it succeed |
| PubSub.StartCalls | internal/processor/pubsub.go:95-99 | one Start call per source, in order |
| PubSub.StopCalls | internal/processor/pubsub.go:159-163 | one Stop call per source, in order |
| PubSub.StartCallsAt | internal/processor/pubsub.go:95-99 | the i-th Start call is on the i-th registered source, with its outcome |
| PubSub.StopCallsAt | internal/processor/pubsub.go:159-163 | the i-th Stop call is on the i-th registered source, with its outcome |
| PubSub.Attempts | internal/processor/pubsub.go:111-122 | draining a buffer makes exactly one publish attempt per buffered event |
| PubSub.StartTrace | internal/processor/pubsub.go:93-106 | Start records one action per source up to and including the first that fails, and ends with the loop launch exactly when none failed |
| PubSub.StopTrace | internal/processor/pubsub.go:157-174 | Stop records one action per source, then the close, then what the loop drains, then the topic stop and the client close |
| PubSub.PubSubProcessor.constructor | internal/processor/pubsub.go:79-84 | the buffer's capacity is BufferSize, and it starts empty and open |
| PubSub.PubSubProcessor.Name | internal/processor/pubsub.go:177-179 | "pubsub-" followed by the topic name, which it gives back |
| PubSub.PubSubProcessor.RegisterSource | internal/processor/pubsub.go:88-90 | appends the source, keeping registration order |
| PubSub.PubSubProcessor.Start | internal/processor/pubsub.go:93-106 | starts sources in order up to the first failure and returns its name; launches the loop only when none failed |
| PubSub.PubSubProcessor.ProcessEvents | internal/processor/pubsub.go:108-128 | takes every buffered event oldest first and attempts it once, a failure only logged; ends exactly when the channel is closed and empty |
| PubSub.PubSubProcessor.Stop | internal/processor/pubsub.go:157-174 | stops every source despite failures, then closes the channel, drains it when a loop runs, then stops the topic and closes the client |
| PubSub.PubSubProcessor.StopSources | internal/processor/pubsub.go:159-163 | every registered source is stopped in order and a failure is passed over; nothing else changes |
| PubSub.AttemptsInOrder | internal/processor/pubsub.go:111-122 | the i-th attempt is the i-th buffered event, one attempt each, with no retry |
| PubSub.AttemptsConcat | internal/processor/pubsub.go:111-122 | draining in two rounds attempts what draining once does |
| PubSub.StartTraceShape | internal/processor/pubsub.go:93-106 | no source after the failing one is started, and the loop is launched exactly when none failed |
| PubSub.StopTraceOrder | internal/processor/pubsub.go:157-174 | the channel is closed once, after every source is stopped and before the drain; topic then client come last |
| Channels.Channel.constructor | internal/processor/pubsub.go:83 | a channel of the given capacity, empty and open |
| Channels.Channel.TrySend | internal/source/kubernetes.go:131-135 | a non-blocking send succeeds exactly when there is room, and appends at the back |
| Channels.Channel.Receive | internal/processor/pubsub.go:113-116 | the oldest value, or None once closed and empty |
| Channels.Channel.Close | internal/processor/pubsub.go:166 | closes, and keeps the buffered values receivable |
| Http.Respond | internal/receiver/github.go:156-163 | an error verdict is written as is; an event gives 202 and is appended when there is room, 503 and nothing changes when the queue is full |
| Http.Header | internal/receiver/github.go:80 | r.Header.Get: the header's value, or "" when it is missing |
| Text.TrimPrefix | internal/receiver/github.go:54 | strips the prefix when present, and leaves the string alone otherwise |
| Text.HasPrefix | internal/source/webhook_github.go:40 | strings.HasPrefix: when it holds, the string is the prefix followed by the rest; a prefix longer than the string never holds |
| Text.IntToString | internal/source/webhook_terraform_cloud.go:91 | the %d rendering is never empty; ParseIntToString gives its inverse |
| Text.ParseIntToString | internal/receiver/github.go:110 | the decimal rendering of a nanosecond count parses back to it |
| Text.IntToStringInjective | internal/receiver/github.go:110 | different counts render differently |
| Text.AsciiLower | internal/source/kubernetes.go:96-97 | lowercasing keeps the length and lowers each character on its own |
| Text.AsciiLowerIdempotent | internal/source/kubernetes.go:95-97 | lowering leaves no upper-case letter, and lowering twice is lowering once |
| Receiver.NewHandler | internal/receiver/github.go:24-30 | debug is always on |
| Receiver.ValidateSignature | internal/receiver/github.go:36-63 | accepts unsigned requests in debug mode and everything without a secret; otherwise accepts exactly "sha256=" followed by the body's MAC |
| Receiver.DeliveryId | internal/receiver/github.go:108-114 | the delivery header, or "gh_" and the nanosecond time when it is missing; never empty |
| Receiver.BuildEvent | internal/receiver/github.go:123-150 | the event has a non-empty ID, the receive time and the payload; its source and type give back the repository name and the event header; its subject and data schema are empty; its four extensions mirror the ID, the event header and the repository, and record the User-Agent and Content-Type headers |
| Receiver.Decide | internal/receiver/github.go:74-150 | 405 iff not POST; 401 iff a checked signature fails; enqueue iff every check passes; any other refusal is 400; the event's ID, source, type, time and data as built |
| Receiver.HandleWebhook | internal/receiver/github.go:65-164 | the verdict's status, or 202 with the event enqueued, or 503 with the queue unchanged |
| Receiver.GenuineSignatureAccepted | internal/receiver/github.go:49-62 | a signature made from the body's MAC is accepted |
| Receiver.ForgedSignatureRejected | internal/receiver/github.go:43-62 | with a secret, any other non-empty signature is rejected |
| Receiver.UnsignedRequestsPass | internal/receiver/github.go:98-106 | with debug hard-wired on, an unsigned request is never refused with 401 |
| Receiver.GeneratedIdRoundTrip | internal/receiver/github.go:108-111 | a generated ID gives back the time it was made from |
| Receiver.GeneratedIdsDistinct | internal/receiver/github.go:108-111 | generated IDs for different times differ |
| Receiver.EnqueuedEventIsComplete | internal/receiver/github.go:134-150 | an enqueued event has a non-empty ID, source and type, spec version 1.0, empty subject and data schema, and exactly the extensions delivery_id/event_type/repository mirroring its fields plus headers recording User-Agent and Content-Type |
| CloudEvents.NewEvent | internal/source/webhook_github.go:89 | a new event has spec version 1.0 and nothing else set |
| WebhookGitHub.ValidateSignature | internal/source/webhook_github.go:34-50 | accepts when the secret or the signature is empty; otherwise exactly "sha256=" followed by the body's MAC |
| WebhookGitHub.BuildEvent | internal/source/webhook_github.go:89-107 | the ID is the delivery header; source and type give back the full name and the event header; the content type is application/json; exactly three extensions mirror the ID, the event header and the full name |
| WebhookGitHub.Decide | internal/source/webhook_github.go:53-107 | 405 iff not POST; 401 iff the signature fails; 500 iff SetData fails after the rest passed; enqueue iff everything passes; other refusals are 400; the event's ID, source, type, time and data |
| WebhookGitHub.Handle | internal/source/webhook_github.go:52-117 | the verdict's status, or 202 with the event enqueued, or 503 with the queue unchanged |
| WebhookGitHub.GenuineSignatureAccepted | internal/source/webhook_github.go:40-49 | a signature made from the body's MAC is accepted |
| WebhookGitHub.ForgedSignatureRejected | internal/source/webhook_github.go:35-49 | with a secret, any other non-empty signature is rejected |
| WebhookGitHub.UnsignedRequestsPass | internal/source/webhook_github.go:35-38 | an unsigned request is never refused with 401, even with a secret |
| WebhookGitHub.EnqueuedEventExtensions | internal/source/webhook_github.go:89-107 | exactly the extensions githubdeliveryid/githubeventtype/githubrepository, mirroring the header, type and repository; content type application/json |
| WebhookGitHub.MissingDeliveryGivesEmptyId | internal/source/webhook_github.go:90 | without a delivery header the event's ID is empty, so it lacks a required attribute |
| WebhookTerraform.ValidateSignature | internal/source/webhook_terraform_cloud.go:33-44 | accepts when the secret or the signature is empty; otherwise exactly the body's MAC, with no prefix |
| WebhookTerraform.RunEventId | internal/source/webhook_terraform_cloud.go:91 | "tfc-" and the nanosecond time, which parses back |
| WebhookTerraform.BuildEvent | internal/source/webhook_terraform_cloud.go:89-109 | the event has its required attributes, an ID that parses back to the receive time, the run type, a source that gives back organisation/workspace, application/json, and exactly three extensions mirroring the payload |
| WebhookTerraform.Decide | internal/source/webhook_terraform_cloud.go:48-109 | 405 iff not POST; 400 for a missing signature when a secret is set; 401 iff the signature fails; 500 iff SetData fails; enqueue iff everything passes; the event's ID, source, type, time, data and extensions |
| WebhookTerraform.Handle | internal/source/webhook_terraform_cloud.go:46-119 | the verdict's status, or 202 with the event enqueued, or 503 with the queue unchanged |
| WebhookTerraform.MacAlwaysComparedWithSecret | internal/source/webhook_terraform_cloud.go:54-70 | with a secret set, every request that gets past the signature check carried exactly the body's MAC |
| WebhookTerraform.NoSecretNoSignatureCheck | internal/source/webhook_terraform_cloud.go:34-37 | without a secret no request is refused with 401 |
| WebhookTerraform.EnqueuedEventHasRequiredAttributes | internal/source/webhook_terraform_cloud.go:90-98 | every enqueued run event has the REQUIRED CloudEvents attributes |
| WebhookTerraform.RunEventIdsDistinct | internal/source/webhook_terraform_cloud.go:91 | run events received at different times get different IDs |
| Kube.Forwarded | internal/source/kubernetes.go:58-74 | an Add or Update is forwarded exactly when its (new) object is an Event less than an hour old |
| Kube.Source | internal/source/kubernetes.go:105-110 | "kubernetes://unknown" without a namespace, otherwise that base plus "/" and the namespace, which it gives back |
| Kube.ToCloudEvent | internal/source/kubernetes.go:87-129 | fails exactly when marshalling or SetData fails; otherwise ID from the UID, type, time from LastTimestamp, subject kind/name, source, and exactly the six extensions |
| Kube.Notify | internal/source/kubernetes.go:59-135 | an event is enqueued exactly when it is forwarded, built and there is room; otherwise the queue is unchanged and the event dropped |
| Kube.EventTypeIsLowercase | internal/source/kubernetes.go:95-97 | the type is "com.kubernetes." followed by text with no upper-case ASCII letter, unchanged by lowering again |
| Kube.UpdateUsesNewObject | internal/source/kubernetes.go:67-72 | an update is judged by its new object only, as an add of it would be |
| Kube.StaleEventsDropped | internal/source/kubernetes.go:60-72 | an event last seen an hour or more ago is never forwarded |
| Kube.Recent | internal/source/kubernetes.go:62 | an event is recent exactly when it was last seen less than an hour before now |
| Kube.EventType | internal/source/kubernetes.go:95-97 | the type is "com.kubernetes." followed by the lowered kind, a dot and the lowered reason, the dot right after the kind |
| Kube.Extensions | internal/source/kubernetes.go:113-118 | exactly six routing extensions, each mirroring its field of the event |

## Left out

- HMAC-SHA256, HMAC-SHA512 and hex encoding are foreign crypto calls. They are the `MacFn` parameter; `hmac.Equal` is string equality.
- JSON decoding and encoding, and the GitHub, Kubernetes and CloudEvents SDK types, are parser and encoder parameters returning `Option`. Payloads are opaque bytes.
- Batching by count, bytes and delay (`PublishSettings`) happens inside the Pub/Sub library, so no repository logic carries it.
- Goroutines, WaitGroups and the 30-second ticker of `GitHubCollector.Start` and `Stop` are concurrency. The collector's `Start`/`Stop` are not modelled; one cycle is.
- The `ctx.Done` branch of `processEvents` is concurrency with cancellation. It can abandon buffered events, and the model drains the buffer every time.
- The race in `GetLastEventID` (check, then create under the lock) is concurrency; the model runs one caller at a time.
- Rate limiter: only whether a wait fails is modelled (`waitBudget`), not the rate or the burst.
- Wall-clock time is the `now` parameter, in nanoseconds.
- `strings.ToLower` is modelled as ASCII lowercasing, with no Unicode case mapping.
- Header lookup matches names as written in the handlers. Go's canonicalisation of header keys is not modelled.
- A channel of capacity 0: its rendezvous with a waiting receiver is not modelled, so `TrySend` on it always fails.
- HTTP server plumbing is not part of this model: `internal/receiver/receiver.go`, `internal/source/webhook.go`, the handlers' `Path`, `ListenAndServe` and the health check.
- Process wiring is not part of this model: `main.go` and `cmd/fwd/main.go`.
- Configuration discovery and informer start-up in `NewKubeSource` and `KubeSource.Start` are not part of this model.
- Client and topic creation in `NewPubSubProcessor` are foreign calls; the constructor takes over after them.
- The error `client.Close` returns from `Stop` is a foreign call and is not modelled.
- A repository listing that never ends is not modelled: the pages are a finite sequence, and a call past its end fails.
- A second visit to "elixir" in one cycle sees the same event pages, because the listing answers are a fixed sequence.
- The SDK's validation of extension names and values is not modelled; every extension is stored as set.
- Events a source sends while its `Start` runs are not modelled; sources are only started and stopped.
- PubSub.PubSubProcessor.ProcessEvents: returns when the buffer is empty and the channel open, where the goroutine would block waiting for more.
- Receiver.BuildEvent: the generated delivery ID and the event time share one clock reading, where the code reads the clock twice (internal/receiver/github.go:110 and :139).
- WebhookTerraform.BuildEvent: the run event ID and the event time share one clock reading, where the code reads the clock twice (internal/source/webhook_terraform_cloud.go:91 and :96).
- Kube.Extensions: the extension "type" has the name of a core CloudEvents attribute; an SDK version that refuses reserved extension names would drop it, which the model does not capture.
- Kube.Notify: the callbacks run on the informer's goroutine; here they are called one at a time.
