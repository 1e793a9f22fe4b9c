# Verification of the Unleash C++ SDK client

A Dafny model of the SDK's core and proofs about it: the event handler, the polling client with its
cache and storage, the toggle codec, the request it sends for a context, and usage metrics. Check the
whole project with `dafny verify dfyconfig.toml`.

## What is modelled

**Values and classes.** Each class of the source that updates its fields in place is a Dafny class whose
methods are proved against functions on values: `EventHandler`, `FlagStore`, `FileStorageProvider`,
`Fetcher`, `MutableContext`, `ContextObject`, `MetricToggle`, `MetricList`, `MetricsStore`,
`ResponseHeaders` and `UnleashClient`. Loops of the source are loops here. JSON is modelled as values
(`JsonValue.Json`); text that does not parse is `None`.

**Concurrent systems.** Threads are modelled by program counters and atomic steps. `Enabled` says when a
step can be taken, `Next` what it does, and a schedule is any sequence of enabled steps; the theorems
hold after every schedule.

| system | threads |
|---|---|
| `EventLoop` | any number of emitters, the callback being run, the dispatcher, and start/stop calls |
| `Polling` | start/stop calls, the polling thread, any number of context updates, the server |
| `FlagReads` | `Polling` with any number of threads calling isEnabled and getVariant |
| `MetricsLedger` | any number of recording threads, the sending thread, and start/stop calls |
| `WholeClient` | `Polling` and `MetricsLedger` under the start/stop calls they share |

A critical section is one step; where a thread keeps a mutex over several steps (the dispatcher and the
poller, around their waits) the steps of others that need it are disabled. The unlocked tests, the later
notifications, the evaluation of a wait's predicate and the falling asleep are separate steps, and a
sleeping thread may wake by notification, spuriously, or, where the source waits with a limit, by timeout.
History fields in the states record what happened and are read by no step.

**Assumptions.** Steps are sequentially consistent. Calls of start and stop come one after the other,
and none comes from inside a callback. Callbacks return. Strings are byte strings, so the query theorems
speak of characters below 256. A timeout may occur at any moment of a timed wait. What the network
answers, whether a file can be opened, the clock and the random session id are parameters.

## Findings

The model follows the code where it differs from the documentation or from what one might expect.

- `start()` emits Init and Ready while the event handler is stopped (src/unleashClient.cpp:26-33), so Init
  is never delivered, and a client that starts from a stored copy or a bootstrap never delivers Ready;
  every other client emits it to the started handler exactly once, when it becomes ready (`ReadyIsOfferedExactly`).
- The queue need not be empty after `EventHandler::stop()`: `QueueFillsAfterStopIff` says exactly when it can fill.
- README.md:76 says that isReady() is true once the flag store holds a snapshot; after construction from a
  stored copy or a bootstrap it is false until start(). `ReadyLagsStoreIff` says exactly when the two differ.
- README.md:207 calls the replacement of a snapshot atomic; it is two stores (src/flagStore.cpp:16-17).
  `ReplaceIsSeenHalfDoneIff` says exactly when that shows.
- A 2xx with an empty toggle array keeps the old snapshot; if it has an ETag, that is stored, and later 304s
  confirm what is stale. A 2xx without an ETag publishes its set and keeps the old tag. Over whole runs
  `RefinementIff` gives the exact condition, and `EmptySetSchedule` a run that violates it.
- A configured if-none-match header is sent with the first request. `HeaderIsHarmfulIff` says exactly which do harm.
- `stop()` notifies the polling thread and the metrics sender without their mutexes: either notification
  can be lost, and stop() then waits for the interval to run out. The two lemmas named `NotifyIsLostIff`
  say exactly when.
- A save truncates the file before it writes: a crash in between loses the stored copy, and only then
  (`RestartFindsLastWrite`).
- Uses recorded between the sender's check or copy and its reset, and uses in a payload whose send failed,
  are discarded; `NothingLostIff` gives the exact condition, `CountsAreConserved` the shortfall of each counter.

## Model

| member | source | states |
|---|---|---|
| `EventLoop.NoLostWakeup` | src/eventHandler.cpp:21-61 | For any number of emitters, in every reachable state: if the dispatcher sleeps although the queue is not empty or the handler was stopped, some emitter or stop() itself has its notification still to make. |
| `EventLoop.ExactAccounting` | src/eventHandler.cpp:26-59 | In every reachable state executed tasks, the running one and the queue together are exactly the accepted tasks minus those dropped by stop(), in acceptance order, none of them twice, and all of them if none was dropped; the queue never exceeds 30. |
| `EventLoop.RefusedOnlyWhenFull` | src/eventHandler.cpp:171-176 | In every reachable state a push is refused if and only if the queue holds 30 tasks. |
| `EventLoop.TasksRunTheirOwnCallbacks` | src/eventHandler.cpp:88-111 | Every task that ran called a callback that had been registered for its own kind of event, though callbacks are replaced and cleared meanwhile. |
| `EventLoop.EmitAloneIsItsSteps` | src/eventHandler.cpp:96-111 | The steps of an emit, run without interference, do what the emit method does: they end at the started check or for want of a callback, or go on to push and notify. |
| `EventLoop.StopAloneIsItsSteps` | src/eventHandler.cpp:21-30 | The flag and queue steps of a stop, undisturbed, do what the stop method does to the shared state. |
| `EventLoop.StartAloneIsItsSteps` | src/eventHandler.cpp:14-19 | So do those of a start, which creates the dispatcher only if the flag was down. |
| `EventLoop.RunPendingIsItsSteps` | src/eventHandler.cpp:45-59 | The dispatcher's steps, undisturbed, run the whole queue in order, as the inner loop does. |
| `EventLoopShutdown.BoundedTasksAfterStop` | src/eventHandler.cpp:22-59 | After stop() cleared the flag, and without a restart, at most running + queued + emitters past their check further tasks complete, emits from callbacks included. |
| `EventLoopShutdown.QueueFillsAfterStopIff` | src/eventHandler.cpp:26-30 | In every reachable state in which stop() has returned and the queue is empty, some run without a restart leaves a task in it if and only if an emitter is still past its check; no run leaves more tasks than there are such emitters. |
| `EventLoopShutdown.QueueMayOutliveStop` | src/eventHandler.cpp:26-30 | A schedule after which stop() has returned and the queue is not empty: an emitter past its check pushes behind the swap. |
| `EventLoopShutdown.StopTerminates` | src/eventHandler.cpp:21-37 | While stop() is under way a fixed measure bounds the steps of the stopper, the dispatcher and its callback in every schedule, and one such step is always enabled: stop() cannot deadlock. |
| `EventLoopShutdown.StopCompletes` | src/eventHandler.cpp:21-37 | From every reachable state inside stop() there is a schedule, no longer than the measure, in which it returns with the thread joined. |
| `EventHandler.EventHandler.Emit` | src/eventHandler.cpp:113-128 | An emit appends the callback of its kind with the event if the handler is started, has one, and holds fewer than 30 tasks; it changes nothing otherwise. |
| `EventHandler.EventHandler.Stop` | src/eventHandler.cpp:21-37 | A first stop clears the flag and empties the queue; a second one, or one without a start, changes nothing; callbacks stay. |
| `EventHandler.EventHandler.On` | src/eventHandler.cpp:63-94 | Setting a callback replaces, or removes, that of its kind and leaves the others, the queue and the flag as they are. |
| `EventHandler.EventHandler.RunPending` | src/eventHandler.cpp:45-59 | The inner loop runs the queue first in, first out, and leaves it empty. |
| `EventHandler.EventHandler.ClearAll` | src/eventHandler.cpp:88-94 | No callback remains registered, and queued tasks are untouched. |
| `ConditionalPolling.ConditionalPollingRefinesUnconditional` | src/unleashClient.cpp:154-197 | Against any server whose non-empty tags name non-empty sets, in every run with failures at will, the published snapshot is the one a client would hold that had transferred the whole set at each successful poll, and a stored tag names it (sections 13.1.2 and 15.4.5 of RFC 9110). |
| `ConditionalPolling.EachSuccessIsCurrent` | src/toggleFetcher.cpp:143-166 | After each 304 and each decoded 2xx the set held is the server's current one. |
| `ConditionalPolling.RefinementIff` | src/toggleFetcher.cpp:143-166 | Without the assumptions on sets and tags, in every run of truthful replies: the client agrees with an unconditional one throughout, and a stored tag names its set, if and only if no reply is an empty set over a non-empty snapshot (tagged or not) or a changed set without a tag over a stored tag. |
| `ConditionalPolling.SuccessIsCurrentIff` | src/toggleFetcher.cpp:149-163 | A truthful 304 or decoded 2xx leaves the client with the server's current set if and only if it is not an empty set over a non-empty snapshot. |
| `ConditionalPolling.ReplyKeepsCoherenceIff` | src/toggleFetcher.cpp:149-163 | A truthful reply leaves the stored tag naming the set held if and only if it is neither an empty set with a tag (over a non-empty snapshot) nor a changed set without a tag (over a stored tag). |
| `StalePolling.EmptySetLeavesStaleSnapshot` | src/toggleFetcher.cpp:155-162 | After an empty set with a tag, in every run in which the server's set stays as it is, every 304 is truthful and the client keeps its stale snapshot. |
| `StalePolling.EmptySetSchedule` | src/toggleFetcher.cpp:155-162 | From its construction, any polling client that starts with toggles and meets an empty set has a run of honest replies, with as many polls as one likes, in which it keeps its initial snapshot. |
| `StalePolling.ConditionalHeaderBreaksFirstPoll` | src/toggleFetcher.cpp:34-41 | In every run up to the first reply, a 304 is possible exactly when a configured header announces the current tag, and then the client keeps its initial snapshot. |
| `StalePolling.ConditionalHeaderSchedule` | src/toggleFetcher.cpp:34-41 | Wherever a configured header announces the current tag such a run exists. |
| `StalePolling.HeaderIsHarmfulIff` | src/toggleFetcher.cpp:14-42 | Against any server whose tags name non-empty sets, some honest run leaves the client without an unconditional client's set if and only if it polls and its configured if-none-match names a version other than the set it starts with. |
| `ToggleFetcher.FirstRequestIsUnconditionalIff` | src/toggleFetcher.cpp:14-42 | A new fetcher announces no tag if and only if neither the configured auth header nor a custom header is named if-none-match in any letter case. |
| `ToggleFetcher.DefaultHeadersAre` | src/toggleFetcher.cpp:14-36 | What the default headers hold: the client key under the configured name, unless a later default takes its place, and the fixed values; there are no others. |
| `ToggleFetcher.CustomHeaderHolds` | src/toggleFetcher.cpp:37-41 | A custom header that no later one of its lower-case name overwrites holds its own value. |
| `ToggleFetcher.RequestsCarryTheKey` | src/toggleFetcher.cpp:14-42 | Unless a header set later, default or custom, has the configured name, every request carries the client key under it. |
| `ToggleFetcher.OutcomeIs` | src/toggleFetcher.cpp:112-166 | The outcome by status, with the reason of each failure: 304 and a decoded 200 to 299 succeed, and toggles come from a decoded non-empty set. |
| `ToggleFetcher.TagIs` | src/toggleFetcher.cpp:155-163 | The stored tag and the if-none-match header change exactly on a decoded 2xx with a non-empty etag header, to its value. |
| `ToggleFetcher.ResultsWithoutError` | src/toggleFetcher.cpp:112-166 | A result has no error exactly for a 304 or a decoded 2xx, so the absent error of src/unleashClient.cpp:194-195 is never read; toggles come only from a decoded non-empty set and are in normal form. |
| `ToggleFetcher.Fetcher.constructor` | src/toggleFetcher.cpp:14-42 | The request headers: defaults, then the auth header under its lower-case name, then custom headers over both, later ones winning. |
| `ToggleFetcher.Fetcher.Fetch` | src/toggleFetcher.cpp:103-167 | The request sent carries the context as query or as body and the stored headers; the result and the stored tag and header depend only on the reply's classification. |
| `CrashRecovery.RestartRecoversLastSnapshot` | src/unleashClient.cpp:93-181 | If every save could open its file, a client rebuilt at any step of any run, with any bootstrap, starts ready from the set just stored or last published; only a crash between truncation and write leaves nothing to load. |
| `CrashRecovery.RecoveredIffNotWriting` | src/storageProvider.cpp:60-66 | Without a bootstrap to fall back on, the set due is recovered if and only if no write is under way. |
| `CrashRecovery.StoredCopyWins` | src/unleashClient.cpp:93-111 | Before anything is fetched, a stored non-empty copy wins over every bootstrap and is found again by further restarts. |
| `CrashRecovery.RestartFindsLastWrite` | src/storageProvider.cpp:31-67 | In every run, whatever saves could not open the file: outside a write a rebuilt client, with any bootstrap, starts from the set last written, and before the first write the copy is as the constructor left it; inside a write nothing can be loaded. |
| `CrashRecovery.RestartNeverInvents` | src/storageProvider.cpp:31-67 | Even when saves fail to open the file, outside a write the copy is the initial one or some set that was fetched or published. |
| `Store.StoredNormalSetIsLoaded` | src/storageProvider.cpp:31-66 | A set in normal form is loaded unchanged from any document that stores it. |
| `Store.LoadSaveLoad` | src/storageProvider.cpp:31-66 | Loading, saving in any iteration order, and loading again gives the same set. |
| `Store.FlagStore.Replace` | src/flagStore.cpp:13-18 | A null snapshot changes nothing; any other becomes current and makes the store ready. |
| `Store.FileStorageProvider.Get` | src/storageProvider.cpp:31-47 | A missing, blank or undecodable file gives no set, any other the decoded one. |
| `Store.FileStorageProvider.Save` | src/storageProvider.cpp:49-67 | The file holds the set in some iteration order, or is untouched if it could not be opened. |
| `JsonCodec.EntryDecodesIffValid` | src/jsonCodec.cpp:9-76 | An entry decodes if and only if it meets the declarative description of a valid entry, and what it gives is in normal form. |
| `JsonCodec.DecodedEntryIs` | src/jsonCodec.cpp:9-76 | What a valid entry decodes to: its name, its enabled value, its impressionData or false, and its variant if the toggle is enabled and the variant is named and enabled, with the payload exactly if that has a type and a value; else the disabled variant. |
| `JsonCodec.EntryErrorIs` | src/jsonCodec.cpp:9-62 | The error names the first check that failed. |
| `JsonCodec.ResponseOutcome` | src/jsonCodec.cpp:80-111 | A response decodes exactly when it has an array of valid entries under "toggles"; the set then holds, for each name, the first entry of that name, and otherwise the error says what is missing. |
| `JsonCodec.DecodeEntriesOutcome` | src/jsonCodec.cpp:96-110 | An array decodes if and only if every entry is valid; otherwise the error is that of the least invalid index. |
| `JsonCodec.DecodeClientFeaturesResponse` | src/jsonCodec.cpp:80-111 | The loop with its early return computes the specified decoding, error cases included. |
| `JsonCodec.EncodeClientFeaturesResponse` | src/jsonCodec.cpp:113-139 | The document lists every toggle once, in some order of the keys. |
| `JsonCodec.EncodedEntryIs` | src/jsonCodec.cpp:113-139 | Every field of a toggle and of its variant is found under its name in the encoding, the payload exactly if its type is not empty. |
| `JsonCodec.EntryRoundTrip` | src/jsonCodec.cpp:9-139 | Encoding and decoding one toggle gives its normal form: the disabled variant on a disabled toggle or an unusable variant, no payload of empty type. |
| `JsonCodec.RoundTripIsNormalisationIff` | src/jsonCodec.cpp:113-139 | For every set and every iteration order, encoding and decoding normalises the set if and only if each key is its toggle's name. |
| `JsonCodec.NormaliseIsIdempotent` | src/jsonCodec.cpp:36-75 | Normalising twice is normalising once. |
| `JsonCodec.NormalFormIs` | src/jsonCodec.cpp:36-75 | The normal form keeps name, enabled and impressionData, and the variant of an enabled toggle if that is named and enabled, less a payload of empty type; else the variant is the disabled one. |
| `JsonCodec.DecodedSetsAreNormal` | src/jsonCodec.cpp:80-111 | Every decoded set is its own normal form, keyed by name. |
| `JsonCodec.DecodeEncodeDecode` | src/jsonCodec.cpp:80-139 | Decode, encode in any order, decode is decode. |
| `Domain.MakeVariant` | src/variant.cpp:19-23 | A variant has a payload exactly when it is enabled and one was given. |
| `Domain.FirstWinsHoldsFirstOccurrences` | src/toggleSet.cpp:14-20 | The set's keys are exactly the names present, each mapped to its first occurrence. |
| `Domain.ToggleSetOf` | src/toggleSet.cpp:7-20 | The inserting loop builds that first-wins set. |
| `ContextQuery.QueryRoundTrip` | src/toggleFetcher.cpp:66-99 | For every context, splitting the query at '?', '&' and '=' and percent-decoding gives back exactly the ordered non-empty fields (sections 2.1, 2.3 and 3.4 of RFC 3986). |
| `ContextQuery.PercentRoundTrip` | src/toggleFetcher.cpp:46-64 | Percent-decoding undoes the encoder on every byte string. |
| `ContextQuery.UnreservedIs` | src/toggleFetcher.cpp:53-54 | Exactly the unreserved characters of section 2.3 of RFC 3986 stay unencoded. |
| `ContextQuery.EncodedCharIs` | src/toggleFetcher.cpp:52-60 | An unreserved byte stays; any other becomes a per cent sign and its two hexadecimal digits. |
| `ContextQuery.PrintedPairsParse` | src/toggleFetcher.cpp:66-99 | The parser undoes the printer on every list of byte pairs. |
| `ContextQuery.SameQuerySameFields` | src/toggleFetcher.cpp:66-99 | Two contexts with the same query agree on every non-empty field. |
| `ContextQuery.QueryAndBodyAgree` | src/jsonCodec.cpp:142-165 | The query carries exactly the fields of the posted body that have a non-empty value. |
| `ContextQuery.NoNameCollisions` | src/toggleFetcher.cpp:80-96 | No two query parameters of a context have the same name. |
| `ContextQuery.QueryFieldIs` | src/toggleFetcher.cpp:80-90 | Each fixed field is in the query under its name exactly if it is set and not empty. |
| `ContextQuery.FieldOrder` | src/toggleFetcher.cpp:80-96 | When no field is empty: the six fixed fields in order, then the properties as listed, as properties[key]. |
| `ContextQuery.BuildContextQuery` | src/toggleFetcher.cpp:66-99 | The appending loops print the non-empty fields in order. |
| `ContextQuery.UrlEncodeContext` | src/toggleFetcher.cpp:46-64 | The appending loop is the percent-encoding that the decoder inverts. |
| `ContextQuery.EncodeContextRequestBody` | src/jsonCodec.cpp:142-165 | The object filled in place is the body whose fields the query is compared with. |
| `Context.PropertiesAreLastWrites` | src/context.cpp:32-46 | After any sequence of writes the list has distinct, settable keys, exactly those written, each with its last value, in the order of first writes. |
| `Context.MutableContext.SetProperty` | src/context.cpp:32-46 | The search-and-edit in place is that write; empty and reserved keys are ignored. |
| `Context.SetProperties` | src/context.cpp:32-46 | Any sequence of calls leaves the last value written under each settable key. |
| `Context.ContextObject.constructor` | src/context.cpp:64-74 | The application name and session id are never empty, and an empty environment is absent. |
| `Context.ContextObject.UpdateMutableContext` | src/context.cpp:124-126 | All mutable fields are replaced, the identity fields kept. |
| `Polling.UpdateContextIs` | src/unleashClient.cpp:317-324 | The step of a context update replaces the mutable context as a whole, absent fields included, keeps the identity fields, and raises the flag. |
| `Client.UnleashClient.UpdateContext` | src/unleashClient.cpp:317-324 | So does the method. |
| `Context.SettableIs` | src/context.cpp:32-38 | A property can be set exactly if its key is neither empty nor one of the six reserved names. |
| `HttpHeaders.TrimSplits` | src/httpClient.cpp:154-162 | Every string is its trimmed form between two stretches of white space. |
| `HttpHeaders.TrimRemovesPadding` | src/httpClient.cpp:154-162 | Whatever white space surrounds a trimmed string, trimming gives that string. |
| `HttpHeaders.HeaderLineIsRead` | src/httpClient.cpp:125-146 | A header line is read back under its lower-case name, whatever the case of the name and the white space around the value. |
| `HttpHeaders.OtherLinesAreIgnored` | src/httpClient.cpp:129-144 | A line without a colon, or with nothing but white space after it, leaves the map as it is. |
| `HttpHeaders.LowerCaseIs` | src/httpClient.cpp:138-139 | The characters 65 to 90 become 97 to 122, all others stay. |
| `HttpHeaders.ParsedHeadersAreGood` | src/httpClient.cpp:125-146 | After any lines, names are lower-case and values trimmed and non-empty. |
| `HttpHeaders.ResponseHeaders.HeaderCb` | src/httpClient.cpp:125-146 | One line updates the map as specified and is wholly consumed. |
| `ClientLifecycle.ReadyMeansNonEmptySnapshot` | src/unleashClient.cpp:27-184 | In every run a ready client has a ready store, a ready store a non-empty snapshot, and neither flag is ever cleared. |
| `ReadinessLag.ReadyLagsStoreIff` | src/unleashClient.cpp:21-184 | In every run, the store is ready and the client is not exactly when: the client started with toggles and its first start() has not set the flag (between calls: start() was never called); or it started without and is between the two assignments of its first publication. |
| `ReadinessLag.ReplaceIsSeenHalfDoneIff` | src/flagStore.cpp:13-18 | In every run, a snapshot is in a store that is not ready exactly between the two writes of the first publication of a client that started without toggles. |
| `ClientLifecycle.ReadyIsOfferedOnce` | src/unleashClient.cpp:21-186 | Over any sequence of starts and stops no Init is enqueued, at most one Ready, only after a fetched snapshot was published, and before the Update of the same poll. |
| `ClientLifecycle.NoReadyEventFromCacheOrBootstrap` | src/unleashClient.cpp:26-33 | A client that starts from a stored copy or a bootstrap never enqueues a Ready event. |
| `ClientLifecycle.ReadyIsOfferedExactly` | src/unleashClient.cpp:21-186 | In every run, Ready has been emitted to the started handler once if the client started without toggles, is ready, and has gone past the emit of the poll that made it so; otherwise not at all. |
| `ClientLifecycle.NoLostContextUpdate` | src/unleashClient.cpp:125-152 | After the first snapshot either the update flag is up or the context last taken is the current one; a poller asleep with the flag up is about to be notified. |
| `ClientLifecycle.ContextIsSentOrFlagged` | src/unleashClient.cpp:125-324 | While the poller works, the current context was sent with the latest fetch, is in hand for the next, or is flagged. |
| `ClientShutdown.AtMostOneMoreFetch` | src/unleashClient.cpp:119-152 | Once the exit flag is up, and while it stays up, at most one more fetch begins, from any program point. |
| `ClientShutdown.PollerStepsAreBounded` | src/unleashClient.cpp:134-152 | With the exit flag up, every schedule contains only a bounded number of the poller's steps. |
| `ClientShutdown.PollerLeavesItsLoop` | src/unleashClient.cpp:134-152 | With the exit flag up, the poller's own steps, timeouts in place of notifications, take it out of its loop. |
| `ClientShutdown.StopTerminates` | src/unleashClient.cpp:41-59 | As far as the poller is concerned: once the exit flag is up, a fixed measure bounds the steps of stop() and of the poller in every schedule until stop() returns, and one of them that needs no notification is always enabled. |
| `ClientShutdown.StopCompletes` | src/unleashClient.cpp:41-59 | As far as the poller is concerned: from every reachable state inside stop() there is a schedule, no longer than the measure, in which it returns with the poller joined and the handler stopped. |
| `WholeClient.WholeRunsProject` | src/unleashClient.cpp:21-59 | A run of the whole client, in which start() and stop() serve both threads in the source's order, is a run of the polling system and one of the metrics system, so the theorems on both hold of it. |
| `WholeClient.StopTerminates` | src/unleashClient.cpp:41-59 | Once stop() has raised the flag, a fixed measure bounds the steps of stop(), the poller and the sender in every schedule until it returns, and one of them that needs no notification is always enabled. |
| `WholeClient.StopCompletes` | src/unleashClient.cpp:41-59 | From every reachable state inside stop() there is a schedule, no longer than the measure, in which it returns with sender and poller joined and the handler stopped. |
| `WholeClient.ReturnsUnwokenIff` | src/unleashClient.cpp:46-54 | At every moment of the joins, stop() can return without a timeout or another wakeup if and only if neither thread is asleep or past its last test before sleeping. |
| `WholeClient.SenderFindsHandlerStarted` | src/unleashClient.cpp:33-56 | While the sender exists the event handler is started, so its error events pass the started check. |
| `ClientShutdown.NotifyIsLostIff` | src/unleashClient.cpp:46-54 | From the moment stop() notifies, it can find the poller asleep if and only if the poller then stood between its test and its going to sleep; and it can return without a timeout or another wakeup if and only if the poller did not. |
| `ClientShutdown.SleepingThroughStopMeansMissedNotify` | src/unleashClient.cpp:46-54 | stop() waits for a sleeping poller only if its notification fell between the poller's test and its going to sleep. |
| `ClientShutdown.StopMayWaitForTimeout` | src/unleashClient.cpp:46-54 | Such a schedule exists for every polling client: the wakeup of stop() can be lost. |
| `FlagReads.ReadsAreLinearizable` | src/unleashClient.cpp:258-303 | A call made when the client is ready takes its answer, the recorded use (the flag's own enabled value and variant name) and the impression from one non-empty snapshot current at some moment of the call, and the impression's context was current at some moment of it; only a call made before may give the default and do nothing, and a call that loaded a snapshot leaves a ready client. |
| `FlagReads.ReadersOnlyEmit` | src/unleashClient.cpp:258-303 | A run with readers is, for the client, a run in which impressions are emitted, so the other theorems hold beside readers. |
| `Client.UnleashClient.constructor` | src/unleashClient.cpp:11-15 | A new client starts from the stored copy if it is not empty, else from a bootstrap in use, else from nothing; it is not ready. |
| `Client.UnleashClient.InitializeToggleCache` | src/unleashClient.cpp:93-111 | A non-empty stored copy replaces the bootstrap; a bootstrap in use is stored only when there is no such copy. |
| `Polling.InitialStoreIs` | src/unleashClient.cpp:93-111 | A stored non-empty copy wins; without one a non-empty bootstrap is used only if it may override; else the store is empty and not ready. |
| `Client.UnleashClient.SingleFetchToggles` | src/unleashClient.cpp:154-197 | One poll sends the given context, and stores, publishes and announces exactly what the reply's classification calls for. |
| `Client.SuccessfulPoll` | src/unleashClient.cpp:176-186 | A poll that brings toggles publishes them, makes the client ready, and emits Update, after Ready if it was not ready before. |
| `Client.FailedPoll` | src/unleashClient.cpp:157-165 | A failed poll emits one Error event and leaves store and ready flag alone. |
| `Client.UnleashClient.FeaturePollingLoop` | src/unleashClient.cpp:119-152 | The loop fetches once more for each turn before the exit flag is seen, each time for the context as the updates so far have left it and with the tag then stored; store, flags, events and stored copy are the fold of the replies. |
| `Client.ContextAfterIs` | src/unleashClient.cpp:125-152 | The context fetched for has the mutable fields of the last update and the identity it always had. |
| `Client.LastWrittenSetIsStored` | src/unleashClient.cpp:176-180 | The stored copy after the loop is of the last set that could be written, and untouched if there was none. |
| `Client.LastFetchedSetIsHeld` | src/unleashClient.cpp:176-180 | After any replies the store holds the toggles of the last one that carried any. |
| `Client.PollIsItsSteps` | src/unleashClient.cpp:154-197 | For every reply, and whether or not the copy can be written, the system's steps of a poll, undisturbed, do what the method does. |
| `Client.SuccessfulPollIsItsSteps` | src/unleashClient.cpp:176-186 | In particular for a poll that brings toggles. |
| `Client.FailedPollIsItsSteps` | src/unleashClient.cpp:157-171 | And for a failed poll: one Error event and nothing else. |
| `Client.UnleashClient.Start` | src/unleashClient.cpp:21-39 | A start emits nothing to the stopped handler, makes the client ready if the store is, and starts the handler; a second start does nothing. |
| `Client.UnleashClient.Stop` | src/unleashClient.cpp:41-59 | A stop raises the exit flag and stops the handler; a second stop does nothing. |
| `Client.UnleashClient.IsEnabled` | src/unleashClient.cpp:258-279 | The answer is the flag's enabled value, which is also recorded; an impression is emitted exactly if the flag or the configuration asks for it; nothing happens if the client is not ready or the flag unknown. |
| `Client.UnleashClient.GetVariant` | src/unleashClient.cpp:281-303 | The same for variants, with the disabled variant as default. |
| `Client.UnleashClient.SendMetrics` | src/unleashClient.cpp:237-248 | A non-empty window is sent whole, closed at the time of the payload, and reset, at the later time of the reset, whether or not the send succeeds; an empty one is reset. |
| `Client.UnleashClient.WaitAndMaybeSend` | src/unleashClient.cpp:203-220 | A pass of the sending loop sends the window unless the exit flag is up when the wait ends, and emits an Error event exactly for a failed send. |
| `MetricsLedger.EachUseHasOnePlace` | src/unleashClient.cpp:237-248 | Under every interleaving each recorded use is in exactly one payload, or in exactly one gap between a copy and the reset after it, or still in the list. |
| `MetricsLedger.PayloadsAreExact` | src/metricStore.cpp:14-63 | Payload k tallies exactly the uses after the preceding reset and before its copy, the list those since the last reset. |
| `MetricsLedger.ConservedIffNoGaps` | src/unleashClient.cpp:238-246 | The payloads followed by the list are the recorded uses if and only if nothing was recorded in a gap; in every run the shortfall is the gaps' total. |
| `MetricsLedger.NothingLostIff` | src/unleashClient.cpp:242-247 | The server and the list together know every use if and only if no use fell in a gap and no send failed. |
| `MetricsLedger.ErrorsAreFailedSends` | src/unleashClient.cpp:210-218 | In every run the error events of the sender are as many as its failed sends, but for a report just under way; there were none exactly when every payload was delivered. |
| `MetricsLedger.SendIsItsSteps` | src/unleashClient.cpp:203-248 | The sender's steps, undisturbed, send a non-empty window whole, reset it, and report a failure once, as the method does. |
| `MetricsLedger.CountsAreConserved` | src/unleashClient.cpp:237-248 | In every run, for every flag and each counter (yes, no, each variant), payloads, list and gaps add up to the uses recorded, but for whole turns of a 32-bit counter; without gaps nothing is missing. |
| `MetricsLedger.UseInGapIsLost` | src/unleashClient.cpp:238-246 | A schedule in which a use recorded between copy and reset is in no payload and no longer in the list. |
| `MetricsLedger.PayloadIsNeverEmpty` | src/unleashClient.cpp:238-245 | The payload unwrapped by the sender is present under every interleaving. |
| `MetricsShutdown.AtMostOneMoreSend` | src/unleashClient.cpp:199-235 | Once the exit flag is up, and until it is lowered, at most one more send is made. |
| `MetricsShutdown.SenderStepsAreBounded` | src/unleashClient.cpp:203-235 | Once the exit flag is up, and until it is lowered, every schedule contains only a bounded number of the sender's steps. |
| `MetricsShutdown.SenderLeavesItsLoop` | src/unleashClient.cpp:203-235 | With the exit flag up the sender's own steps, timeouts in place of notifications, take it out of its loop. |
| `MetricsShutdown.NotifyIsLostIff` | src/unleashClient.cpp:46-52 | The sender can be joined without a timeout or accidental wakeup if and only if, when stop() notified it, it did not stand between its test and its going to sleep. |
| `MetricsShutdown.StopMayWaitForInterval` | src/unleashClient.cpp:46-52 | Every client that sends metrics has a schedule in which that notification is lost. |
| `Metrics.TallyCountsUses` | src/metricToggle.cpp:30-44 | Every counter of the list is the number of matching uses modulo 2^32, and a flag is listed exactly when it was used. |
| `Metrics.MatchingIs` | src/metricToggle.cpp:30-44 | The number of matching uses is the number of places in the record that match. |
| `Metrics.PayloadCarriesTally` | src/jsonCodec.cpp:167-200 | Each counter of each flag, and nothing else, can be read back from the payload, and so can the window's start and stop and the two names. |
| `Metrics.MetricToggle.UpdateVariantMetric` | src/metricToggle.cpp:37-44 | The counters incremented in place count one more use; an empty variant name is not counted. |
| `Metrics.MetricList.AddEnableMetricData` | src/metricList.cpp:9-16 | Find-or-insert records one more use and leaves every other flag's counters alone. |
| `Metrics.MetricList.AddVariantMetricData` | src/metricList.cpp:18-25 | The same with a variant. |
| `Metrics.MetricsStore.Reset` | src/metricStore.cpp:14-18 | The list is empty and the window starts now. |
| `Metrics.MetricsStore.ToJsonMetricsPayload` | src/metricStore.cpp:45-63 | No payload for an empty list, else one that carries the list and its window, which is left as it is. |

## Left out

- Transport (libcurl, TLS, sockets, redirects): a reply is an arbitrary value.
- JSON text: parsing and dumping belong to the JSON library; text is an encoding of the modelled values.
- Weak memory orders, and the unlocked read in UnleashClient::context().
- Concurrent start and stop calls, and stop called from a callback.
- The worker loops of the dispatcher and of the metrics sender appear as steps of their systems, not as while loops, because every pass interleaves with other threads; the polling loop appears in both forms, and one pass of the sending loop as WaitAndMaybeSend.
- Client.UnleashClient.FeaturePollingLoop: other threads act only once per turn, while the loop waits; the finer interleavings are those of the Polling system.
- EventLoop.ExactAccounting: a task's own effects are not modelled; whether it throws makes no difference to the handler.
- ClientLifecycle.ReadyIsOfferedExactly: counts, as does ReadyIsOfferedOnce, the emit calls that pass the started check; whether a callback is registered and the queue has room is the subject of the EventLoop theorems.
- CrashRecovery.RestartRecoversLastSnapshot: assumes that saves can open the file; RestartFindsLastWrite says exactly what remains without that.
- LocalStorageProvider, which stores nothing, and the file naming of FileStorageProvider (safeName, default path).
- Timestamps, UUIDs and random session ids: parameters or absent. The SDK version, which the build sets, has its default.
- ClientConfig setters and validation, `_sdkState`, error message texts, and MetricSender beyond an answer of success or failure.
