# Verification of the event pipeline

A Dafny model of the gologger event service, with machine-checked proofs about it. `dafny verify dfyconfig.toml`
checks everything. The project covers four parts of the service:

1. **Dispatcher, publisher and connections** as one labelled transition system. A label is one atomic action of one
   goroutine: taking the admission mutex, reading the flag, sending on the job channel, dequeuing, processing, storing,
   offering an event to one subscriber, sending a result, closing a channel, the steps of the once-guarded shutdown, a
   read, a write of the pump, and so on. Every worker and every connection reader has an explicit program counter.
   Sending on a closed channel or closing it twice does not disable a label: it sets a `panicked` flag, as Go panics,
   and one of the theorems is that the flag is never set. On top of the transition system, the dispatcher and the publisher
   are classes over the memory store, and each of their methods is proved to perform a run of it.
2. **The JSON Lines store** as a class over a directory of named byte sequences, with the ID index, first-fit placement
   into weekly numbered files, newline framing with the scanner's 1 MiB limit, reload, retention and the filtered,
   stably sorted query; and the memory store as the reference it refines.
3. **The fixed-window limiter** and what its windows imply for sliding intervals.
4. **Redaction and event processing** as two recursive passes over nested maps and lists. Go ranges over maps in no
   particular order and keys may collide after cleaning, so the result of each pass is specified as a relation that
   admits every order; the methods pick keys arbitrarily and are proved against it.

## Structure

| module | what it models |
|---|---|
| `Contracts`, `Channels`, `Texts` | events, filters and free-form fields; Go channels as histories; the parts of Go's text packages in use |
| `Pipeline` | the transition system: configuration, states, labels, runs |
| `PipelineJobs`, `PipelineRecords`, `PipelineSubs` | the inductive invariant, part by part: gate and jobs, store and results, subscriptions |
| `PipelineTheorems`, `PipelineDrain`, `PipelineStream`, `PipelineOrder` | what follows for every run |
| `PipelineExamples` | a run in which the shutdown count is short |
| `PipelineSections`, `Publisher`, `Dispatcher` | the classes, and their methods as runs |
| `Connections` | connections above the pipeline, as one transition system |
| `ConnectionTheorems`, `ConnectionModes`, `ConnectionAcks`, `ConnectionAnswers`, `ConnectionProgress`, `ConnectionStream` | its invariant, and what follows: sides, acks, every response, progress, monitors |
| `ConnectionLoops` | a connection's outbound queue and read loops as a class over the dispatcher |
| `StorePort`, `MemoryStore` | the storage port and the memory store |
| `Directory`, `Framing`, `Naming`, `Sorting` | files, records in files, file names and weeks, the stable sort |
| `JsonStorage`, `Packing`, `StorageTheorems`, `Retention`, `StorageRefinement` | the JSON Lines store and its runs |
| `StorageExamples` | settings and runs that meet the assumptions about the JSON Lines store |
| `RateLimit` | the limiter |
| `Redaction`, `Processor`, `ProcessorTheorems` | the two passes and their composition |
| `Redactions`, `Arrivals`, `Rejections`, `KeyNames` | acceptance and rejection in terms of the arriving event, with names and limits spelled out |
| `MaskEffects`, `Masking`, `KeySafety` | that masked parts do not reach the result; when the first pass masks all it should; when the second pass alone would do |

## Assumptions

- `Process` and `Store` return. The pipeline's theorems hold for any processor and any store whose success means that
  the event's ID is non-empty and new (`Pipeline.Storable`); both stores are proved to keep that promise.
- A file write succeeds, or fails and leaves the disk alone. The code can leave bytes or an empty file behind when a
  write, sync or close fails (`internal/adapters/storage/json_file_storage.go:112-132`).
- One process writes to a directory (`README.md:554`), and files named `events_*.jsonl` there were written by the store.
- JSON encoding is an abstract encode/decode pair. An encoding holds no newline byte, as section 7 of RFC 8259 requires
  of control characters in strings, and decoding it gives back the ID, instant, level, service and type. For the text
  fields this means that they are valid UTF-8, which holds of anything that arrived as JSON. Other fields may change.
- The compact date of a week's first day holds no underscore, and different weeks have different dates.
- The last two assumptions can be met: `StorageExamples` gives a store that meets them, with runs of any length in which
  every store succeeds.
- Clock readings of the limiter do not decrease in lock order and are not the zero time. The code reads the clock before
  it takes the lock (`internal/security/rate_limit.go:40-41`), so this is an assumption.
- The two regular expressions, lower-casing outside ASCII, the civil year of an instant, and the encoded size of the
  two maps are parameters. The generated event ID and the clock reading of `ProcessEvent` are arguments.
- Time limits and cancelled contexts are choices the model makes freely.

## Where code and documents differ

The model follows the code.

- The design wants invalid UTF-8 rejected (`developer/BLUEPRINT.md:175`). Redaction runs first and replaces the
  offending bytes, so an event with such a message is accepted (`ProcessorTheorems.InvalidBytesAccepted`), and the error
  is reported exactly when the level is invalid (`ProcessorTheorems.InvalidUtf8OnlyInLevel`). Go's JSON decoder replaces
  such bytes as well, so this concerns callers that hand over events directly.
- The design wants events that miss the shutdown deadline counted (`developer/BLUEPRINT.md:451`). `Shutdown` returns the
  queue length. It can return 0 while an accepted event is unfinished (`PipelineExamples.DeadlineUndercounts`), and is
  exact if and only if no worker holds a job (`PipelineDrain.DeadlineCount`).
- A limit of `n` per window is not a limit of `n` in every interval of a window's length: up to `2n - 1` requests can be
  admitted in one, and that is attained (`RateLimit.SlidingIntervalAttained`). The limit bounds every such interval if and
  only if it is 1 or a window is a single tick of the clock (`RateLimit.LimitBoundsWindows`).
- `Store` accepts records of any size, but a record of 1 MiB or more makes its file unreadable, and with it every query
  and the next start: `StorageExamples.OversizedRecord` gives the input, `StorageTheorems.StoreThenGet` and
  `StorageRefinement.ReadableExactly` the exact condition. On such a disk `Get` still answers `not found` for an ID that
  the index does not hold, where a scan would fail (`StorageTheorems.GetEqualsScan`).
- Values under sensitive keys are to be replaced by a marker (`README.md:236-240`). Redaction looks at a key as it
  arrives, before control characters are stripped, so a key can be sensitive in the result and its value in clear
  (`Masking.SplitKeyUnmasked`). The promise holds at every depth if and only if each key that is sensitive once cleaned
  is so on arrival, or holds a text that becomes the marker (`Masking.MaskedExactly`).
- The design wants a repeated ID treated as the same event (`developer/BLUEPRINT.md:331`). Both stores refuse it with an
  error, so of several submissions of one ID at most one is acknowledged (`PipelineTheorems.OneSuccessPerID`, `ConnectionAcks.OneAckPerID`).
- `sanitizeMap` rejects prohibited keys, but by itself lets a key through that becomes prohibited once control characters
  are stripped (`ProcessorTheorems.SecondPassAloneLetsKeysThrough`). Alone it is safe if and only if no key is prohibited
  once it is cleaned (`KeySafety.SecondPassAloneSafe`); after redaction it always is.
- Nothing calls `Dispatcher.Shutdown` (`internal/adapters/websocket/handler.go:121-127`), and no subscription is ever
  acknowledged. The theorems about shutdown are about the dispatcher itself.

## Model

| member | source | states |
|---|---|---|
| PipelineTheorems.StepInv | internal/adapters/websocket/dispatcher.go:77-162 | every enabled action of any goroutine keeps the invariant that ties gate, queue, workers, ack channels, store, publications and subscriptions together |
| PipelineTheorems.ReachableInv | internal/adapters/websocket/dispatcher.go:77-162 | the invariant holds in every state any interleaving can reach |
| PipelineTheorems.ChannelSafety | internal/adapters/websocket/dispatcher.go:92-127 | no reachable state sends on or closes a closed channel; the job channel is closed exactly when the flag is down outside the mutex, a subscription's channel exactly when it has left the map |
| PipelineTheorems.Conservation | internal/adapters/websocket/dispatcher.go:92-162 | every accepted job is in exactly one of queue, one worker, finished; its ack channel gets at most one result, and exactly one by the time it is closed |
| PipelineTheorems.ReplyNeverBlocks | internal/adapters/websocket/dispatcher.go:156-160 | a worker about to send a result can always do so at once, on an open channel |
| PipelineTheorems.ResultMeansStored | internal/adapters/websocket/dispatcher.go:147-160 | a result is error-free if and only if its event is stored, and if and only if it was handed to Publish; a failed job stores nothing |
| PipelineTheorems.OneSuccessPerID | internal/adapters/websocket/dispatcher.go:147-160 | however many workers race on one event ID, at most one error-free result is ever sent for it |
| PipelineTheorems.PublishedOnce | internal/adapters/websocket/dispatcher.go:152-154 | no event ID is published twice |
| PipelineDrain.DrainedMeansDone | internal/adapters/websocket/dispatcher.go:129-138 | Shutdown can return 0 without error only when the queue is empty and every accepted job has its one result |
| PipelineDrain.DeadlineCount | internal/adapters/websocket/dispatcher.go:135-141 | the unfinished jobs number the queue length plus the busy workers, so the returned number is exact if and only if no worker holds a job, and short by at most the worker count |
| PipelineDrain.BoundedOvertaking | internal/adapters/websocket/dispatcher.go:144-161 | when a result is sent, at most workerCount - 1 earlier accepted jobs are unfinished |
| PipelineExamples.DeadlineUndercounts | internal/adapters/websocket/dispatcher.go:135-141 | a reachable state in which Shutdown can return a count of 0 at its deadline while one accepted job is unfinished |
| PipelineDrain.DrainRank | internal/adapters/websocket/dispatcher.go:144-162 | after the close every worker action lowers a lexicographic rank, nothing else changes it, and the channel stays closed |
| PipelineDrain.DrainProgress | internal/adapters/websocket/dispatcher.go:144-162 | until all workers have exited, a worker or a pending subscription close can always act |
| PipelineDrain.DrainCompletes | internal/adapters/websocket/dispatcher.go:117-162 | from any state after the close, worker actions alone lead to a state where all have exited and every accepted job is answered |
| PipelineStream.SubscriberAccounting | internal/adapters/websocket/publisher.go:34-78 | buffers stay within bufferSize; received and buffered events are a subsequence of what Publish brought; received, buffered, dropped and those a worker is still bringing together are the matching publications begun while registered |
| PipelineStream.DropOnlyWhenFull | internal/adapters/websocket/publisher.go:54-64 | an event is dropped only by Publish, only on a full buffer, and without touching the buffer |
| PipelineStream.EarlySubscription | internal/adapters/websocket/dispatcher.go:111-115 | a subscription opened before the first accepted job misses no publication |
| PipelineStream.LiveStreamIsQuery | internal/adapters/websocket/dispatcher.go:147-154 | a subscription that missed and dropped nothing holds, as a multiset, what a query with its filter selects from the store, once no worker stands between Store and delivery |
| PipelineOrder.SingleWorkerOrder | internal/adapters/websocket/dispatcher.go:144-161 | with one worker, processing, results, stores and publications all follow submission order |
| PipelineOrder.LiveStreamIsQueryInOrder | internal/adapters/websocket/dispatcher.go:144-161 | with one worker the live stream equals the query as a sequence |
| PipelineSections.SubmitIsRun | internal/adapters/websocket/dispatcher.go:92-108 | each outcome of Submit's critical section is a run of the transition system; a refused submission leaves the state as it was |
| PipelineSections.StopIsRun | internal/adapters/websocket/dispatcher.go:122-127 | the once body is a run that ends with flag down, channel closed and mutex free |
| PipelineSections.PublishIsRun | internal/adapters/websocket/publisher.go:50-65 | a worker can finish its Publish, one subscription after another in any order, and ends with every live subscription offered the event once |
| PipelineSections.CompletedIsRun | internal/adapters/websocket/dispatcher.go:147-160 | whatever the other workers are doing, a worker that has taken a job has a run that answers and closes it and stores and publishes its event exactly on success |
| Publisher.MatchesFilter | internal/adapters/websocket/publisher.go:80-118 | the publisher's own filter decides exactly what the memory store's decides: every non-empty criterion lists the event's value |
| Publisher.EventPublisher.constructor | internal/adapters/websocket/publisher.go:23-32 | an empty map, and 32 slots where the argument is not positive |
| Publisher.EventPublisher.Subscribe | internal/adapters/websocket/publisher.go:34-48 | the effect on all subscriptions is the transition system's subscribe step |
| Publisher.EventPublisher.Publish | internal/adapters/websocket/publisher.go:50-65 | whatever the map order, every live subscription is offered the event exactly once and no other one changes |
| Publisher.EventPublisher.Close | internal/adapters/websocket/publisher.go:71-78 | the first close removes the subscription and shuts its channel, a second does nothing; membership in the map and an open channel stay equivalent |
| Publisher.EventPublisher.Receive | internal/adapters/websocket/publisher.go:67-69 | the reader takes the oldest buffered event |
| Dispatcher.NewDispatcher | internal/adapters/websocket/dispatcher.go:42-75 | succeeds if and only if there is a processor, a store, a positive queue size and a positive worker count, and then starts in the transition system's initial state |
| Dispatcher.Dispatcher.Submit | internal/adapters/websocket/dispatcher.go:77-109 | refused for shutdown exactly when the flag is down and for a full queue exactly when it is full and the context is live; acceptance appends one job, refusal changes nothing; the state stays reachable, wherever the workers are |
| Dispatcher.Dispatcher.Subscribe | internal/adapters/websocket/dispatcher.go:111-115 | once the publisher's write lock is free, the new subscription sees everything published from then on; the state stays reachable |
| Dispatcher.Dispatcher.Shutdown | internal/adapters/websocket/dispatcher.go:117-142 | however often it is called, the channel is closed once; a drained return means every accepted job is answered; a deadline return is short by exactly the busy workers |
| Dispatcher.Dispatcher.Take | internal/adapters/websocket/dispatcher.go:147 | a free worker takes the first queued job; the state stays reachable |
| Dispatcher.Dispatcher.Finish | internal/adapters/websocket/dispatcher.go:148-160 | on the memory store, whatever the other workers are doing, a taken job succeeds exactly when processing did and the ID is non-empty and new; store contents and pipeline log stay equal; the state stays reachable |
| Dispatcher.Dispatcher.Serve | internal/adapters/websocket/dispatcher.go:147-160 | an iteration closes the oldest queued job's channel on exactly one result, which carries its own processed event and, if error-free, a stored one; no other job changes |
| Dispatcher.Dispatcher.Work | internal/adapters/websocket/dispatcher.go:144-162 | the worker loop answers each queued job in queue order and no other, beside any other workers, and exits exactly if the channel is closed |
| Dispatcher.Dispatcher.TakeResult | internal/adapters/websocket/connection.go:206-207 | a submitter receives the result of its job; the state stays reachable |
| Dispatcher.Dispatcher.CloseSubscription | internal/adapters/websocket/publisher.go:71-78 | once the write lock is free, a subscription leaves the dispatcher's publisher; closing it again changes nothing; the state stays reachable |
| Dispatcher.StreamIsQuery | internal/adapters/websocket/dispatcher.go:147-154 | for the composed objects, a lossless subscription that no worker is on its way to holds what the memory store's Query returns for its filter |
| ConnectionTheorems.SysRunInv | internal/adapters/websocket/connection.go:47-70 | the invariant of connections and pipeline together holds in every run of any number of producers and monitors |
| ConnectionTheorems.PipelineUnderConnections | internal/adapters/websocket/connection.go:186-283 | whatever connections do, the pipeline below only reaches states of its own runs, so all its theorems apply |
| ConnectionAcks.AckImpliesPersisted | internal/adapters/websocket/connection.go:206-232 | a queued ack is the connection's k-th response for some k: it names the k-th event message's request, and that message's own event was submitted as a job that the store has accepted and Publish has finished with, under the acknowledged ID |
| ConnectionAcks.AckAnswersMessage | internal/adapters/websocket/connection.go:186-240 | the same of every response attempted, queued or lost: the k-th response is an ack only if the job of the k-th message, with that message's event, is stored and published |
| ConnectionAcks.OneAckPerID | internal/adapters/websocket/connection.go:224-232 | over all connections, two queued acks with one event ID are the same message on the same connection |
| ConnectionTheorems.OneResponsePerEvent | internal/adapters/websocket/connection.go:186-265 | the k-th event message read gets exactly one response attempt, the k-th, which names its request, before the next is read; the outbound queue stays bounded, is closed exactly when the reader has stopped, and is never sent to or closed again |
| ConnectionAnswers.ResponseExactly | internal/adapters/websocket/connection.go:186-265 | the k-th response is an ack if and only if an error-free result of the job of the k-th message was received, the mapped error if and only if a failed one was, the internal error if and only if the job gave the connection no result, and a refusal if and only if the message was never submitted; a missing request ID gets its own |
| ConnectionProgress.AdmissionDecides | internal/adapters/websocket/dispatcher.go:92-98 | with the admission mutex free, a connection can take it and read the flag, and stays inside if and only if the flag is up; otherwise it is refused and nothing is queued |
| ConnectionProgress.QueueDecides | internal/adapters/websocket/dispatcher.go:100-108 | inside, the event can be queued if and only if there is room, as a job with the message's own event, and is refused as full if and only if there is none |
| ConnectionProgress.ResultIsAnswered | internal/adapters/websocket/connection.go:206-232 | a waiting connection whose result is there can take it and respond, with an ack for the stored event if it is error-free and the mapped error otherwise, queued if there is room |
| ConnectionModes.HelloDecides | internal/adapters/websocket/connection.go:62-93 | a producer hello with a client name opens a connection that can read event messages and no subscription, a monitor hello the reverse, and any other first message opens none |
| ConnectionModes.SidesFollowHellos | internal/adapters/websocket/connection.go:47-93 | over whole runs, a connection that has read an event message said hello as a producer, and one that has subscribed as a monitor |
| ConnectionTheorems.DeadBranches | internal/adapters/websocket/connection.go:207-214 | an ack channel is never found closed before its result is taken, and a monitor's stream never ends before the monitor closes it |
| ConnectionStream.MonitorForwards | internal/adapters/websocket/connection.go:267-283 | a monitor connection has at most one subscription, with the filter it asked for, and forwards what it received from it in order and without gaps; at most the last event is missing, in the reader's hand or lost to a full queue, which ends the stream |
| ConnectionStream.ForwardedWasStored | internal/adapters/websocket/connection.go:267-283 | a monitor is only ever sent events that the store has accepted and that match the filter it asked for |
| ConnectionLoops.Connection.Send | internal/adapters/websocket/connection.go:353-370 | a message is queued if and only if there is room; what was queued is a subsequence of what was attempted |
| ConnectionLoops.Connection.HandleEvent | internal/adapters/websocket/connection.go:186-265 | submits to the dispatcher and attempts exactly one response, which names the request; it is an ack if and only if the submission was accepted, the result came before the timer and the store accepted the processed event for this very job, and then carries that event's ID; refusals and time-outs get their own errors |
| ConnectionLoops.Connection.ReadProducerMessages | internal/adapters/websocket/connection.go:120-147 | every event message is submitted and gets one response, in order, naming its request; every ack is for a stored event; whatever ends the loop gets one error, and the queue is closed once |
| ConnectionLoops.Connection.ForwardBuffered | internal/adapters/websocket/connection.go:273-282 | forwards what is buffered in order and stops at the first event that finds the queue full, which alone is lost |
| MemoryStore.MatchesFilter | internal/adapters/storage/memory.go:142-183 | decides exactly whether every non-empty criterion lists the event's value |
| Contracts.CriteriaReadTheirFields | internal/adapters/storage/memory.go:142-160 | a filter selects what its three criteria select one by one, and each asks for its own field's value |
| MemoryStore.MemoryEventStore.Store | internal/adapters/storage/memory.go:33-60 | succeeds exactly for a new, non-empty ID on an open store with a live context, and then appends the event; an error is the first check that fails and changes nothing; IDs stay unique |
| MemoryStore.MemoryEventStore.Get | internal/adapters/storage/memory.go:62-83 | finds an event exactly when one with that ID is stored |
| MemoryStore.MemoryEventStore.Query | internal/adapters/storage/memory.go:85-113 | the selected events in store order |
| Naming.WeekStart | internal/adapters/storage/json_file_storage.go:398-405 | the computed week start is the last Monday midnight at or before the instant |
| Naming.NamesDiffer | internal/adapters/storage/json_file_storage.go:303-310 | different weeks or numbers give different file names, also beyond 99 |
| Naming.ListedInOrder | internal/adapters/storage/json_file_storage.go:310-356 | the first hundred files of a week are listed in the order of their numbers |
| Naming.HundredthFileComesEarly | internal/adapters/storage/json_file_storage.go:310-356 | the next one is listed before the last of them; three names spelled out |
| Directory.AppendEffect | internal/adapters/storage/json_file_storage.go:112-121 | opening for append and writing extends or creates one file and leaves all others alone |
| Directory.SurvivorsExactly | internal/adapters/storage/json_file_storage.go:269-294 | rotation keeps exactly the files modified at or after the cutoff |
| Framing.ReadEvents | internal/adapters/storage/json_file_storage.go:360-396 | the scanning loop returns the events of all lines, or fails if some line is too long or cannot be decoded |
| Framing.LinesRejoin | internal/adapters/storage/json_file_storage.go:368-373 | the tokens hold no newline and together make up the file, a torn last line included |
| Framing.FramingRoundTrip | internal/adapters/storage/json_file_storage.go:89-123 | reading a file after appending a record gives the previous events and then the new one; it succeeds if and only if the file could be read before and the record is below 1 MiB |
| Framing.WrittenReadsBack | internal/adapters/storage/json_file_storage.go:360-396 | a file written by any sequence of stores reads back those events in write order if and only if all records are below 1 MiB |
| JsonStorage.FirstFit | internal/adapters/storage/json_file_storage.go:309-323 | the chosen number is the lowest whose file is missing or has room; the search ends |
| JsonStorage.JSONFileStorage.constructor | internal/adapters/storage/json_file_storage.go:46-68 | the defaults for a non-positive size and retention |
| JsonStorage.JSONFileStorage.LoadEventIDs | internal/adapters/storage/json_file_storage.go:326-346 | on success the index is exactly the set of non-empty IDs on disk; failure exactly when some file cannot be read |
| JsonStorage.JSONFileStorage.FileForWrite | internal/adapters/storage/json_file_storage.go:299-324 | the loop finds the first-fit file of the current week |
| JsonStorage.JSONFileStorage.Store | internal/adapters/storage/json_file_storage.go:77-136 | disk, index and outcome agree with the store step for every argument, error cases included, in the code's order of checks |
| JsonStorage.JSONFileStorage.Get | internal/adapters/storage/json_file_storage.go:138-176 | the index check, then the first match in file order |
| JsonStorage.JSONFileStorage.Query | internal/adapters/storage/json_file_storage.go:178-218 | succeeds exactly on an open store with every file readable, and then returns the stable sort of the selected events in file order |
| JsonStorage.JSONFileStorage.Rotate | internal/adapters/storage/json_file_storage.go:256-297 | removes the expired files and keeps the index |
| Retention.RotateKeepsExactly | internal/adapters/storage/json_file_storage.go:269-294 | a file outlives a rotation if and only if it was written to within the retention period, in days of 24 hours; a cancelled or late rotation deletes nothing |
| Retention.StoredEventsStay | internal/adapters/storage/json_file_storage.go:77-297 | a stored event is found by Get through any later stores, restarts and rotations within the retention period of its store, as long as the store serves and its files are readable |
| Retention.StoredInItsWeek | internal/adapters/storage/json_file_storage.go:107-121 | a record is added to one file of the Monday-to-Monday week that holds the clock reading, and no other file changes |
| Retention.StoreOutcomes | internal/adapters/storage/json_file_storage.go:81-135 | exactly when a store succeeds, and when it is a duplicate; otherwise nothing changes |
| Packing.PlaceKeepsPacked | internal/adapters/storage/json_file_storage.go:299-324 | one placement keeps file numbers contiguous, each file within the limit or a single record, and any two files together above the limit |
| Packing.PackedInEveryRun | internal/adapters/storage/json_file_storage.go:107-134 | the same after any run without rotation, for any week that began without files |
| Packing.MoreThanHalfFull | internal/adapters/storage/json_file_storage.go:299-324 | n >= 2 files of a week hold more than n / 2 times the maximum file size |
| StorageTheorems.AppendInserts | internal/adapters/storage/json_file_storage.go:112-121 | wherever first fit puts it, a stored event is inserted once into the log of the disk and nothing else moves |
| StorageTheorems.AppendReadable | internal/adapters/storage/json_file_storage.go:360-396 | after a store the directory can be read if and only if it could before and the record is below 1 MiB |
| StorageTheorems.IndexInEveryRun | internal/adapters/storage/json_file_storage.go:77-175 | through any stores, rotations, closes and restarts each ID is on disk at most once and every ID on disk is in the index |
| StorageTheorems.AgreementUntilDeletion | internal/adapters/storage/json_file_storage.go:257-297 | index and disk hold the same IDs until rotation deletes a file |
| StorageTheorems.RestartRestoresAgreement | internal/adapters/storage/json_file_storage.go:326-346 | after any run, a successful restart makes them equal again and keeps the files |
| StorageTheorems.ScanCount | internal/adapters/storage/json_file_storage.go:157-175 | a full scan finds an ID exactly when it is on disk |
| StorageTheorems.GetEqualsScan | internal/adapters/storage/json_file_storage.go:138-175 | in every run, for a non-empty ID on an open store, the index-guarded answer is the full scan's if and only if the ID is in the index or every file is readable |
| StorageTheorems.ScanAbsent | internal/adapters/storage/json_file_storage.go:157-175 | a full scan for an ID that is not on disk answers not found, unless some file is unreadable |
| StorageTheorems.StoreThenGet | internal/adapters/storage/json_file_storage.go:77-175 | what was stored is found again, all files stay readable and a restart succeeds if and only if the record is below 1 MiB |
| StorageRefinement.OneAcceptancePerID | internal/adapters/storage/json_file_storage.go:96-134 | one store instance accepts no ID twice and none found at its start, whatever is rotated away |
| StorageRefinement.ReplayInMemory | internal/adapters/storage/memory.go:33-60 | a memory store accepts all events of such a run and holds exactly them in order |
| StorageRefinement.QueryRefinesMemory | internal/adapters/storage/json_file_storage.go:178-218 | without deletions the JSON query is timestamp-sorted, stable in file order, the selection of the sorted disk, the same multiset as the memory query, and for strictly increasing timestamps the same sequence |
| StorageRefinement.ReadableExactly | internal/adapters/storage/json_file_storage.go:193-211 | after a run without deletions the disk can be queried if and only if every accepted record is below 1 MiB |
| StorageRefinement.JsonStoreKeepsPort | internal/adapters/storage/json_file_storage.go:96-105 | on any readable files and after any rotations, success means the ID is non-empty, new among the events accepted since the store was opened, and not in the files it was opened on, which is what the pipeline assumes of a store |
| StorageRefinement.RestartsKeepPort | internal/adapters/storage/json_file_storage.go:96-105 | the same across restarts as long as no file was deleted |
| StorageExamples.RunsExist | internal/adapters/storage/json_file_storage.go:77-136 | for any size limit there are an encoding, file names and runs of any length that meet every assumption and in which every store succeeds |
| StorageExamples.OversizedRecord | internal/adapters/storage/json_file_storage.go:89-94 | a store accepts a record of exactly 1 MiB and can then not be started again |
| Sorting.StableSortIsStableSort | internal/adapters/storage/json_file_storage.go:213-215 | the sorted sequence is ordered by instant and keeps the order of equal instants |
| Sorting.StableSortUnique | internal/adapters/storage/json_file_storage.go:213-215 | no other sequence does, so the choice of algorithm does not matter |
| Sorting.SortSelectCommute | internal/adapters/storage/json_file_storage.go:206-215 | filtering and stable sorting commute |
| RateLimit.FixedWindowLimiter.constructor | internal/security/rate_limit.go:29-37 | limit 1 and one minute where the arguments are not positive |
| RateLimit.FixedWindowLimiter.Allow | internal/security/rate_limit.go:39-54 | the decision and the new counter of the key follow from its old counter and the clock; no other key's counter changes |
| RateLimit.SlidingInterval | internal/security/rate_limit.go:39-54 | every half-open interval of n windows' length sees at most (n + 1) * limit - 1 admissions |
| RateLimit.SlidingIntervalAttained | internal/security/rate_limit.go:39-54 | for every limit, n and window of at least two ticks, some clock readings reach that number |
| RateLimit.LimitBoundsWindows | internal/security/rate_limit.go:39-54 | the limit bounds every interval of a window's length if and only if it is 1 or a window is one tick |
| RateLimit.CurrentWindow | internal/security/rate_limit.go:43-52 | the counter is the number of admissions since the request that opened the window, at most the limit, all within one window of it |
| RateLimit.DeniedExactly | internal/security/rate_limit.go:44-50 | denied if and only if the window has not expired and exactly `limit` requests were admitted in it; windows start at least a window apart |
| RateLimit.KeyIndependence | internal/security/rate_limit.go:43-52 | in any interleaving, the decisions on a key are those of running its calls alone |
| Redaction.SanitizeText | internal/security/redaction.go:70-85 | the builder loop masks, drops control characters other than tab, and trims |
| Redaction.RedactMap | internal/security/redaction.go:33-44 | whatever the iteration order: every key's cleaned form is present, and every entry is a redaction of some entry with that cleaned key |
| Redaction.RedactValue | internal/security/redaction.go:46-68 | under a sensitive key anything becomes the marker; otherwise strings are sanitised and containers redacted in place, with list items judged by the list's key |
| Redaction.RedactEvent | internal/security/redaction.go:16-31 | ten text fields sanitised, two maps redacted, level, ID and timestamp untouched |
| MaskEffects.AcceptedTextsAreMasked | internal/security/redaction.go:16-31 | each of the ten texts of an accepted event is the masked text that arrived, where cleaning has nothing to add |
| MaskEffects.RedactedFieldsAreMasked | internal/security/redaction.go:33-68 | where cleaning has nothing to add, redaction masks every key and text at any depth, leaves `[REDACTED]` under sensitive keys, and does nothing else |
| MaskEffects.MaskedPartsDoNotMatter | internal/domain/services/event_processor.go:56-106 | events that differ only in what the mask removes, or under sensitive keys, have the same possible outcomes: none of it reaches the store or decides whether the event does |
| Redaction.SensitiveKeysMasked | internal/security/redaction.go:38-49 | at one level of a map: a key is present in the result exactly when some key cleans to it, and where all such keys are sensitive its value is the marker |
| Masking.MaskedExactly | internal/security/redaction.go:33-68 | in every result of redaction, at every depth, values under sensitive keys are the marker, if and only if each key looked at that is sensitive once cleaned is sensitive as it arrives or holds a text that becomes the marker |
| Masking.SplitKeyUnmasked | internal/security/redaction.go:38-49 | a map that both passes accept and whose result holds a value in clear under a sensitive key |
| Redaction.RedactionFixesFields | internal/security/redaction.go:33-44 | every text and key at any depth of the output is one that cleaning leaves alone |
| Texts.CleanIdempotent | internal/domain/services/event_processor.go:270-283 | stripping and trimming leaves nothing more to strip or trim, although masking may not be idempotent |
| Texts.CleanedIsPlain | internal/security/redaction.go:76-84 | cleaning leaves only tabs and characters outside U+0000-U+001F and U+007F-U+009F, and plain text without surrounding space as it is |
| Processor.SanitizeText | internal/domain/services/event_processor.go:270-283 | the builder loop drops control characters other than tab and trims |
| Processor.SanitizeMap | internal/domain/services/event_processor.go:197-228 | success if and only if keys, scalars and depth are admissible at every level, whatever the order; then each entry is a cleaned one; otherwise the error is one some order reports |
| Processor.SanitizeValue | internal/domain/services/event_processor.go:230-268 | the same for values; in a list the error is the first failing item's |
| Processor.SecondPassIsIdentity | internal/domain/services/event_processor.go:91-99 | cleaning maps that redaction produced changes nothing, whatever the iteration order |
| Processor.ProcessEvent | internal/domain/services/event_processor.go:56-106 | the outcome is decided on a redaction of the event by the checks in the code's order, each error one that its check gives, and a success is that redaction with only level, ID and timestamp changed |
| ProcessorTheorems.ResultIsRedaction | internal/domain/services/event_processor.go:79-105 | whatever ProcessEvent returns on success is a redaction of the event except for level, ID and timestamp: the second sanitisation alters nothing |
| Arrivals.AcceptedOnArrival | internal/domain/services/event_processor.go:56-195 | an arriving event with a known level, required texts that survive masking and cleaning and fit, and maps whose cleaned keys are not prohibited, whose unmasked values are supported and shallow enough, and whose redactions are small enough is accepted in every iteration order; where no two keys collide, only such an event is |
| Arrivals.AcceptedInEveryOrder | internal/domain/services/event_processor.go:56-195 | any event, colliding keys or not, is accepted in every iteration order if and only if it meets those conditions on arrival |
| Rejections.TextsDecide | internal/domain/services/event_processor.go:121-174 | an event whose level or texts are at fault is rejected for the first fault in the code's order, each with its error, the limits 128, 128, 4096 and 128 and the eight level words spelled out |
| Rejections.SizeDecides | internal/domain/services/event_processor.go:176-195 | with acceptable texts and maps, more than 65536 encoded bytes are too large, an encoding failure is invalid, and anything less is accepted |
| Rejections.EntryDecides | internal/domain/services/event_processor.go:208-267 | a context of one entry with a prohibited key is a sensitive field, and one with an unsupported value under another key is invalid |
| Rejections.FieldsFailOnlyByDepth | internal/domain/services/event_processor.go:202-245 | maps whose keys and scalars are acceptable can only be rejected as too deep |
| Arrivals.OneFieldsRedaction | internal/security/redaction.go:33-68 | where no two keys collide, redaction has one outcome whatever the iteration order |
| ProcessorTheorems.SeparatorsIgnored | internal/domain/services/event_processor.go:285-292 | a hyphen, underscore or space anywhere inside a key does not change whether it is prohibited |
| ProcessorTheorems.CaseIgnored | internal/domain/services/event_processor.go:285-292 | nor does the case of ASCII letters |
| ProcessorTheorems.LevelNames | internal/domain/services/event_processor.go:109-142 | a level in any spelling is accepted if and only if, trimmed and folded, it is one of eight names; the two compatibility names become canonical and `off` is no level (developer/BLUEPRINT.md:173) |
| ProcessorTheorems.NoProhibitedKeys | internal/domain/services/event_processor.go:213-216 | no key at any depth of an accepted event's maps normalises to a prohibited name |
| KeyNames.ProhibitedExactly | internal/domain/services/event_processor.go:40-53 | an ASCII key is prohibited if and only if, in lower case and without hyphens, underscores and spaces, it is one of twelve names spelled out; any other is admissible |
| KeyNames.SpaceIgnored | internal/domain/services/event_processor.go:285-286 | space around a key does not change whether it is prohibited |
| KeyNames.RefusedMapsFail | internal/domain/services/event_processor.go:197-228 | sanitizeMap fails on a map with such a key at any depth |
| KeyNames.NoRefusedNames | internal/domain/services/event_processor.go:213-216 | no accepted event holds such a key at any depth |
| ProcessorTheorems.SecondPassAloneLetsKeysThrough | internal/domain/services/event_processor.go:197-228 | a map that sanitizeMap accepts and turns into one with a prohibited key |
| KeySafety.SecondPassAloneSafe | internal/domain/services/event_processor.go:197-228 | sanitizeMap alone keeps prohibited keys out in every iteration order if and only if no key at any depth is prohibited once it is cleaned |
| ProcessorTheorems.DepthLimit | internal/domain/services/event_processor.go:197-247 | with admissible keys and scalars, success is equivalent to container nesting of at most 8, nil maps counting zero |
| ProcessorTheorems.RedactionFieldsNesting | internal/security/redaction.go:33-68 | redaction never nests containers deeper |
| ProcessorTheorems.TooDeepOnArrival | internal/domain/services/event_processor.go:202-245 | ProcessEvent rejects an event as too deep only if it arrives with containers nested more than 8 deep |
| ProcessorTheorems.FailureIsOrderIndependent | internal/domain/services/event_processor.go:208-227 | a value is admissible if and only if no iteration order reports an error |
| ProcessorTheorems.InvalidUtf8OnlyInLevel | internal/domain/services/event_processor.go:121-127 | ProcessEvent reports invalid UTF-8 if and only if it is in the level |
| ProcessorTheorems.InvalidBytesAccepted | internal/domain/services/event_processor.go:61-127 | an event whose message is an invalid byte is accepted, with the replacement character in its place |
| ProcessorTheorems.AcceptedEvent | internal/domain/services/event_processor.go:67-106 | what is returned has a canonical level, an ID (the client's, if any), a UTC timestamp of the same instant, and required texts that are non-blank, trimmed and within their limits |

## Left out

- HTTP server, routing, health checks, CORS, signals, configuration, authentication, origin checks and the legacy client: plumbing and library calls.
- WebSocket frames, deadlines, pings and message decoding: connections receive decoded messages, and time-outs and read errors may happen at any point.
- The handshake's own reads and writes: an upgraded connection starts with its accepted mode, and a failed handshake leaves no connection.
- The mapping from errors to protocol codes, the texts of error messages, and operational logs.
- The connection class runs its loops without the write pump beside them; while it waits for a result, one worker either runs or does not. All interleavings are covered by the transition system.
- ConnectionLoops.Connection.HandleEvent: while it waits, one worker runs uninterrupted or none does; `ConnectionAcks.AckAnswersMessage` and `ConnectionTheorems.OneResponsePerEvent` cover every interleaving.
- ConnectionLoops.Connection.ReadProducerMessages: the same limited waits, without the write pump beside the loop.
- ConnectionLoops.Connection.ForwardBuffered: covers the events buffered at the call, without those that arrive during the loop, which `ConnectionStream.MonitorForwards` covers.
- The methods of the dispatcher class are uninterrupted: a worker takes a job in one and finishes it in another, and other calls may come between. Interleavings inside a method are covered by the transition system, of which every method is a run.
- The dispatcher class is composed with the memory store; the JSON store enters the pipeline through its proved port promise.
- Processor contexts: whether a job's context is done is an argument of the turn, or part of the free choice of the processing outcome.
- Aliasing: events are values, so the copies made by `cloneEvent` are identities. A list directly inside a list is not copied by the code, and a nil map nested in an event, which JSON input never holds, comes back as an empty one; neither is modelled.
- Torn and failed file writes that change the disk, file permissions, and errors of the operating system other than a missing file.
- Files in the directory that match the name pattern but were not written by the store, and other writers to the directory.
- `Health` of both stores, `Middleware`, `ClientKey` and `ConnectionLimiter`: single-branch members.
- The year of a timestamp after conversion to UTC: the check runs in the event's own zone, so no bound on the stored year follows.
- Width of Go's integers: file sizes, counters and instants are unbounded here.
- MemoryStore.MemoryEventStore.Get: does not state the copy made of the returned event, since events are values.
- JsonStorage.JSONFileStorage.constructor: does not model creating the directory or the check of its name.
