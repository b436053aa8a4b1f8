# kubetin: verified models of its hard parts

kubetin is a terminal UI for Kubernetes. Most of it is plumbing; a dozen small algorithms in it are
not: a coalescing queue between an informer and the screen, caches that must agree with what they
speed up, a log stream that reconnects without losing or repeating a line, a sanitizer between
containers and the terminal, and several state machines that must survive cancellation at any
moment. This project models those algorithms in Dafny and proves what each is for.

How to read it:

- `DeliverySpec`, `DeliveryTheorems`, `Delivery`: event delivery. The specification is a transition
  system whose steps are the critical sections and channel operations of the source; the theorems
  are about every interleaving; the class has the source's fields and each of its methods makes the
  step of the same name.
- `ResourceBatch`: batching between the delivery channel and the UI, and the end-to-end statement
  that a row's informer fields are what the informer last published.
- `Options`, `Ordering`: an optional value; sorting and binary search.
- `PodRows`, `PodOrder`, `PodTable`, `PodTableCache`: the pod table, its incremental
  order and the derived counts. `Facts` is the model without any cache; `PodTableCache.Replay` runs
  the object with its caches over any list of messages and reads. `PodListing` says what a reading
  shows in terms of the rows' own fields, `PodHistory` what the rows are in terms of the messages.
- `LogCursor`, `LogStream`, `LogStreamEnds`, `LogStreamer`: resuming a log stream, and the bounded
  reconnect loop.
- `Utf8`, `Sanitizer`: the byte-level lexer (UTF-8 as in section 4 of RFC 3629, control sequences
  as in section 5.4 of ECMA-48, SGR as in its section 8.3.117). `SanitizerGrammar` describes lines as
  strings of pieces, without a lexer, and what is shown of each.
- `LogBuffer`, `LogView`: the viewer's ring buffer, incremental search and paused viewport;
  `LogRetention` says what they hold, find and show in terms of the lines that arrived.
- `Focus`, `FocusCoordinator`: the debounced focus switch.
- `DrainTrace`, `DrainSpec`, `DrainEvents`, `Drain`: node drain, what it reports, and its forwarder.
- `NetworkRotation`, `NetworkRates`, `NetworkExpiry`: the network poller and the lazy expiry of what
  it measured.
- `ScopeFlight` (with `ScopeResolver` in the same file): single-flight scope resolution.
- `Columns`, `ContextLabels`, `LabelText`: column fitting, context labels and what they read like.

What comes from outside (API replies, timers, which branch a `select` takes, when a context is
cancelled, map iteration order) is an input or a nondeterministic choice, so the theorems hold for
all of it. Times are integers with the zero time at 0 (real numbers for rates). `strings.ToLower`
and `strings.Contains` are uninterpreted functions; the pod table assumes only that the empty string
lower-cases to itself.

Three places where the code falls short of its promise in a corner. Each has the exact condition and
a concrete case:

- A log line stamped before the zero time is never shown: `LogCursor.ExactlyOnce` holds with an if
  and only if, `LogCursor.PrehistoricLineIsLost` shows the loss.
- A focus request without a context name leaves the old watchers running:
  `Focus.SettledIsCurrent`, `Focus.EmptyContextIsIgnored`.
- Going to a search match brings it into view exactly when the viewport is more than one line high or
  the match is the oldest line: `LogBuffer.StepShowsMatch`, `LogBuffer.OneLineViewMissesMatch`.

The lazy expiry of network readings assumes a clock at or after the zero time, which is what
`time.Now` returns; `NetworkExpiry.FreshCanBeScheduled` shows that this is exactly what it takes.

Where code and comment differ the model follows the code: the fast path of `publish` may hand the
consumer a deletion of something it never saw, so nothing here claims otherwise.

## Model

| member | source | states |
|---|---|---|
| `DeliveryTheorems.RunInv` | internal/cluster/delivery.go:60-153 | every interleaving of publishes and runner steps, including publishes between the channel send and the re-lock, keeps the invariant that relates queue, index, known set, in-flight entry and the two histories |
| `DeliveryTheorems.PublishedIsArrivals` | internal/cluster/delivery.go:60-95 | in every legal run the history of publishes is exactly the publish actions before the first stop, in order: nothing is lost on the way in |
| `DeliveryTheorems.PublishPlaces` | internal/cluster/delivery.go:60-95 | with an empty queue and room in the channel an event goes straight out; otherwise nothing is sent, and its UID's entry holds it with a wake token, unless it is a deletion the consumer need not hear of, which leaves no entry |
| `DeliveryTheorems.Converges` | internal/cluster/delivery.go:60-153 | before close, a UID without a queue entry has the same state under the events sent as under the publishes made before the stop, as a list read off the run's own actions, and a queued UID has its latest publish in its entry |
| `DeliveryTheorems.ConvergedWhenEmpty` | internal/cluster/delivery.go:60-153 | with the queue empty, the consumer's table equals the table of everything published |
| `DeliveryTheorems.DeliveredAreSubsequence` | internal/cluster/delivery.go:60-153 | per UID, what was handed over is a subsequence of the publishes made before the stop, also after the runner has stopped: nothing invented, repeated or reordered |
| `DeliveryTheorems.MemoryBound` | internal/cluster/delivery.go:76-109 | one queue entry a UID, each of a resource that is live, known to the consumer or in flight; `known` is exactly what the consumer was told |
| `DeliveryTheorems.NoLostWakeup` | internal/cluster/delivery.go:91-95 | a parked runner with a non-empty queue always has a wake token |
| `DeliveryTheorems.FairService` | internal/cluster/delivery.go:111-153 | an entry at position k is handed over within k+1 completed sends whatever publishes interleave, unless a deletion cancels it |
| `DeliveryTheorems.DrainsInBoundedSteps` | internal/cluster/delivery.go:111-153 | with no more publishes the runner comes to rest within a number of steps known beforehand |
| `DeliveryTheorems.StuckMeansConverged` | internal/cluster/delivery.go:111-153 | a runner that can take no step has delivered everything |
| `DeliveryTheorems.FifoRun` | internal/cluster/delivery.go:76-151 | along any run, a never-deleted resource published first stays ahead of one published later until it has been sent, and once the later one has been sent the earlier one was sent before it, also after the runner has stopped |
| `DeliveryTheorems.MarkerLeavesLast` | internal/cluster/podwatch.go:228-243 | whenever the sync marker has been sent, every never-deleted resource published before it was sent before it |
| `DeliveryTheorems.StaysStopped` | internal/cluster/delivery.go:111-120 | after the runner's exit nothing is delivered, queued or recorded any more |
| `Delivery.EventDelivery.Publish` | internal/cluster/delivery.go:60-95 | straight to Out only while nothing waits and there is room, else the slow path; nothing after close; the new state is the step of the specification |
| `Delivery.EventDelivery.PublishSlow` | internal/cluster/delivery.go:76-95 | a deletion of something the consumer neither knows nor is being sent cancels the pending entry; anything else is queued, or overwrites the entry and raises its version, and leaves a token |
| `Delivery.EventDelivery.RunPick` | internal/cluster/delivery.go:121-135 | parks on an empty queue, else snapshots the front as in flight |
| `Delivery.EventDelivery.RunSend` | internal/cluster/delivery.go:136-140 | the unlocked send hands over the snapshot, not what the entry may have become |
| `Delivery.EventDelivery.RunFinish` | internal/cluster/delivery.go:141-151 | records the hand-over, then removes the entry if it was not overwritten or its deletion is moot, else moves it to the back |
| `Delivery.EventDelivery.RunStop` | internal/cluster/delivery.go:111-120 | the deferred clean-up drops all pending work and closes |
| `Delivery.EventDelivery.Remove` | internal/cluster/delivery.go:106-109 | unlinks one element and its index entry; all others keep their place |
| `Delivery.Interleave` | internal/cluster/delivery.go:60-153 | any interleaving, carried out on the object, gives the channel exactly the events the steps send, so the theorems are about what the object delivers |
| `ResourceBatch.Forward` | cmd/kubetin/resource_batch.go:14-48 | batches of 1 to 64 events that concatenate to a prefix of the channel, to all of it unless the context was done |
| `ResourceBatch.InformerFieldsAreFold` | internal/ui/app.go:814-835 | whatever metrics and network messages interleave, the informer-owned fields of the rows are the fold of the pod events alone |
| `ResourceBatch.TableMatchesInformer` | cmd/kubetin/resource_batch.go:14-48 | once a UID has no queue entry and the UI has applied what was sent of it, its row carries the state last published before the stop |
| `ResourceBatch.Pipeline` | cmd/kubetin/resource_batch.go:14-48 | end to end: delivery, the forwarder cutting batches as the scheduler lets it, and the UI applying them with any other messages in between; unless the forwarder was cancelled the rows agree with the informer on every UID that is not queued |
| `PodRows.LessByTrichotomy` | internal/ui/pod.go:384-439 | the sort order of any column never ties two different pods, and two rows compare equal exactly when every value the column reads agrees |
| `PodRows.LessByTransitive` | internal/ui/pod.go:384-439 | the sort order of any column is transitive |
| `PodRows.PodLessStrictTotal` | internal/ui/pod.go:374-382 | in both directions the pod order is a strict total order on the rows of the table |
| `PodRows.DashLessStrictTotal` | internal/ui/clusterdash_cache.go:29-50 | so are the dashboard's cpu and memory orders |
| `PodOrder.FullOrderUnique` | internal/ui/pod.go:361-372 | there is only one sorted listing of a table, so agreeing with "a" full sort is agreeing with the full sort |
| `PodOrder.ChangeKeepsOrder` | internal/ui/table_cache.go:47-70 | one row change followed by its invalidation keeps the cached order usable: every row that came, went or moved in the cached column is marked dirty, and the match count is dropped when identity changed |
| `PodOrder.QuietChange` | internal/ui/table_cache.go:47-70 | a change to neither a pod's identity nor its value in the cached column leaves the cached order untouched |
| `PodOrder.CleanRows` | internal/ui/table_cache.go:113-136 | rows not marked dirty kept their membership and their relative order |
| `PodOrder.MergeClean` | internal/ui/table_cache.go:113-136 | the two-pointer merge of the old list without dirty rows and the sorted changed rows is sorted and has exactly their elements |
| `PodTable.ChangeKeepsDerived` | internal/ui/app.go:836-851 | one row change with updatePod's invalidations leaves every cache either dropped or still right |
| `PodTable.SteeringKeepsDerived` | internal/ui/table_cache.go:72-91 | filter, namespace and sort changes cannot make a cache wrong, only stale by its key |
| `PodTable.CountPhases` | internal/ui/table_cache.go:199-216 | the walk counts each phase exactly |
| `PodTable.CollectNsCounts` | internal/ui/table_cache.go:218-225 | the walks over pods, deployments and warning events give every namespace its counts and no entry to a namespace without any |
| `PodTableCache.Model.InvalidatePodOrder` | internal/ui/table_cache.go:47-70 | marks exactly what the cached orders could notice |
| `PodTableCache.Model.UpdatePod` | internal/ui/app.go:814-851 | one pod event: the rows are those of the event fold, and every cache stays valid |
| `PodTableCache.Model.ApplyMetrics` | internal/ui/app.go:733-778 | one metrics sweep in any row order: listed pods get their figures, others lose theirs, and every cache stays valid |
| `PodTableCache.Model.ApplyNetwork` | internal/ui/network.go:47-60 | one network sweep in any row order keeps every cache valid |
| `PodTableCache.Model.TableUids` | internal/ui/table_cache.go:93-111 | the listing is the full filter-and-sort of the current rows, whether it came from the cache, from a merge or from a rebuild |
| `PodTableCache.Model.MergePodOrder` | internal/ui/table_cache.go:113-136 | sorting only the dirty rows and merging them gives the full filter-and-sort |
| `PodTableCache.Model.TableCount` | internal/ui/table_cache.go:139-167 | the count is the number of matching rows |
| `PodTableCache.Model.DashboardPodOrder` | internal/ui/clusterdash_cache.go:16-53 | both dashboard orders equal a fresh sort of the measured pods in the current scope |
| `PodTableCache.Model.PodPhaseCounts` | internal/ui/table_cache.go:199-216 | the cached phase counts equal a full walk |
| `PodTableCache.Model.NamespaceCounts` | internal/ui/table_cache.go:218-225 | the cached namespace counts equal a full walk |
| `PodTableCache.Replay` | internal/ui/table_cache.go:47-225 | over any run of pod events, metrics, network sweeps, other resources, filter, namespace and sort changes, every read through the caches returns what a full recompute at that point would, also when a sort key changes and changes back between reads |
| `PodListing.Listed` | internal/ui/table_cache.go:169-172 | a pod is in the listing exactly when it is in the picked namespace and the filter, in lower case, is empty or contained in its lower-cased namespace or name |
| `PodListing.ListedInOrder` | internal/ui/pod.go:361-439 | for every column, of two listed pods the upper one has the smaller value of the column's own field, the larger when descending, -1 standing for no reading; ties go by namespace, name, UID in byte order; no pod is listed twice |
| `PodListing.ShareIsOne` | internal/ui/pod.go:190-205 | the memory share is the one number that 64-bit wrap-around and division towards zero allow, and -1 without a reading or a limit |
| `PodListing.CountedIsListed` | internal/ui/table_cache.go:139-167 | the count is the listing's length |
| `PodListing.Ranked` | internal/ui/clusterdash_cache.go:16-29 | the dashboard ranks exactly the pods with metrics in the picked namespace, else in the watched one, else anywhere |
| `PodListing.RankedInOrder` | internal/ui/clusterdash_cache.go:30-50 | larger cpu, or memory, first; ties by name, namespace, UID |
| `PodListing.PhasesCount` | internal/ui/table_cache.go:199-216 | running, pending and failed count the pods whose phase is that word |
| `PodListing.NamespaceCount` | internal/ui/table_cache.go:218-225 | a namespace has an entry exactly when it has a pod, a deployment or a warning event, and the entry has their numbers |
| `PodHistory.LastSteered` | internal/ui/app.go:953-972 | the table is shown as last steered: latest filter, picker and watch scope, the column as many columns on as it was cycled, around all eleven, descending after an odd number of flips |
| `PodHistory.LastStored` | internal/ui/table_cache.go:218-225 | deployments and events are what the latest message about each said |
| `PodHistory.RowWriters` | internal/ui/app.go:733-851 | only a snapshot writes metrics, only a network sweep writes rates, only a pod event adds or removes a row, and a new row starts without readings save a metric that was waiting |
| `Ordering.LexMeans` | internal/ui/pod.go:384-439 | string comparison is byte order by the first difference, a proper prefix first |
| `LogCursor.LogCursorState.AcceptLine` | internal/cluster/logstream.go:277-296 | rejects older lines, starts a new count at a newer timestamp, consumes replayed occurrences first |
| `LogCursor.ReplayLine` | internal/cluster/logstream.go:277-296 | a replayed line is always swallowed, and what is still owed shrinks by it |
| `LogCursor.FreshLine` | internal/cluster/logstream.go:277-296 | a line beyond the replay is let through, exactly when it is not before the zero time |
| `LogCursor.StreamDelivers` | internal/cluster/logstream.go:264-296 | one stream that resumes at or before the cursor's timestamp adds exactly the lines beyond what was delivered before |
| `LogCursor.ExactlyOnce` | internal/cluster/logstream.go:264-296 | over any number of reconnects, replays, early ends and identical lines at one timestamp, the accepted lines are the log up to the furthest point reached, in order, if and only if none of them predates the zero time |
| `LogCursor.PrehistoricLineIsLost` | internal/cluster/logstream.go:277-280 | a line stamped before the zero time is not accepted |
| `LogStream.TurnKeeps` | internal/cluster/logstream.go:126-234 | one turn of the reconnect loop keeps exactly-once delivery, the retry budget and the idle stretch, and has less left to do |
| `LogStream.StreamEnds` | internal/cluster/logstream.go:105-235 | for every honest server, status and cancellation script the loop ends; what was offered is the log up to the furthest point any stream reached, of which only a stream cancelled while it was read may keep a rest; every reopen asks for the time of the last line reached; at most 5(A+2) reopens when A streams brought a new line; giving up takes five reopens without one; a clean end takes confirmed completion and a clean read of the latest stream |
| `LogStream.EndsOnce` | internal/cluster/logstream.go:105-123 | once ended, nothing more is sent |
| `LogStreamEnds.EndsForCause` | internal/cluster/logstream.go:126-234 | every end has its cause in the world's answers and no cause is passed over: a cancellation, a refused reopen, or a clean read after a confirmed completion ends the run there and then, with one status check for every other clean read; and every unstamped line of every stream is offered in order, up to where a cancelled scan stopped |
| `LogStreamEnds.UntimedGoThrough` | internal/cluster/logstream.go:149-156 | a line without a timestamp is never held back by the cursor |
| `LogStreamer.Scan` | internal/cluster/logstream.go:143-161 | the scan loop offers the lines the cursor accepts, and the unstamped ones, up to where it ended or was cancelled |
| `LogStreamer.ReconnectLoop` | internal/cluster/logstream.go:126-234 | the loop as written, with its cursor object, takes exactly the turns of the specification |
| `LogStreamer.RunStream` | internal/cluster/logstream.go:105-235 | unless cancelled the last message is the end marker, and it is sent once; an error is sent exactly when the run gave up or was refused, once and directly before it; when cancelled neither is; before that come exactly the lines and reconnect notices of those turns |
| `Utf8.DecodeEncode` | internal/ui/logs.go:730-738 | decoding the UTF-8 encoding of any scalar value gives it back, whatever follows |
| `Utf8.EncodeDecode` | internal/ui/logs.go:730-738 | whatever decodes is exactly the encoding of one scalar value: no overlong forms, no surrogates, nothing out of range |
| `Utf8.SectionSeven` | internal/ui/logs.go:730-738 | the examples of section 7 of RFC 3629 |
| `Sanitizer.StringSwallows` | internal/ui/logs.go:796-821 | a control string ends at its first terminator and swallows everything before it |
| `Sanitizer.SgrIsKept` | internal/ui/logs.go:773-795 | a complete SGR sequence is written through whole, whatever follows |
| `Sanitizer.KeptIsSgr` | internal/ui/logs.go:773-795 | and nothing but a complete SGR sequence is |
| `Sanitizer.SanitizedIsClean` | internal/ui/logs.go:699-739 | for every byte string the output is printable ASCII, well-formed scalars from U+00A0 on, and complete SGR sequences |
| `Sanitizer.FixedExactlyWhenClean` | internal/ui/logs.go:690-739 | a line is left alone if and only if it is in that language, and sanitizing twice equals once |
| `Sanitizer.FastPathAgrees` | internal/ui/logs.go:742-761 | the fast path's test is false exactly for printable text without escapes, and then the slow loop would change nothing |
| `Sanitizer.NeedsSanitizing` | internal/ui/logs.go:745-761 | the loop decides membership in plain text |
| `Sanitizer.CopySgr` | internal/ui/logs.go:768-832 | always advances, never past the end, writes the sequence exactly when it is a complete SGR, and resumes where the sequence ends, which `SanitizerGrammar.PieceIsTurn` says of the bytes |
| `Sanitizer.SwallowString` | internal/ui/logs.go:805-821 | the payload loop stops where the control string ends |
| `Sanitizer.SanitizeLogLine` | internal/ui/logs.go:699-739 | fast path or slow loop, the result is clean, and equals the input exactly when that was clean |
| `SanitizerGrammar.PieceIsTurn` | internal/ui/logs.go:699-832 | for all bytes: in front of any rest a printable byte or scalar from U+00A0 on is copied, a tab becomes four spaces, other controls, C1 scalars and stray bytes go; a complete CSI goes up to and with its final byte unless it is an SGR, which is copied; a broken one goes up to the byte that broke it; an escape goes with its intermediates and last byte; a control string goes with its payload and closer, or up to the ESC that aborts it |
| `SanitizerGrammar.FirstPiece` | internal/ui/logs.go:699-832 | every non-empty line starts with one of those pieces |
| `SanitizerGrammar.SanitizedMeans` | internal/ui/logs.go:699-739 | so a line's sanitized form is what is shown of its pieces, however it is cut into them |
| `LogBuffer.AfterCursor` | internal/ui/logs.go:446-449 | the current match stays current until its line is evicted; then the oldest match left is |
| `LogBuffer.BatchInvariance` | internal/ui/logs.go:873-896 | two batches one after the other leave the lines, base, scroll, matches and current match that one batch of all the lines leaves |
| `LogBuffer.AnySplit` | internal/ui/logs.go:866-896 | so does any split of a list of lines |
| `LogBuffer.AnchorHolds` | internal/ui/logs.go:888-893 | while paused the viewport's absolute end becomes the larger of its old end and one past the oldest line; while following it is the tail |
| `LogBuffer.WrapsAround` | internal/ui/logs.go:461-468 | stepping moves around the match list in either direction and always lands on a match |
| `LogBuffer.StepShowsMatch` | internal/ui/logs.go:461-488 | stepping moves to the right match, pauses, and shows it if and only if the viewport is more than one line high or that match is the oldest line |
| `LogBuffer.OneLineViewMissesMatch` | internal/ui/logs.go:472-488 | nine rows high, two matching lines: one step down selects line 1 and shows line 0 |
| `LogBuffer.EnterShowsFirst` | internal/ui/logs.go:402-411 | Enter goes to the first match, pauses, and shows it under the same condition |
| `LogBuffer.RunValid` | internal/ui/logs.go:431-533 | after any run of batches, search edits, Enter, steps, scrolls and follow switches: matches are a full rescan of the retained lines by sequence number, the cursor is on one, a line is in view, and every retained line is clean |
| `LogRetention.BatchRetains` | internal/ui/logs.go:873-887 | a batch leaves the newest of the old lines followed by the sanitized batch, as many as fit and all if they do, and the base rises by exactly the number evicted |
| `LogRetention.HoldsNewest` | internal/ui/logs.go:873-896 | after any run the buffer is the newest lines that ever arrived, as many as fit, and each held line's number is its place among all that arrived |
| `LogRetention.MatchesAre` | internal/ui/logs.go:450-456 | a number is among the matches exactly when it is a held line's and that line, in lower case, contains the non-empty search |
| `LogRetention.RunMatches` | internal/ui/logs.go:431-457 | after any run the matches are the held lines that contain the term as last edited |
| `LogRetention.ScrollStops` | internal/ui/logs.go:510-534 | scrolling moves the view by what was asked up to the oldest or newest line, never past a full page, and follows exactly when the newest line shows |
| `LogRetention.MatchCentred` | internal/ui/logs.go:472-488 | a match gone to sits in the middle of the approximated view, which stops at the newest line and at the oldest full page |
| `LogRetention.KeysDo` | internal/ui/logs.go:397-457 | an edited term moves nothing but the search, to the first match if it is a new one; pausing keeps the view, following goes to the newest line |
| `LogView.SearchInts` | internal/ui/logs.go:447-447 | binary search for the first retained match |
| `LogView.LogsState.RecomputeMatches` | internal/ui/logs.go:431-457 | the incremental update, from any state the last batch or edit left behind, equals a full rescan and keeps the cursor on its match |
| `LogView.LogsState.ApplyLogLines` | internal/ui/logs.go:873-896 | appending, evicting, moving the paused view and searching incrementally leave the state that `LogRetention.BatchRetains`, `LogBuffer.AnchorHolds` and `LogBuffer.AfterCursor` describe |
| `LogView.LogsState.EditTerm` | internal/ui/logs.go:397-425 | an edited term rescans from the oldest line and starts at the first match; an equal one changes nothing |
| `LogView.LogsState.EnterSearch` | internal/ui/logs.go:402-411 | Enter goes to the first match and scrolls to it, and does nothing without one |
| `LogView.LogsState.StepLogsMatch` | internal/ui/logs.go:461-488 | the step and its scroll, nothing else |
| `LogView.View` | internal/ui/logs.go:431-896 | the object over any run equals the pure state machine |
| `Focus.RunInv` | cmd/kubetin/main.go:455-561 | every interleaving of callers and loop: spawned generations strictly increase, at most one child runs and none after exit, `active` is the last one spawned, and no wake-up is lost |
| `Focus.SpawnsNewest` | cmd/kubetin/main.go:507-515 | what is spawned is the newest accepted request at that instant, newer than all before it, and the previous child is cancelled first |
| `Focus.LatestIsNewest` | cmd/kubetin/main.go:455-462 | in any run the accepted request is the one with the highest generation, the earliest if several have it |
| `Focus.ChildrenStay` | cmd/kubetin/main.go:507-515 | no child is forgotten and none is revived |
| `Focus.LatestOnlyGrows` | cmd/kubetin/main.go:455-469 | a late request never replaces a newer one |
| `Focus.SettlesInTime` | cmd/kubetin/main.go:517-561 | with no more requests the loop comes to rest within a number of steps known beforehand |
| `Focus.NotSettledMoves` | cmd/kubetin/main.go:517-561 | until it is at rest some step is enabled |
| `Focus.SettledIsCurrent` | cmd/kubetin/main.go:517-561 | at rest, the running child is the one for the newest request made, in whatever order requests came in, if and only if that names a context |
| `Focus.EmptyContextIsIgnored` | cmd/kubetin/main.go:542-545 | a newer request without a context leaves the old child running |
| `Focus.ServeOne` | cmd/kubetin/main.go:455-561 | a new request served without interruption cancels the old child and spawns exactly its own |
| `FocusCoordinator.WatchCoordinator.Accept` | cmd/kubetin/main.go:455-462 | accepts exactly the first or a newer request, and only then is a signal owed |
| `FocusCoordinator.WatchCoordinator.HandleRequest` | cmd/kubetin/main.go:529-541 | reads the newest request; the active one clears what is pending, any other re-arms the timer |
| `FocusCoordinator.WatchCoordinator.HandleTimer` | cmd/kubetin/main.go:542-558 | applies the pending request only if it is still the newest, else takes the newest and waits again |
| `FocusCoordinator.Interleave` | cmd/kubetin/main.go:441-561 | the object through any legal interleaving ends where the steps say, with the invariant intact |
| `DrainTrace.AllAccounted` | internal/cluster/nodeops.go:180-194 | every pod is either counted as gone or listed as remaining |
| `DrainSpec.ListSound` | internal/cluster/nodeops.go:263-293 | the list is all drainable pods in order, each with no local data and a confirmed controller; or some pod had to be refused |
| `DrainSpec.CheckSound` | internal/cluster/nodeops.go:302-358 | a pod passes exactly when it has no emptyDir and its controller was confirmed, now or before; each controller is confirmed once |
| `DrainSpec.EvictReason` | internal/cluster/nodeops.go:388-411 | one to six requests for a pod, every one but the last turned down for its disruption budget; success exactly when the last reply accepted or found nothing, failure with that reply's reason, and giving up on the budget only after six or when the context is done |
| `DrainSpec.EvictAsks` | internal/cluster/nodeops.go:388-411 | all of them are for that pod |
| `DrainSpec.RequestSound` | internal/cluster/nodeops.go:195-220 | every candidate is asked before anything is polled, unless cancelled, and an end is put to each; those that accepted, and no others, wait in list order |
| `DrainSpec.PollOneSound` | internal/cluster/nodeops.go:229-246 | one poll keeps the accounts and where every pod stands: counted at most once, still waiting, or not to be found out |
| `DrainSpec.PollCounts` | internal/cluster/nodeops.go:232-245 | a poll counts a pod exactly when the cluster says, before the context is done, that it is gone or replaced, and keeps it exactly when it is still the same pod |
| `DrainSpec.CountedButUnreported` | internal/cluster/nodeops.go:233-240 | the event of a pod that was counted can be lost, when the context becomes done between the check and the send |
| `DrainSpec.AwaitSound` | internal/cluster/nodeops.go:224-259 | polling ends with nothing pending and every pod explained, or because the context is done |
| `DrainSpec.DrainCloses` | internal/cluster/nodeops.go:127-259 | for every script and moment of cancellation: preflight of all candidates before the first eviction, the last eviction before the first poll, one terminal event, last, whose remaining list is the uncounted pods in order, and no reply made up; either nothing was started, for a named reason, or all drainable pods were candidates and each was asked and then counted, given up or not to be found out, unless the context is done |
| `DrainEvents.DrainTells` | internal/cluster/nodeops.go:127-259 | pods are asked in list order, each until an end is put to it; every event names the pod of the act before it and has the right counts; and unless the context is done every acceptance, failure and confirmation is followed by its event |
| `DrainEvents.DrainableAre` | internal/cluster/nodeops.go:263-293 | the pods to drain are those that are not mirror pods, not a DaemonSet's and not finished, in list order |
| `DrainEvents.RemainingAre` | internal/cluster/nodeops.go:186-191 | the remaining list names the pods not confirmed gone, as namespace/name, in list order |
| `DrainEvents.NoMoreRequests` | internal/cluster/nodeops.go:196-200 | once the context is done no other pod is asked |
| `DrainEvents.NoMoreCounts` | internal/cluster/nodeops.go:227-236 | and one more pod is polled at most, and not counted |
| `DrainTrace.ClosedAccounts` | internal/cluster/nodeops.go:180-194 | the terminal event's done plus remaining is the total, done is the number confirmed gone, and no earlier event is terminal |
| `Drain.ListDrainable` | internal/cluster/nodeops.go:263-293 | the loop with its memo computes that list |
| `Drain.EvictWithRetry` | internal/cluster/nodeops.go:388-411 | the retry loop makes those requests, with at most 31 seconds of back-off |
| `Drain.PollRound` | internal/cluster/nodeops.go:227-247 | the round filtered in place equals the round over a separate list: no entry is lost, repeated or read after it was overwritten |
| `Drain.DrainNode` | internal/cluster/nodeops.go:127-259 | the whole drain as written |
| `Drain.Forward` | cmd/kubetin/drain.go:31-52 | folding by maximum over any such stream, with progress events missing, gives the terminal event's figures, and the blocked reports in order |
| `Drain.ReportsAre` | cmd/kubetin/drain.go:31-52 | the blocked reports are those of the blocked events, in order, each the pod and its error in brackets |
| `Drain.EventsAre` | cmd/kubetin/drain.go:31-52 | the forwarder sees every event of the trace, in order |
| `Drain.StartDrain` | cmd/kubetin/drain.go:13-57 | whatever was dropped on the way, the summary counts the pods confirmed gone, lists all the others, and adds up, for a drain that ended as above |
| `NetworkRotation.NetworkPoller.QueueNodes` | internal/cluster/networkpoll.go:210-232 | the jobs are the listed nodes, each once, by name from the cursor on and around, and the cursor moves by four exactly when the tick had time |
| `NetworkRotation.JobsPermute` | internal/cluster/networkpoll.go:228-231 | each tick queues every listed node once, in any API order |
| `NetworkRotation.NobodyStarves` | internal/cluster/networkpoll.go:210-232 | over an unchanged node set, a quarter as many live ticks (rounded up) put every node into some first group of at most four, for any cursor, any API order, and dead ticks in between |
| `NetworkRates.BaselineIsLatest` | internal/cluster/networkpoll.go:189-206 | after any run of ticks a baseline is the sample of the latest scrape of its node, present exactly when that scrape had the pod and the node stayed listed since |
| `NetworkRates.RateSinceLatest` | internal/cluster/networkpoll.go:189-206 | so every rate spans the whole interval since that scrape, and a pod without one starts at zero |
| `NetworkRates.RateSpansInterval` | internal/cluster/networkpoll.go:303-312 | a rate is never negative, is zero after a counter reset, and else is the whole number of bytes a second over the interval |
| `NetworkRates.NetworkRates` | internal/cluster/networkpoll.go:273-301 | in any iteration order, a pod's rates are the sums over its nodes, dated by the oldest sample, and the total is the sum over all samples |
| `NetworkRates.ClusterIsSumOfPods` | internal/cluster/networkpoll.go:273-301 | the cluster's rate is the sum of the pods' rates |
| `NetworkRates.NetworkPoller.StoreSamples` | internal/cluster/networkpoll.go:196-205 | forgets samples of unlisted and of scraped nodes, keeps those of missed ones, stores the new |
| `NetworkRates.NetworkPoller.Tick` | internal/cluster/networkpoll.go:189-206 | rates are taken against the baselines as they were before this tick's samples replace them |
| `NetworkExpiry.DueCovers` | internal/ui/network.go:78-83 | scheduling covers the new reading and all covered before, with the exact exception of the sentinel time |
| `NetworkExpiry.FreshCanBeScheduled` | internal/ui/network.go:13-83 | every reading that is fresh now gets a deadline that covers it if and only if the clock is not before the zero time |
| `NetworkExpiry.NothingDue` | internal/ui/network.go:85-89 | before the deadline a full scan would change nothing |
| `NetworkExpiry.NetworkModel.ApplySnapshot` | internal/ui/network.go:17-76 | a snapshot (partial, failed, out of order) updates rows and aggregate, and the deadline covers all that is marked fresh, in any row order |
| `NetworkExpiry.NetworkModel.Expire` | internal/ui/network.go:85-111 | the tick leaves exactly the flags of a full scan, and a deadline that covers what is still fresh |
| `NetworkExpiry.Lazily` | internal/ui/network.go:13-111 | over any run of snapshots with readings of any date, pod events and ticks, with snapshots arriving at or after the zero time, every flag, reading and status is what a full scan at every tick would leave |
| `NetworkExpiry.SnapshotShows` | internal/ui/network.go:17-60 | a snapshot gives each pod the rx, tx and time of its own last reading, fresh if under 45 seconds old, and clears a pod without one; one that reached no node only clears flags; one out of order changes nothing |
| `NetworkExpiry.TotalsShow` | internal/ui/network.go:34-71 | the totals are the snapshot's, dated by its oldest reading, and good exactly while that is under 45 seconds old |
| `NetworkExpiry.TickShows` | internal/ui/network.go:85-111 | a tick clears the flag of exactly what is 45 seconds old and changes nothing else |
| `NetworkExpiry.PodShows` | internal/ui/app.go:814-835 | a pod event removes a row, renames one without touching its reading, or adds one without any |
| `ScopeFlight.RunInv` | internal/cluster/probe.go:133-168 | every interleaving of callers and calls keeps the invariant relating cache, call map and calls |
| `ScopeFlight.OneRequest` | internal/cluster/probe.go:140-161 | at most one request is outstanding |
| `ScopeFlight.StoredOnce` | internal/cluster/probe.go:149-158 | a run has at most one settling reply; what is stored is what it said, all namespaces if the cluster list was allowed and the hint if denied; it is never replaced, no request follows it, and a transient answer is never cached |
| `ScopeFlight.ClosedCallSays` | internal/cluster/probe.go:147-161 | a settling reply is stored by the time its call is closed, and a closed call says all namespaces if its reply allowed them and the hint if not |
| `ScopeFlight.WaitersAgree` | internal/cluster/probe.go:162-168 | all who waited for one call to the end got the same answer: the stored scope, or the hint after a transient failure |
| `ScopeFlight.CallMoves` | internal/cluster/probe.go:147-168 | while a caller waits, its call has a step to make or an answer to give |
| `ScopeFlight.CallAdvances` | internal/cluster/probe.go:147-161 | each of a call's own steps brings it closer to closing, and nobody else's sets it back |
| `ScopeResolver.AnswerJustified` | internal/cluster/probe.go:133-168 | every caller's answer is the cached scope, or the hint after giving up, or the answer of the call it joined, which is the cached scope unless the cluster could not be asked |
| `ScopeResolver.Interleave` | internal/cluster/probe.go:133-185 | any legal interleaving, carried out on the object, leaves the cache, the calls and what each caller collected as the steps say, and every answer justified |
| `Columns.DropColumns` | internal/ui/columns.go:45-56 | drops the shortest prefix, by falling priority and rising position, after which the minima fit; columns of priority 0 never |
| `Columns.GrowColumns` | internal/ui/columns.go:57-74 | deals cells round-robin until the pane is full or every column is at its maximum |
| `Columns.FitColumns` | internal/ui/columns.go:28-75 | each width is 0 or within bounds, the dropped set is minimal, the total is exactly the pane or everybody is at the maximum, nobody grows when the minima do not fit, and the result is a round-robin deal |
| `Columns.DealIsFair` | internal/ui/columns.go:57-74 | a column below its maximum is at most one cell behind any other, and only behind earlier ones |
| `Columns.LinesAlign` | internal/ui/columns.go:80-93 | a joined line of padded cells is as long as the widths fitted, and each visible column starts at the same place on every line |
| `Columns.JoinCells` | internal/ui/columns.go:80-93 | the joining loop builds that line |
| `ContextLabels.FirstFree` | internal/kubeconfig/discover.go:156-165 | the unbounded numbering stops, at the smallest free number |
| `ContextLabels.DecimalInjective` | internal/kubeconfig/discover.go:159-159 | different numbers print differently |
| `LabelText.DecimalReads` | internal/kubeconfig/discover.go:159-159 | a number's text is its decimal digits, without leading zeros |
| `ContextLabels.LabelsAreDistinct` | internal/kubeconfig/discover.go:123-168 | labels are pairwise distinct, a raw name that occurs once is kept, and no made-up label equals any raw name |
| `LabelText.LabelReads` | internal/kubeconfig/discover.go:125-168 | a context alone with its raw name is called by it; any other is its raw name and, in brackets, the first end of its file's path that nobody else asks for and nothing uses, or failing that the whole path and the first unused number from 2 on in square brackets |
| `ContextLabels.PickCandidate` | internal/kubeconfig/discover.go:150-155 | the first path tail nobody else claims and no label uses |
| `ContextLabels.AssignContextNames` | internal/kubeconfig/discover.go:125-168 | labels every context in place: raw name, first free tail, or first free number |
| `ContextLabels.Register` | internal/cluster/probe.go:231-260 | accepts exactly when no label and no (file, raw name) repeats |
| `ContextLabels.Discover` | internal/kubeconfig/discover.go:91-119 | contexts found with distinct (file, raw name) are never rejected, whatever their names and paths |

## Left out

- Kubernetes clients, informers, HTTP, exec and file access: their results are inputs.
- Rendering, key maps and styling, including highlightMatches, windowRows and fitLogLine.
- The table caches of the other views (nodes, deployments, services and so on), which are rebuilt, not merged.
- reachAccumulator's two-sample hysteresis, classification of errors and probe fields: one branch settles each.
- parseCAdvisor, parseLogTimestamp and pathTails: samples, stamps and path tails are inputs.
- splitCols with arbitrary weights.
- Trust lists, kubeconfig parsing and the sorting of discovered contexts, on which the labels' guarantees do not depend.
- Delivery.EventDelivery.Publish: does not model the 64-bit wrap of an entry's version, and leaves out the CoalescedEvents counter, which the code itself keeps only approximately.
- ResourceBatch.Forward: does not say where batches are cut, beyond their size, because only the scheduler decides it.
- PodTableCache.Replay: assumes pods have a non-empty UID, since the empty one is reserved for the sync marker; a metric that waited for its pod is an arbitrary optional input instead of a lookup with an age test.
- PodTableCache.Model.DashboardPodOrder: only pods; the other dashboard sections are left out.
- LogStreamer.RunStream: lines are offered, since a full channel drops them; the log starts at the first stamped line delivered, so neither the initial tail nor the five-second window used before any stamped line is modelled as a loss.
- LogBuffer.StepShowsMatch: about the height the code approximates, not the height the renderer ends up with.
- LogView.View: stream resets, the container picker and the keys that move by one line or a page are left out; they clamp the same offset.
- Focus.RunInv: the watchers a spawn starts are one child; the debounce time is "whenever the timer fires".
- Drain.DrainNode: error texts are fixed words where the code composes them; the steps before the listing (client, cordon) are one input.
- NetworkRates.NetworkRates: rates are unbounded integers and the floor of a real quotient, so 64-bit overflow and floating-point rounding are left out.
- NetworkRotation.NobodyStarves: about the jobs the workers take first; whether a scrape finishes in time is up to the cluster.
- NetworkExpiry.Lazily: the sparkline history and the coverage label are left out.
- ScopeFlight.RunInv: one context; other contexts have their own entries in both maps.
