# SinkBadgeEvents polling loop, in Dafny

SinkBadgeEvents pulls badge events (rider check-ins against stops, vehicles and
rides) from a remote transit API and hands each one to a caller-supplied sink.
All of its behaviour sits in one private loop, `watchForAndSendAlerts`, and in
the argument check and request selection of `fetchBadgeReport`. This project
models those two and proves what they guarantee.

- `badge_types.dfy` (module `BadgeTypes`): badge events, badge reports with a
  nullable cursor, instants as integers, and the error kinds of a fetch.
- `fetcher.dfy` (module `Fetcher`): `fetchBadgeReport`. The server's answers
  to the token POST and the report GET are an input (`Exchange`). The function
  `Fetch` specifies one fetch. The method `FetchBadgeReport` follows the Java
  statements and is proved equal to it.
- `watcher.dfy` (module `Watcher`): the state of the loop (`cursor`,
  `startTime`) and the request it selects (`ArgsFor`). It also holds the
  backoff rule (`Step`), delivery of a batch (`Deliver`), one pass of the loop
  (`Turn`) and a whole run (`Run`). The method `WatchForAndSendAlerts` is the
  loop itself: a `while` over the passes with the nested `for` over the batch.
  It is proved to produce exactly `Run`.
- `watcher_properties.dfy` (module `WatcherProperties`): lemmas about every
  run, from any start state, for any server behaviour and any pattern of
  sink failures.

The Java loop is `while (true)`. Here the server's behaviour on each pass is a
`Round`: its answers to the fetch, and whether the backoff sleep of that pass
is interrupted. A run over a finite sequence of rounds ends in one of three
ways. It runs out of rounds (`Exhausted`: the real loop would go on). A fetch
throws (`FetchFailed`). Or the sleep is interrupted (`Interrupted`). A run
records one `Iteration` per pass. The record holds the arguments passed to
`fetchBadgeReport`, the network calls of that fetch, the sink calls and
whether the full backoff sleep followed. Sink failures are a function
`fails: BadgeEvent -> bool`. A failing sink call is recorded with
`failed == true`, which stands for the logged and swallowed exception.

One would expect the switch to cursor mode to be permanent. The code
assigns `cursor = report.cursor` on every non-empty batch, even when that
cursor is null (SinkBadgeEvents.java:177). A null cursor therefore sends the
loop back to window mode. The model follows the code:
`NonEmptyBatchAdvancesCursor` states the fallback, and `CursorModeIsPermanent`
is proved only for servers that attach a cursor to every non-empty report.

## Model

| member | source | states |
|---|---|---|
| `Fetcher.RequestFor` | src/main/java/com/tripshot/sinkbadgeevents/SinkBadgeEvents.java:189-194 | the report is requested after the cursor exactly when the cursor is set, and otherwise for the window from startTime, carrying the argument's own value |
| `Fetcher.Fetch` | src/main/java/com/tripshot/sinkbadgeevents/SinkBadgeEvents.java:182-199 | both or neither of cursor and startTime set is rejected with an invalid-argument error and no network call at all; otherwise a token is requested first, and exactly one report GET follows whenever the token was obtained (none when the token POST fails); that GET carries the token this same fetch obtained; the fetch succeeds, with the server's report, exactly when both calls succeed, and fails with a transport error exactly when one of them fails |
| `Fetcher.FetchBadgeReport` | src/main/java/com/tripshot/sinkbadgeevents/SinkBadgeEvents.java:182-200 | the statement-by-statement fetch makes the same calls and returns the same result as `Fetch` |
| `Watcher.ArgsFor` | src/main/java/com/tripshot/sinkbadgeevents/SinkBadgeEvents.java:153-157 | the loop passes exactly one of cursor and startTime: the cursor when it is non-null, otherwise the start time |
| `Watcher.Step` | src/main/java/com/tripshot/sinkbadgeevents/SinkBadgeEvents.java:168-178 | a backoff happens exactly when the batch is empty; the start time is kept; after an empty batch the next fetch has the same arguments; after a non-empty one it fetches from the report's cursor, or from the start time when that cursor is null |
| `Watcher.Deliver` | src/main/java/com/tripshot/sinkbadgeevents/SinkBadgeEvents.java:159-166 | one sink call per event, in the batch's order, each recording whether the sink threw on that event |
| `Watcher.Turn` | src/main/java/com/tripshot/sinkbadgeevents/SinkBadgeEvents.java:150-179 | one pass: it continues exactly when both calls of the fetch succeed and the pass is not an empty batch with an interrupted sleep; it fetches with `ArgsFor` of the state and delivers the whole batch; it sleeps exactly after an empty batch whose sleep is not interrupted; it halts on a transport error exactly when a call of the fetch fails, and on an interrupt exactly when an empty batch's sleep is interrupted, and never on an invalid-argument error; when it continues, it keeps the same start time, in the same state after an empty batch, with the report's cursor after a non-empty one |
| `Watcher.WatchForAndSendAlerts` | src/main/java/com/tripshot/sinkbadgeevents/SinkBadgeEvents.java:144-180 | the imperative loop (fetch, nested delivery loop, backoff or cursor update) produces exactly the passes and the stop reason of `Run` from the initial state |
| `WatcherProperties.NeverTripsArgumentCheck` | src/main/java/com/tripshot/sinkbadgeevents/SinkBadgeEvents.java:150-183 | in every run, every fetch has exactly one of cursor and startTime set and requests a token, and no run ends with an invalid-argument error |
| `WatcherProperties.RunShape` | src/main/java/com/tripshot/sinkbadgeevents/SinkBadgeEvents.java:150-179 | a run consumes one round per pass and never more rounds than it is given; it uses all of them when it ends by running out of rounds, and it has made at least one pass when it stops |
| `WatcherProperties.HowRunsEnd` | src/main/java/com/tripshot/sinkbadgeevents/SinkBadgeEvents.java:150-179 | a run ends on a transport error only at a pass whose token or report call failed, and that pass delivered nothing and did not sleep; it ends on an interrupt only at a pass that received an empty batch and whose sleep was interrupted |
| `WatcherProperties.HaltingPassEndsRun` | src/main/java/com/tripshot/sinkbadgeevents/SinkBadgeEvents.java:150-174 | conversely, a pass whose token or report call fails is the last pass of its run and the run stops on a transport error; a pass that receives an empty batch and whose sleep is interrupted is the last pass and the run stops on the interrupt |
| `WatcherProperties.StopIsFinal` | src/main/java/com/tripshot/sinkbadgeevents/SinkBadgeEvents.java:150-179 | once a run has stopped on a fetch error or an interrupted sleep, whatever the server would do afterwards changes nothing: no further fetch or delivery happens |
| `WatcherProperties.BatchesDeliveredInOrder` | src/main/java/com/tripshot/sinkbadgeevents/SinkBadgeEvents.java:159-166 | every pass hands the sink each event of its batch exactly once, in the report's order, whatever the sink throws |
| `WatcherProperties.SinkSeesConcatenatedBatches` | src/main/java/com/tripshot/sinkbadgeevents/SinkBadgeEvents.java:150-179 | over a whole run the sink sees the concatenation of the fetched batches, in fetch order |
| `WatcherProperties.EmptyBatchBacksOffAndRepeats` | src/main/java/com/tripshot/sinkbadgeevents/SinkBadgeEvents.java:168-174 | after an empty batch the loop sleeps unless interrupted, and the next fetch has exactly the same arguments: the same cursor, or the same start time |
| `WatcherProperties.NonEmptyBatchAdvancesCursor` | src/main/java/com/tripshot/sinkbadgeevents/SinkBadgeEvents.java:175-178 | after a non-empty batch there is no sleep; the next fetch is in cursor mode with exactly the report's cursor when it is non-null, and in window mode from the original start time when it is null |
| `WatcherProperties.StartTimeNeverChanges` | src/main/java/com/tripshot/sinkbadgeevents/SinkBadgeEvents.java:146-157 | every window-mode fetch of a run uses the start time the run began with |
| `WatcherProperties.FirstFetchIsWindowed` | src/main/java/com/tripshot/sinkbadgeevents/SinkBadgeEvents.java:146-157 | the loop's first fetch is a window fetch from the instant the loop started |
| `WatcherProperties.CursorModeIsPermanent` | src/main/java/com/tripshot/sinkbadgeevents/SinkBadgeEvents.java:150-179 | if every non-empty report carries a cursor, then after any pass that received a non-empty batch or fetched by cursor, every later fetch is in cursor mode |
| `WatcherProperties.StaysInCursorMode` | src/main/java/com/tripshot/sinkbadgeevents/SinkBadgeEvents.java:153-178 | from a state that holds a cursor, if every non-empty report carries a cursor, every fetch of the run is in cursor mode |
| `WatcherProperties.SinkFailuresAreIsolated` | src/main/java/com/tripshot/sinkbadgeevents/SinkBadgeEvents.java:159-166 | two runs whose sinks fail on different events make the same fetches, hand over the same events, sleep at the same passes and stop the same way |

## Left out

- HTTP transport, the request factory and JSON parsing (`getAccessToken`, `request.execute().parseAs`) are foreign library calls. The answers of the two calls of a fetch are the `Exchange` input: a token or a failure, and a report or a failure.
- A response with a token field that is absent is not modelled. The Java code would then send "Bearer null".
- A report whose `badgeEvents` list is absent makes the Java loop throw a NullPointerException at the delivery loop. That ends the loop before any delivery, so the model counts such a response as a failed report GET.
- URL text is not modelled: the path, `CharEscapers.escapeUriPath` of the cursor and the ISO-8601 printing of instants. Only the request kind and its parameter are kept (`ByCursor`, `ByWindow`).
- The end of a window is the clock reading at the call (`new Instant()` in `fetchBadgeReport`). It is not modelled, so nothing is stated about window ends growing over time. The loop's start instant is the `now` parameter.
- The 5000 ms `Thread.sleep` is the `slept` flag of a pass; its duration is not modelled.
- The `while (true)` loop is modelled over a finite sequence of rounds. A run that uses up its rounds ends with `Exhausted`, which stands for "the loop goes on".
- Sink failures are a fixed function of the event. A sink whose failures depend on earlier calls is not modelled.
- Logging (`printStackTrace`) is the `failed` flag of a sink call.
- Thread creation in `startSink`, the constructor's configuration fields, `BadgeEvent.getAt` date parsing, the `LatLng` location (doubles) and the `toString` methods are not modelled. Events are opaque values the loop only hands over.
