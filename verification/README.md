# Verified model of the Sakura monitoring system

Agents queue samples and events and push them to a hub; the hub turns events into incidents and
logs every change; clients rebuild the hub's tables from pages and streams of that log. These
modules model the stateful protocols in between and prove what holds of them over every run.

Two kinds of text stand side by side. A *specification* module gives the state as a value and every
committed write, network move or gate step as a function on it; its lemmas are the results. A
*class* does the same work step by step on mutable tables, with the loops of the original, and each
of its methods is proved to leave exactly the state the specification gives.

| part | modules |
|---|---|
| incidents, ingest, change log, retention | `HubSpec`, `HubStore` (class), `HubEvents`, `HubRounds`, `HubOrder`, `HubLinks`, `HubNotices`, `HubIngest`, `HubReports`, `HubOnce`, `HubChanges` |
| replicas and streams | `HubReplica`, `HubBackfill`, `HubSync`, `ClientCache` (class), `Stream` (with classes), `Sse` (with class) |
| the agent's queue and sender | `AgentQueue` (with class), `DrainSpec`, `DrainLaws`, `Reporter` (class), `Delivery` (with class) |
| rules and metrics | `Rules`, `RuleReadings`, `RuleEngine` (class), `Rollup` |
| release cache, publishing, limiters | `CacheSpec`, `CacheProtocol`, `CacheServes`, `AgentCache` (class), `Release` (with class), `Limiters` (with classes) |

`dafny verify dfyconfig.toml` checks everything; `Basics` holds an option type and two small helpers.

## What does not hold, and exactly when it does

- A resolve that closes a round directly is not remembered, so an older open that arrives later
  reopens the round, against section 3 of contracts/events.md. A late open takes effect if and only
  if no *pending* resolve with a larger seq is recorded (`HubOrder.LateOpenExactly`), that is, over
  every run, if and only if each resolve received with a larger seq closed a round as it came or has
  been removed by retention (`HubOrder.LateOpenOverRuns`; the input is seqs 1, 10, 5 in `GhostOpen`). Delivered in seq order a key is a two-state automaton.
- Back-filling changes message rows without a change row. Over every run the folded log has another
  message than the hub if and only if the row was adopted by a fault after it was last written
  (`HubBackfill.AdoptedSinceExactly`), and then it lacks just the fault and the incident
  (`HubReplica.LogRebuildsTables`).
- The sync endpoint answers any cursor and never says that changes before its page are gone. A
  client that was in step at cursor k and pages to the end has the hub's faults if and only if no
  row's last change lies in (k, trimmed] and no row it held was deleted along with its tombstone
  (`HubSync.StaleClientExactly`, `StaleClientMessagesExactly`; from cursor 0 only the first matters,
  `FreshClientExactly`). Over every interleaving, and at every moment, a client agrees with the hub
  if and only if it has received the last change of every row, was left behind on none, and (for
  messages) no row was adopted since its last change (`ClientAgreesExactly`); one that was never cut off agrees whenever it has caught up.
- Retention keeps the log a non-empty suffix if and only if its newest row survives
  (`HubChanges.TrimKeepsTail`); an emptied log never answers resync (`EmptiedLogNeverResyncs`).
- Deduplication compares ids alone and only with rows retention has kept. Two deliveries of an id,
  whatever else they carry, can both be applied if and only if the later one is dated more than
  `messagesDays - 90` days after the receipt of the earlier (and is not itself too old), and for
  every such pair there is a run that applies both (`HubOnce.RepeatedExactly`). Runs without such
  a pair apply nothing twice (`HubOnce.AppliedAtMostOnce`).
- Success answers to metric batches can be trusted on every run if and only if the hub's last seq is
  not above the agent's when they start (`Delivery.DeliverySafeExactly`): an agent whose queue
  database was lost starts again at 1 and its batches are acknowledged and dropped.
- `drainOnce` succeeds, for every script of answers, if and only if nothing is pending or some
  acknowledgement, with no 401 and no failure before it, arrives when only one batch, or no batch
  and at most `maxEventSend` events, is left; what is left counts one more for each body refused so
  far (`DrainSpec.DoneExactly`). A hub that refuses every body is posted to for ever.
- A stream writes ids in strictly increasing order always, but without a gap if and only if every
  delivery so far was at most the next id due and the replay read a table that was empty or reached
  back to the cursor (`Stream.GaplessExactly`); publishing outside the write lock can swap two
  transactions and lose an entry (`Stream.LateEntryIsSkipped`).
- A printed SSE stream reads back if and only if each frame's data is not empty, does not start with
  a line feed, has no line ending in a carriage return, and its name is one line not ending in one
  (`Sse.StreamReadsBackExactly`). The parser drops leading line feeds, which section 9.2.6 of the
  WHATWG HTML standard keeps, and takes an empty event name as it is.
- The recovery timer of a rule knows whether a round is up, not which one. Whoever else writes the
  key, the engine resolves too early if and only if the delay lies between the recovery of the round
  now up and the time on the timer (`Rules.EngineActsExactly`), and the two start together if and
  only if the round has not changed since the timer started and no sample was judged while it was
  down (`Rules.StartsExactly`; at every delay, `RightForEveryDelay`). A round closed and reopened
  between two samples is the input (`Rules.ReopenedRoundClearedEarly`); keys only the engine writes
  are always decided rightly (`Rules.EngineDecidesExactly`).
- Rollups never work on partly deleted buckets if and only if raw samples are kept at least two days
  (`Rollup.RollupsWholeExactly`); then an hourly point is exact for what its buckets held at the last
  rollups that reached back to them, and wrong once more has arrived (`Rollup.RetainedHourExactly`).

## Model

| member | source | states |
|---|---|---|
| HubSpec.FindPending | hub/fault.go:317-331 | finds a recorded resolve of the key later than the open exactly when one exists, and then the earliest |
| HubStore.Store.Transition | hub/fault.go:81-155 | the open/update/resolve branches on a mutated row give the judged verdict and record a resolve that came first |
| HubStore.Store.SettleEvent | hub/fault.go:191-218 | row write, change row and back-filling together leave the specified tables |
| HubStore.Store.PostMessage | hub/fault.go:161-189 | a message row with the next id, its change row and its notification |
| HubStore.Store.ApplyEvent | hub/fault.go:22-248 | event row, fault, back-fill and message commit as one specified transition |
| HubStore.Store.EmitHubEvent | hub/fault.go:340-379 | a hub event takes the next hub seq and a fresh id and is applied as never late |
| HubStore.Store.TouchSourceSeen | hub/fault.go:381-404 | any traffic resolves an open heartbeat fault with a heartbeat_back event and touches nothing else; where only the hub writes that key the round is down afterwards |
| HubStore.Store.InsertChange | hub/store.go:28-65 | a change row gets the next seq and goes to the end of the log |
| HubStore.Store.WriteFault | hub/store.go:68-91 | the stored row and the logged object carry the seq of the same change |
| HubStore.Store.WriteMessage | hub/store.go:68-91 | the same for a message row, with its notification |
| HubStore.Store.UpdateFaultFlags | hub/api.go:602-653 | read, mute and unmute write a row and a change only when something changes, and report a missing fault |
| HubStore.Store.SetMessageRead | hub/api.go:394-437 | marking read or unread writes only on a change of state, and reports a missing message |
| HubStore.Store.ApplyReportedEvent | hub/ingest.go:347-355 | an accepted event is applied, late exactly when its seq is not above the last, which then advances |
| HubStore.Store.Screen | hub/ingest.go:319-343 | the validation and deduplication pass computes the three lists of the specification |
| HubStore.SortBySeq | hub/ingest.go:344 | the accepted events, each once, in seq order |
| HubStore.ReadItems | hub/ingest.go:319-343 | the events of the accepted indices, with distinct ids |
| HubStore.Store.IngestEvents | hub/ingest.go:282-391 | a request is refused whole above 100 events; otherwise it touches the source, applies the accepted events in seq order, and answers with the three lists and the last seq; a request of one report leaves the round of its key as the report's text says |
| HubStore.Store.TakeBatch | hub/ingest.go:319-391 | from the touched state: screened, sorted, applied, and the source's own change row |
| HubIngest.TouchClosesHeartbeat | hub/fault.go:381-404 | where only the hub writes the heartbeat key, no heartbeat round is up after any traffic |
| HubStore.Store.ApplyInOrder | hub/ingest.go:346-355 | applying a batch is the run of its events in that order |
| HubStore.Store.RemoveMessages | hub/retention.go:74-96 | each listed message goes with one tombstone |
| HubStore.Store.DeleteFault | hub/retention.go:97-104 | the fault row goes with its tombstone |
| HubStore.Store.RemoveFault | hub/retention.go:73-109 | one expired fault takes all its messages, itself and its pending resolves |
| HubStore.Store.RemoveFaults | hub/retention.go:53-110 | the loop over expired faults removes exactly their rows and messages, each once |
| HubStore.Store.RemoveExpired | hub/retention.go:45-137 | events, resolves, closed faults and lone messages past retention go, each row with exactly one tombstone |
| HubStore.Store.RunRetention | hub/retention.go:32-158 | the whole run is the specified retention transition, log trimming included |
| HubStore.Store.HandleSync | hub/api.go:217-285 | a page is the next `limit` rows past the cursor, with more exactly when rows are left, and the cursor of its last row or of an empty answer |
| HubRounds.RoundsAlwaysSound | hub/fault.go:81-155 | in every reachable state no open round is covered by a recorded resolve, open rows have empty resolved fields, and closed ones were closed by a later seq |
| HubRounds.StepKeepsRounds | hub/fault.go:81-155 | each event, flag update and retention run keeps that, for any state |
| HubRounds.IncidentNeverDecreases | hub/fault.go:132-144 | over any run a fault row that survives under its id never loses a round, and a new row has a new id |
| HubRounds.RetainTables | hub/retention.go:53-137 | retention leaves exactly the faults and messages that had not expired |
| HubRounds.RowFollowsEvent | hub/fault.go:82-155 | mutes survive every event, a new round is unread and dated by its opening event, within a round severity only rises and the opening stays, and the last-event time goes back exactly when an older resolve closes the round |
| HubEvents.NewKeyRow | hub/fault.go:82-99 | an open or update of a key without a row: every field of the new row, dated, worded and counted from the event; up unless a later resolve is recorded, and then closed with the id, seq and date of the earliest such one |
| HubEvents.JoinedRow | hub/fault.go:100-111 | an open or update that joins a round, the one up or a closed one that a recorded resolve covers: one more event, the higher severity, the new text, the later date, everything else as it was |
| HubEvents.ReopenedRow | hub/fault.go:112-131 | an open or update of a closed key with no later resolve recorded: the next round, every field from the event, unread, mutes kept |
| HubEvents.ResolvedRow | hub/fault.go:132-155 | a resolve closes exactly the round up that an earlier seq opened, under its own id, seq and date; any other leaves all rows alone and is recorded once |
| HubEvents.OtherRows | hub/fault.go:66-155 | an event leaves the rows of other keys alone |
| HubEvents.ClosedByReceived | hub/fault.go:88-145 | in every reachable state a closed row carries the id, seq and date of a resolve that was received for its key, from the source or from the hub |
| HubEvents.RoundTakesIn | hub/fault.go:208-218 | when an event leaves its row closed, each message of the key without a fault and with a seq from the open to the resolve names the fault and its round; no other message changes in any field |
| HubEvents.EventMessage | hub/fault.go:161-248 | every event posts last of all a message that repeats its fields, names its fault and the round it moved, and announces the change of the round it made, muted if the fault is |
| HubEvents.ReportedEvent | hub/ingest.go:347-355 | a source's event is marked late exactly when its seq is not above the last, which becomes the greater of the two |
| HubEvents.HubMadeEvent | hub/fault.go:340-379 | the hub's own event carries the draft's fields under the next hub seq and a fresh id |
| HubEvents.FlagMeans | hub/api.go:602-653 | read sets the read time once, mute and unmute set and clear both mute times; nothing else of any row changes, and the change seq moves exactly when something did |
| HubEvents.ReadMeans | hub/api.go:394-437 | a message is marked read now or unread, nothing else of any row changes, and nothing at all if it was so already |
| HubEvents.RetainedByDate | hub/retention.go:45-137 | by date: faults go when closed before the cut, messages with their fault or, without one, when received before it, events when received and resolves when dated before it or with their fault; all else stays as it was |
| HubEvents.ChangesByDate | hub/retention.go:141-152 | a change is kept for its days, and the newest by number whatever their age |
| HubOrder.NewerEventAdvances | hub/fault.go:82-155 | an event after everything recorded moves the row like the two-state automaton, and no pending resolve is found |
| HubOrder.InOrderRefinesAutomaton | hub/fault.go:82-155 | over every run delivered in seq order the row is the automaton fed with the key's events and expiries |
| HubOrder.StepRefinesAutomaton | hub/fault.go:82-155 | one step of that refinement, with the pending lookup empty |
| HubOrder.StepKeepsHubOwned | hub/fault.go:340-379 | keys only the hub writes stay in seq order, so each hub resolve really closes and each open really opens |
| HubOrder.LateOpenExactly | hub/fault.go:106-131 | an open that finds the round down leaves it up exactly when no pending resolve with a larger seq is recorded |
| HubOrder.LateOpenOverRuns | hub/fault.go:106-131 | over every run, an open that finds the round down leaves it up exactly when every resolve received with a larger seq closed a round on arrival or has since been removed by retention |
| HubOrder.PendingExactly | hub/fault.go:145-155 | over every run, a resolve is pending exactly when one with that key and seq was received, closed nothing when it came, and has not been removed by retention since |
| HubOrder.GhostOpen | hub/fault.go:106-131 | in a valid run, reports with seqs 1, 10, 5 reopen a round that a later resolve had closed |
| HubOrder.ApplyKeepsCounters | hub/fault.go:58-65 | an event is recorded under its source and id, and sequence counters stay |
| HubLinks.LinksAlwaysSound | hub/fault.go:169-218 | in every reachable state each message with a fault points at the existing row of its key and a round that row has reached, and eventCount is the number of messages inserted, not back-filled, in the current round |
| HubLinks.StepKeepsLinks | hub/fault.go:169-218 | every write keeps that |
| HubLinks.JudgeCounts | hub/fault.go:252-287 | a verdict either counts one more event in the round or starts the next round at one |
| HubNotices.NoticesAlwaysSound | hub/fault.go:222-232 | in every run the announced opens and resolves of a fault alternate, open first, and its incident is the number of opens, plus one exactly when it was created already resolved |
| HubNotices.JudgeAnnounces | hub/fault.go:87-144 | each verdict announces exactly the change of state it makes |
| HubIngest.SiftExactly | hub/ingest.go:319-343 | each index of a request lands in exactly one of accepted, duplicates, rejected: the one its validity and the earlier ids call for |
| HubIngest.SiftInOrder | hub/ingest.go:319-343 | no index is answered twice, and each list is in request order |
| HubIngest.ValidExactly | hub/ingest.go:246-281 | a report is let in exactly when its raw fields are well formed, and becomes the event with the same id, seq, kind, date, severity, title and body, on the key it names with open, update or resolve for these three texts |
| HubReports.ReportRound | hub/ingest.go:346-355 | after one report the round of its key is up exactly when it was and no resolve of a seq above its open came, or when an open or update finds no later resolve recorded |
| HubReports.OneReportCounts | hub/ingest.go:282-391 | the same from the raw report to the tables after the request, the touch of the source included: an open of a key without a row puts round one up, a resolve above its seq takes it down |
| HubIngest.BatchIsValidRun | hub/ingest.go:344-355 | the accepted events applied in order are a valid run that records exactly their ids |
| HubIngest.RequestOrderIrrelevant | hub/ingest.go:344-355 | with distinct ids and seqs any permutation of a request leaves the same database |
| HubOnce.AppliedAtMostOnce | hub/ingest.go:320-355 | over any mix of batches, repetitions and retention runs with a clock that does not go back, no source event is applied twice if no repetition of an id is dated beyond the horizon of an earlier one |
| HubOnce.AlwaysRemembered | hub/retention.go:35-49 | over every such run, whatever the dates, an applied event is still in the table or was received more than the retained days ago |
| HubOnce.RepeatBeyondHorizon | hub/ingest.go:246-252 | a second application of an id is always dated beyond the horizon of the first |
| HubOnce.RepeatedExactly | hub/ingest.go:332-340 | for any two deliveries of an id and any number of days, some run applies both exactly when the second is dated beyond the horizon of the first and inside the back-fill window |
| HubOnce.BatchIsAdmitted | hub/ingest.go:344-355 | what a request accepts, applied in order, extends such a run |
| HubChanges.SeqsAlwaysDense | hub/store.go:28-42 | change seqs are 1, 2, 3, ... over every run |
| HubChanges.StepExtends | hub/store.go:45-91 | every write only appends numbered, stamped entries to the log |
| HubChanges.TrimCutsPrefix | hub/retention.go:141-152 | over rows in seq and time order the retention delete cuts a prefix |
| HubChanges.TrimKeepsTail | hub/retention.go:141-152 | the log stays a suffix, and a non-empty one exactly when the newest row is kept |
| HubChanges.LogAlwaysTail | hub/retention.go:141-152 | with a clock that does not go back and a minimum of one row the log is always a non-empty contiguous suffix |
| HubChanges.ResyncExactly | hub/sse.go:122-127 | a stream is told to resync exactly when a change after its cursor has been trimmed |
| HubChanges.EmptiedLogNeverResyncs | hub/sse.go:122-127 | an emptied log refuses no cursor, whatever it misses |
| HubReplica.LogRebuildsTables | app/lib/cache/assistant_cache.dart:162-214 | in every reachable state folding the log through the client's cache gives objects that show, field by field, the hub's fault rows but their two seq columns, deletions included, and each of its message rows, but without fault and incident if it was adopted after its last change |
| HubReplica.StepKeepsReplica | hub/fault.go:193-206 | every write keeps that |
| HubSync.PageOfSuffix | hub/api.go:217-285 | a page after any cursor carries the next retained changes and leaves out, without a word, those trimmed in between |
| HubSync.PageKeepsInStep | hub/api.go:217-285 | a page of any size takes a client that is in step and not cut off to a later point of the log, or finds it at the end |
| HubSync.SyncAllReachesEnd | app/lib/state/providers.dart:311-328 | from any cursor, asking until there is no more folds exactly the changes left after it, and ends at the end of a log that is not emptied |
| HubSync.ClientAgreesExactly | app/lib/cache/assistant_cache.dart:142-214 | over every interleaving of hub writes, retention and page fetches with a hub clock that does not go back, at every moment: the client's objects show the hub's fault rows and last-logged message rows field by field exactly when it has received the last change of every row and was left behind on no deleted one, and its messages show the rows as they are exactly when besides none was adopted since its last change; what it missed had been trimmed |
| HubSync.CaughtUpClientAgrees | app/lib/cache/assistant_cache.dart:142-214 | if no fetch came after its changes were trimmed, a client at the end of the log holds the hub's faults, and its messages as last logged |
| HubSync.StaleClientExactly | hub/api.go:217-285 | a client in step at any cursor that pages to the end holds the fault table exactly when no row's last change lies between the cursor and the first change left and no row it held was deleted along with its tombstone |
| HubSync.StaleClientMessagesExactly | hub/api.go:217-285 | the same for messages as last logged, and for the messages themselves exactly when besides none was adopted since |
| HubSync.FreshClientExactly | hub/api.go:217-285 | from cursor 0 that is: no row's last change was trimmed, for faults and for messages as last logged |
| HubBackfill.AdoptedSinceExactly | hub/fault.go:209-218 | over every run the messages whose folded copy differs from the hub's row are exactly those adopted by an event and neither written nor dropped since |
| HubBackfill.StepUnlogs | hub/fault.go:209-218 | every step adds what it adopts to the rows adopted since their last change and takes away what it writes or drops |
| HubBackfill.BackfillExactly | hub/fault.go:209-218 | one event, whatever differs already: afterwards those messages differ and the orphans it adopts |
| ClientCache.AssistantCache.ApplyOne | app/lib/cache/assistant_cache.dart:162-214 | objects replace, tombstones delete, unknown kinds are skipped |
| ClientCache.AssistantCache.ApplyChanges | app/lib/cache/assistant_cache.dart:162-199 | the loop over a page is the fold of its entries |
| ClientCache.AssistantCache.ApplySyncPage | app/lib/cache/assistant_cache.dart:142-153 | the page is folded in seq order and then the cursor moves to the page's |
| ClientCache.SortChanges | app/lib/cache/assistant_cache.dart:143-144 | a permutation in seq order, the identity on a page already in order |
| Stream.Broker.Subscribe | hub/sse.go:23-33 | a new empty channel that no one else has |
| Stream.Broker.Publish | hub/sse.go:36-45 | every channel with room gets the entry, a full one loses it, none blocks |
| Stream.Handler.Replay | hub/sse.go:140-145 | the retained entries are written in order and `last` is the final one's seq |
| Stream.Handler.Receive | hub/sse.go:151-163 | a published entry is written unless the stream is already past it |
| Stream.WritesAlwaysAscend | hub/sse.go:94-171 | on every interleaving of commit, trim, publish, check, subscribe, replay and deliver the ids written strictly increase past the cursor and are committed entries |
| Stream.OrderlyStreamsAreGapless | hub/sse.go:128-163 | published in order into a channel with room, with nothing needed trimmed at replay, a stream writes exactly the entries in (since, last], once each |
| Stream.DrainedStreamIsCurrent | hub/sse.go:128-163 | such a stream, drained, has written everything after its cursor |
| Stream.GaplessExactly | hub/sse.go:128-163 | over every interleaving a stream is without a gap exactly when every delivery so far was at most the next entry due and the replay read a table that was empty or reached back to the cursor |
| Stream.GaplessStreamKeepsInStep | hub/sse.go:128-163 | folding what a gapless stream carries onto the log up to its cursor gives the log up to its last id (no client of the repository does this) |
| Stream.LateEntryIsSkipped | hub/store.go:446-471 | two transactions that publish the other way round make a stream skip the first entry for good |
| Sse.SplitLines | hub/sse.go:59-70 | the index scan returns the pieces between line feeds |
| Sse.JoinSplit | hub/sse.go:59-70 | joined by line feeds the pieces are the data again |
| Sse.WriteFrame | hub/sse.go:48-57 | the printed frame is, character by character, `id: ` and the number if positive, `event: ` and the name, the data with `data: ` in front of each line, and a blank line |
| Sse.DecimalReadsBack | hub/sse.go:49-51 | a printed id determines its number |
| Sse.SseParser.Feed | app/android/app/src/main/kotlin/com/sakurasep/assistant/sse/SseParser.kt:25-50 | one line updates name, data or id, or dispatches; comments and unknown fields change nothing |
| Sse.SseParser.Dispatch | app/android/app/src/main/kotlin/com/sakurasep/assistant/sse/SseParser.kt:52-58 | an event only when there is data, and the fields reset but the last id |
| Sse.LineMeans | app/android/app/src/main/kotlin/com/sakurasep/assistant/sse/SseParser.kt:25-58 | for every name and value: what `name: value`, `name:value` and a bare name do to the parser, that comments and other names do nothing, and what a blank line gives |
| Sse.ReadStream | app/android/app/src/main/kotlin/com/sakurasep/assistant/AssistantSyncService.kt:336-345 | feeding a connection line by line collects the events of the specification |
| Sse.PrintedLines | app/android/app/src/main/kotlin/com/sakurasep/assistant/AssistantSyncService.kt:336-341 | the lines read from a printed stream are the frames' lines less trailing carriage returns |
| Sse.FeedFrame | app/android/app/src/main/kotlin/com/sakurasep/assistant/sse/SseParser.kt:25-58 | a frame with a one-line name gives at most one event and leaves the parser fresh with the latest positive id |
| Sse.DataReadsBackExactly | app/android/app/src/main/kotlin/com/sakurasep/assistant/sse/SseParser.kt:40-43 | data arrives as sent exactly when it is not empty, has no leading line feed and no line ending in a carriage return |
| Sse.StreamReadsBackExactly | hub/sse.go:48-70 | any sequence of printed frames reads back as the same names and data in order with the latest positive ids, exactly when every frame is carried |
| AgentQueue.Queue.NextSeq | agent/internal/queue/queue.go:112-119 | seqs go up by one from whatever was stored |
| AgentQueue.Queue.EnqueueNoTrim | agent/internal/queue/queue.go:144-149 | a row with the next id at the end, nothing dropped |
| AgentQueue.Queue.Enqueue | agent/internal/queue/queue.go:151-189 | at most `max` rows are left, the oldest ones dropped, counted and recorded |
| AgentQueue.Queue.AddOverflow | agent/internal/queue/queue.go:192-201 | overflows of one kind merge into one count and one window |
| AgentQueue.Queue.TakeOverflow | agent/internal/queue/queue.go:204-222 | the record is handed over and cleared |
| AgentQueue.Queue.Peek | agent/internal/queue/queue.go:241-280 | the earliest rows in id order, none removed |
| AgentQueue.Queue.DeleteIds | agent/internal/queue/queue.go:292-313 | exactly the rows with those ids go |
| AgentQueue.Queue.DropOldest | agent/internal/queue/queue.go:325-361 | the n oldest rows, or all, go and are recorded; n <= 0 or an empty table changes nothing |
| AgentQueue.Window | agent/internal/queue/queue.go:168-174 | the least and greatest enqueue time of the rows |
| AgentQueue.NothingUnaccounted | agent/internal/queue/queue.go:151-361 | over every sequence of operations each row ever inserted is in exactly one of present, deleted, lost, reported, unchanged, and present rows keep insertion order |
| AgentQueue.CountsAddUp | agent/internal/queue/queue.go:151-361 | rows inserted = present + deleted + recorded drops + drops taken |
| AgentQueue.WindowIsExact | agent/internal/queue/queue.go:192-222 | the record counts the rows dropped since the last take and its window is their exact first and last enqueue time |
| AgentQueue.TrimTakesOldest | agent/internal/queue/queue.go:151-189 | what a trim takes is older than everything it leaves, and no more than needed |
| AgentQueue.BooksFollowLane | agent/internal/queue/queue.go:151-361 | the books of these results follow the queue's own state |
| Reporter.Reporter.Send | agent/internal/report/client.go:96-119 | a POST consumes one answer of the network; without one it is a timeout |
| Reporter.Reporter.EmitNoTrim | agent/internal/report/reporter.go:137-151 | a notice takes the next event seq and is never trimmed for |
| Reporter.Reporter.FlushOverflow | agent/internal/report/reporter.go:364-380 | each record becomes one notice and is cleared |
| Reporter.Reporter.DrainMetrics | agent/internal/report/reporter.go:279-324 | trimming and posting batches one by one leaves the specified state and outcome |
| Reporter.Reporter.DrainEvents | agent/internal/report/reporter.go:326-360 | posting events in batches leaves the specified state and outcome |
| Reporter.Reporter.DrainOnce | agent/internal/report/reporter.go:274-361 | the attempt is the specified one, on mutable queues |
| Reporter.Reporter.ProbeUnauthorized | agent/internal/report/reporter.go:412-452 | a probe posts the head row alone and removes it only on success |
| Reporter.Reporter.HandleProbeError | agent/internal/report/reporter.go:454-463 | 401 waits for the next probe, any other failure goes back to backoff |
| Reporter.Reporter.TakeTurn | agent/internal/report/reporter.go:202-260 | one turn of the loop is the specified turn |
| Reporter.Reporter.CollectOnce | agent/internal/report/reporter.go:169-196 | a batch takes the next seq and is queued, with trimming |
| Reporter.Reporter.EmitEvent | agent/internal/report/reporter.go:116-133 | an event takes the next event seq and is queued, with trimming |
| DrainSpec.DrainAccounts | agent/internal/report/reporter.go:274-380 | whatever the network answers: the newest batches leave one by one in queue order and the rest are a suffix; every event and notice leaves once in id order in batches of at most maxEventSend; notices count all recorded drops; only the last POST fails, with the head rows; success means both queues empty and the last POST acknowledged |
| DrainSpec.DoneExactly | agent/internal/report/reporter.go:274-361 | for every script: success exactly when nothing is pending, or an acknowledgement with nothing final before it comes when one batch, or no batch and at most one body of events, is left |
| DrainSpec.AckingHubEmptiesQueues | agent/internal/report/reporter.go:274-361 | a hub that acknowledges everything empties both queues, exactly when it answers as often as min(n, maxReplay) plus the event batches |
| DrainSpec.RefusingHubNeverDone | agent/internal/report/reporter.go:394-406 | a hub that refuses every body is posted to for as long as it answers |
| DrainSpec.BackoffGrows | agent/internal/report/reporter.go:19-32 | each delay is twice the one before, up to a minute |
| DrainSpec.TurnLaw | agent/internal/report/reporter.go:202-260 | a turn posts only when its time has come, at most one row while the key is refused, and marks the key refused exactly when its last POST was answered 401 |
| DrainSpec.RefusedKeyPausesSending | agent/internal/report/reporter.go:241-244 | over every interleaving with collecting, the sender is paused exactly while its last POST was answered 401, until five minutes after |
| DrainSpec.NextPostAfterRefusal | agent/internal/report/reporter.go:412-463 | the next POST after a 401 is a single head row, at least five minutes later |
| DrainLaws.TurnExactly | agent/internal/report/reporter.go:208-260 | every turn posts exactly when its time has come and something is queued, else changes nothing; a refused key is probed with one row, anything else is a whole attempt; and the last answer decides the next one: at once, after five minutes, after the time the hub asks for, or after the backoff |
| DrainLaws.ProbeLaw | agent/internal/report/reporter.go:412-463 | a probe posts the oldest batch or else the oldest event, only a success takes it away, and the answer decides as above |
| DrainLaws.BackoffExactly | agent/internal/report/reporter.go:19-32 | the first delay is a second, each later one twice the one before, up to a minute |
| DrainLaws.DrainTells | agent/internal/report/reporter.go:363-406 | for every script: the notices an attempt queues, in order, under the next seqs and field by field - recorded losses of batches, then of events, the rows given up with their exact number and window, one for each refused POST - and the interval, the last wish of the hub kept between ten seconds and ten minutes |
| Delivery.MetricsIntake.Ingest | hub/ingest.go:60-68 | a batch is applied when its seq is above the last, otherwise answered as a duplicate and dropped |
| Delivery.HubAlwaysClimbs | hub/ingest.go:107-109 | over every run of collect, send, loss, late copies, retries and trims the hub applies seqs in strictly increasing order, each at most once |
| Delivery.AcksAlwaysHonest | agent/internal/report/reporter.go:303-319 | if the hub starts no further than the agent, every batch deleted on a success answer was really applied |
| Delivery.DeliverySafeExactly | hub/ingest.go:60-68 | that holds on every run exactly when the hub's last seq is at most the agent's at the start |
| Delivery.StaleSeqLosesBatch | hub/ingest.go:60-68 | otherwise the first batch is acknowledged, deleted and never applied |
| Delivery.NoBatchUnaccounted | agent/internal/queue/queue.go:151-189 | every batch collected is still queued, booked as dropped, refused, or really applied |
| Delivery.RoundTripSettlesHead | agent/internal/report/reporter.go:302-323 | from every state a run reaches, a POST that arrives and is answered takes the head out of the queue, and it was really applied |
| Delivery.RefusalSettlesHead | agent/internal/report/reporter.go:382-391 | a POST answered 400 or 413 takes the head out of the queue and applies nothing |
| Delivery.BacklogDelivered | agent/internal/report/reporter.go:302-323 | from every state a run reaches, one answered POST for each queued row empties the queue, and every row was really applied |
| Rules.ReadMetric | hub/rules.go:91-123 | the readings are exactly the values the sample reports for the rule's metric: cpu, mem, network in and out under `-`, each disk the label selects under its mount, in the sample's order and once each |
| Rules.ReadExactly | hub/rules.go:91-123 | for each of the five metrics, which readings a sample gives in terms of its own fields |
| Rules.DisksReadInOrder | hub/rules.go:102-112 | the disk readings are those of increasing positions, every disk that qualifies once |
| Rules.DiskReadExactly | hub/rules.go:102-112 | a disk is read exactly when it reports a percentage and the label selects its mount |
| Rules.JudgedExactly | hub/rules.go:149-220 | over any history the decision and the timer's four fields are what the samples since the last pause or clearing determine |
| Rules.EngineActsExactly | hub/rules.go:149-220 | in every run, whoever else writes the key: it opens exactly when the round is down and a violating streak has lasted, resolves exactly when the last sample is good and the timer has run out, never too late, and too early exactly when the delay lies between the recovery of the round now up and the time on the timer |
| Rules.StartsExactly | hub/rules.go:189-207 | the timer starts no later than the recovery of the round now up, and with it exactly when the round has not changed since and no sample was judged while it was down |
| Rules.RightForEveryDelay | hub/rules.go:189-207 | for samples at least a second apart the decision is the one called for at every delay exactly under that condition |
| Rules.ReopenedRoundClearedEarly | hub/rules.go:189-207 | in a run of enabled steps of the hub a source that closes and reopens the round between two good samples gets the second round resolved at once |
| Rules.EngineDecidesExactly | hub/rules.go:149-220 | in every run of the hub in which only the engine writes the key, it opens exactly when the round is down and an unbroken violating streak has lasted forSeconds, resolves exactly when a recovering one has lasted recoverForSeconds, the two alternate, and each takes effect on the row |
| Rules.DecisionTakesEffect | hub/fault.go:132-144 | an emitted open leaves the round up and an emitted resolve closes it |
| Rules.OthersKeepRound | hub/fault.go:81-155 | nothing else in the hub opens, closes or replaces the round |
| RuleReadings.ReadingExactly | hub/rules.go:149-220 | one value: the round is up afterwards exactly when it exceeds the limit (by the rule's comparison) and was up or has lasted, or does not exceed it, was up, and is not back in range for long enough; an opened row has the rule's severity and the sample's date, a closed one its date; otherwise nothing changes; and the timer goes on tracking the samples |
| RuleReadings.ReadingsExactly | hub/rules.go:159-222 | the same for each of a sample's values whose selector occurs once, whatever the others do |
| RuleReadings.SampleExactly | hub/rules.go:149-222 | the same for each value the sample itself reports, for keys the hub alone writes |
| RuleEngine.RuleEngine.EvalGauge | hub/rules.go:164-218 | the field-by-field timer update and the emitted event are the specified decision |
| RuleEngine.RuleEngine.EvalThreshold | hub/rules.go:149-220 | every reading in turn; a rule without a value does nothing; and each value the sample reports leaves the round of its key up or down as its size, the limits and the times on the timer say |
| RuleEngine.RuleEngine.IsFaultOpen | hub/rules.go:231-237 | whether the key's round is open |
| CacheSpec.KeysApart | hub/agent_release.go:62-80 | a key determines its version and asset, is managed exactly when the asset name is valid, and is no temporary file |
| CacheSpec.VersionExactly | hub/agent_release.go:31-60 | a version is three numbers with dots between them, 64 characters at most |
| CacheSpec.AssetExactly | hub/agent_release.go:61-73 | an asset is the manifest, the checksums, or the binary of some version for one of two architectures |
| CacheSpec.TempUnmanaged | hub/agent_release.go:77-80 | temporary files are never the cache's to evict |
| CacheSpec.CheckManifest | hub/agent_release.go:81-94 | accepts exactly one well-formed entry per architecture of this version |
| CacheSpec.ManifestNames | hub/agent_release.go:86-93 | the names of a valid manifest are valid and each names one entry |
| CacheSpec.EvictsShortestPrefix | hub/agent_release.go:289-298 | what is evicted is the shortest oldest-first prefix that makes room, or everything evictable |
| CacheSpec.EvictsOldest | hub/agent_release.go:288-298 | no file is evicted while an older one could have been, and only evictable ones are |
| CacheServes.RoomExactly | hub/agent_release.go:256-303 | room can be made exactly when the files that may not be evicted leave it; eviction frees none of their bytes and touches nothing if there is room already |
| CacheServes.RightExactly | hub/agent_release.go:81-103 | a file is right under a key exactly when it is genuine by the asset's name: a manifest of the version within the limit, the checksums of its binaries, or the size and digest of the binary it lists |
| CacheServes.ChecksumLines | hub/agent_release.go:96-102 | the checksum file has digest, two blanks and name, one line for each binary of the manifest |
| CacheServes.WarmServes | hub/agent_release.go:160-227 | a directory that fits and holds a genuine manifest serves the manifest, and every asset it lists that is there or can be downloaded, and is not touched before that |
| CacheServes.ColdServes | hub/agent_release.go:160-227 | without a genuine manifest, upstream's is enough, and the asset it lists, if no one is served either file and each fits beside the files that may not be evicted |
| CacheProtocol.CacheAlwaysSafe | hub/agent_release.go:160-315 | over every interleaving of requests, failures, releases and restarts: once prepared, all regular files and the bytes still promised fit the capacity, counters are exactly the leases out, and every served file is in place with the content its manifest calls for: a valid manifest of its version, learned earlier in the run from a checked manifest file |
| CacheProtocol.ManifestsLearned | hub/agent_release.go:160-208 | on every interleaving each manifest in use, by the request or by a lease, was decoded from a verified manifest file of its version that was in place |
| CacheProtocol.MoveSound | hub/agent_release.go:160-441 | every single step keeps that |
| CacheProtocol.EvictionSpares | hub/agent_release.go:270-298 | eviction never touches a leased file |
| AgentCache.Cache.Survey | hub/agent_release.go:263-289 | one pass counts the bytes in use and lists the evictable files oldest first |
| AgentCache.Cache.MakeRoom | hub/agent_release.go:259-303 | room is made as specified, exactly when what may not be evicted leaves it, never evicting a file while an older one could have gone; or refused with only evictable files gone |
| AgentCache.Cache.EvictOldest | hub/agent_release.go:289-298 | deletes along the candidates until there is room |
| AgentCache.Cache.Discard | hub/agent_release.go:304-315 | removes the file unless it is being served |
| AgentCache.Cache.Prepare | hub/agent_release.go:229-255 | sweeps leftover downloads the first time and makes the directory fit |
| AgentCache.Cache.Look | hub/agent_release.go:335-345 | a cached file is taken if it is right, otherwise cleared away if no one is served it |
| AgentCache.Cache.ReserveRoom | hub/agent_release.go:256-303 | room is made as specified and promised to the download, or the request is given up, before anything is written |
| AgentCache.Cache.Fill | hub/agent_release.go:415-441 | the file is put in place only if good, and no temporary file stays |
| AgentCache.Cache.Metadata | hub/agent_release.go:335-381 | metadata is served exactly when a genuine copy is in the directory, or no one is served the file, upstream has a genuine one and room can be made; and what the directory holds then |
| AgentCache.Cache.Binary | hub/agent_release.go:396-441 | a binary is served exactly when a copy with the manifest's size and digest is there, or no one is served it, upstream has one and room can be made; a failed download leaves the room made for it |
| AgentCache.Cache.OpenAgentAsset | hub/agent_release.go:160-227 | success comes exactly when the directory can be made to fit, the manifest is there or can be downloaded, and so is the asset it lists, in the directories the request passes through; it is one new lease on a genuine file in place, and failure leaves the leases alone; an invalid name changes nothing; a warm cache needs no upstream, a cold one only genuine files and room |
| AgentCache.Cache.TakeLease | hub/agent_release.go:209-216 | counts one more lease on the verified file |
| AgentCache.Cache.ReleaseLease | hub/agent_release.go:217-225 | counts one less, and drops the counter with the last |
| Rollup.RunRollup | hub/retention.go:11-27 | the rows of the buckets of the last day are replaced by the average, least and greatest value and count of the samples taken in them; other rows stay as they are |
| Rollup.HourlyPoints | hub/api.go:785-832 | one point per hour that has a row, combined from its rows weighted by count |
| Rollup.HourExact | hub/api.go:785-832 | rows that cover an hour combine to the exact sum, count, minimum and maximum of its samples |
| Rollup.AggMeans | hub/retention.go:11-27 | an aggregate is the sum, count, minimum and maximum of its samples |
| Rollup.RetainedByDays | hub/retention.go:33-45 | raw samples and rows go by their own number of days, everything else stays |
| Rollup.HourlyPointsExact | hub/api.go:785-832 | after a rollup every hourly point of the last day is the average, least and greatest value of all samples ever taken in the hour |
| Rollup.RetainedHourExactly | hub/api.go:785-832 | any retained hour at any time: its point is the exact combination of what its twelve buckets held at the last rollups that reached back to them, so exact if nothing arrived since and wrong if there are more samples |
| Rollup.RollupAlwaysWhole | hub/retention.go:33-42 | with two days of raw samples or more and a clock that does not go back every bucket a rollup replaces is computed from all it ever had |
| Rollup.ShortRetentionSplitsBucket | hub/retention.go:33-42 | with one day or less a bucket is recomputed without its first minutes |
| Rollup.RollupsWholeExactly | hub/retention.go:11-42 | rollups are always whole exactly when at least two days are kept |
| Limiters.Compact | hub/auth.go:150-156 | the in-place compaction keeps exactly the unexpired hits, in order |
| Limiters.LoginLimiter.Allow | hub/auth.go:143-163 | the remembered hits and the answer are those of the sliding window |
| Limiters.LoginsBounded | hub/auth.go:143-163 | any (x, x + 5 min] holds at most 10 logins of a key let through by the limiter's answers, over every run with a clock that does not go back |
| Limiters.LoginAllowedExactly | hub/auth.go:143-163 | an attempt is let through exactly when fewer than ten were in the five minutes up to it |
| Limiters.RetryAfterSuffices | hub/auth.go:157-160 | an attempt after the returned delay is let through, however many were refused in between |
| Limiters.RetryAfterNeeded | hub/auth.go:157-160 | and no sooner: more than a second before the end of that delay attempts are still refused |
| Limiters.FaultDebounce.Allow | app/android/app/src/main/kotlin/com/sakurasep/assistant/notify/FaultDebounce.kt:15-25 | the popped deque and the answer are the specified ones |
| Limiters.DebouncerIsWindow | app/android/app/src/main/kotlin/com/sakurasep/assistant/notify/FaultDebounce.kt:15-25 | popping from the front is the same sliding window, closed at both ends |
| Limiters.NoticesBounded | app/android/app/src/main/kotlin/com/sakurasep/assistant/notify/FaultDebounce.kt:15-25 | any closed minute holds at most 3 notifications of a fault between resets |
| Limiters.NoticeAllowedExactly | app/android/app/src/main/kotlin/com/sakurasep/assistant/notify/FaultDebounce.kt:15-25 | a notification goes out exactly when fewer than three did in the closed minute up to it |
| Release.PublishAssets | scripts/agent-release/release.py:230-268 | however the host fails, on a host that would replace: nothing is overwritten because only missing names are uploaded, a conflict at the start changes nothing, a manifest never precedes the other assets, and success means all are there as local, and published if asked; a host that works for as many calls as are ever needed, with nothing in conflict, gets the release |
| Release.UploadVerified | scripts/agent-release/release.py:248-253 | asked only for a name the host has not; an upload counts only once it reads back as the local file |
| Release.CheckExisting | scripts/agent-release/release.py:243-247 | passes only if everything already there is the local file |

## Left out

- HTTP, JSON, gzip, authentication, sessions, attachments and feedback proxies, paging and filters of the list endpoints, read-all, overview, and the source, rules and settings objects themselves (their change rows appear as other entries of the log).
- `ref` and attachments of events, source names on wire objects, notification texts beyond their kind, and the text of rule titles that needs number formatting.
- Timestamps are integer milliseconds and values reals; string formats and floating-point rounding are not modelled. A transaction reads the clock once, and so does one attempt of the sender.
- ULIDs and row ids are counters; SQL tables are maps and sequences with atomic transactions; the order in which a query without ORDER BY returns rows is left open.
- The metrics transaction is reduced to its seq check (`Delivery`) and the stored samples (`Rollup`); reboot messages, summaries and capabilities are not modelled.
- Container, SMART and pool rules and the heartbeat check: simple state transitions beside the threshold timer. A failed transaction leaves timers already moved in memory; that is not modelled.
- `TakeOverflow` is one step, as is the empty-page cursor of the sync endpoint.
- Removal of a file, syncing and renaming in the release cache do not fail in the model; a failed download, check or reservation does. No one else writes the directory.
- The release script's local validation is a requirement on its input; the draft flag and tag parsing are not modelled.
- The order of equal seqs in one request and of files of equal age is left open by the specifications.
- Limiters.LoginLimiter.Allow: one key's window; the map of keys and the lock are not modelled.
- Sse.StreamReadsBackExactly: characters, not UTF-8 bytes; the ping frames carry id 0 and are frames like any other.
- Delivery.HubAlwaysClimbs: one agent per source.
- HubOnce.AppliedAtMostOnce: for a clock of the hub that does not go back.
- HubSync.SyncAllReachesEnd: the app stops after 100 pages and goes on at its next sync; `ClientAgreesExactly` covers any number of pages.
- RuleReadings.SampleExactly: for keys the hub alone writes and mounts a sample lists once; `Rules.EngineActsExactly` covers keys that others write too.
