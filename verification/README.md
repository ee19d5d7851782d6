# Verification of the update synchroniser and the chat tables

A Dafny model of the two hard parts of go-stats, with proofs.

**The synchroniser** (`updates/`). The server numbers its updates; each occupies a half-open range
`[State - Count, State)` of a counter. A `sequenceBox` receives them in any order, with losses and
repetitions, and must hand them to a callback in order, each once. `internalState` owns three such
boxes (pts, qts, seq), sorts batches, writes its state through to a storage and resynchronises with
`updates.getDifference`. `updates/internal/e2e/server.go` is the log server it runs against.

**The tables** (`bot/dispatcher.go`). Every update is dispatched in a goroutine of its own, which
reads, changes and writes rows of the chat, member and user tables under a reader/writer lock and a
47-stripe key mutex.

## How it is laid out

Value-level modules say what an operation computes; class modules are the objects that the Go code
updates in place, each method proved to change the object's `Value()` as the function of the same
name says; the remaining modules prove what those functions guarantee.

| module | content |
|---|---|
| `Updates`, `Telegram`, `PeerEntities` | updates, the gap check, protocol objects, the entity merge |
| `StableSorting`, `PtsOrder` | stable sorting and its uniqueness; the batch order and the in-place sort |
| `GapBuffers` | the gap list: the class, conservation, coverage |
| `Sequencer`, `SequenceBoxes` | the sequencer on values, and as a class |
| `ChainSafety`, `Deliveries` | guarantees for arbitrary input: chains, conservation, counts of 0 |
| `HonestLog` | coverage invariant, refinement and convergence for an honest sender |
| `Storage`, `Synchroniser`, `InternalStates` | the storage class, the synchroniser on values, and as a class |
| `WriteThrough` | saved state equals state in memory |
| `LogServer`, `EndToEnd` | the server, whole-system runs |
| `BatchCounters` | what a batch does to the pts and qts counters; batch order; convergence on pushes alone |
| `NumberedContainers` | the seq counter: one numbered container, and any number in any order |
| `Completeness` | when exactly the handler has a whole log, in runs with resynchronisations |
| `Handover` | plain updates, channel updates, and what a resynchronisation hands on |
| `Rows`, `RowHistories` | the rows, and what any history of events leaves in one |
| `KeyMutexes`, `Tables`, `Dispatchers` | the striped lock, one-at-a-time calls, the dispatcher class |
| `Interleaving` | all interleavings of concurrent calls: serialisability, progress, completion |
| `Lineages` | what a migration moves, and what a chat keeps along any chain of calls |

## Main results

- `HonestLog.Convergence`: whatever the order, repetition and admixture of outdated updates, once
  every range of the log has been handled, the callback has got the log, each range once and in
  order, and the sequencer is idle at its end. It starts from any state the invariant allows, also
  from one with open gaps or stale pending updates left by a resynchronisation.
- `HonestLog.RefinesLongestPrefix`: at every moment of a run from an idle start, the state is the end
  of the longest prefix received, or the gap list is exactly what is missing.
- `HonestLog.GapClosesExactlyWhen`: a gap is followed from the update that opens it over any run.
  The state stays put, and the gap list is exactly what is missing before that update, until the
  last missing range has arrived; then the state is past that update.
- `ChainSafety.RunLinked`, `NoReplay`: for arbitrary input, failing callbacks and resynchronisations,
  what is delivered is one chain, and no position is delivered twice between two resynchronisations.
  (An update with count 0 has no position; see the next result.)
- `Deliveries.RunConserves`, `HandleSettles`: for arbitrary counts of at least 0, counted with
  repetitions, whatever arrives is delivered, pending, or dropped because it starts below the state;
  and nothing pending lies at the state. `RepeatsAreDelivered`: a count-0 update at the state of an
  idle sequencer is delivered as often as it arrives.
- `NumberedContainers.NumberedConverge`: numbered containers, in any order and with repetitions, have
  the effect of applying them one by one in the order of their numbers.
- `EndToEnd.RunFaithful`: over every run of the server, a lossy reordering transport and atomic
  resynchronisations, answered in whole or in slices, the handler has exactly the stretch of the log
  up to the counter in memory.
- `Completeness.CompleteExactlyWhen`: at any moment of any such run, the handler has the whole user
  log (or secret log) exactly when each message of it was kept at an earlier moment, of any choice,
  or has since been announced in a batch that was applied or covered by the answer to a
  resynchronisation, and nothing applicable is left waiting.
- `Handover.RunHandsOnPlain`: over every such run the handler gets exactly the plain updates of the
  applied batches, each as often as it is in them.
- `BatchCounters.PushesConverge`: without any resynchronisation, from any state of an honest run, the
  end of a log is reached once every message has been announced.
- `BatchCounters.BatchOrderIsIrrelevant`: a shuffled batch whose updates tile a counter is applied
  directly and in order, and no gap is open after any turn of the loop over it.
- `WriteThrough.RunAgrees`: between calls the saved user state equals the one in memory.
- `Interleaving.Serialisable`, `Progress`, `RunsComplete`: every interleaving of chat, member, user
  and migration calls has the tables and the answers of some one-at-a-time order; no deadlock; every
  run can be completed and none is longer than seven steps per call.
- `Lineages.LineageKeeps`: along any chain of updates and migrations a chat keeps its first action, its
  referer and a ban, whatever its id has become.

Where the code does not do what one would expect, the exact condition is proved, with an example:

- `StateRegressesExactlyWhen`, `StateCanRegress`: a state-0 update may set a counter back.
- `HandleQtsAgreesExactlyWhen`, `QtsCanDisagree`: a qts of 0 is not saved.
- `MembershipIsLastWriterWins`, `MembershipIgnoresOrderExactlyWhen`, `LeaveThatCreatesRowIsLost`: the
  membership column has the default true (database/models.go:60), and on insertion the ORM takes the
  default for a false. So a leave that creates the row is stored as membership; if nothing newer
  follows, the row is wrong, and the same events in another order give another row.
- `SessionSharedExactlyWhen`, `SessionsCanCollide`: session numbers are 16-bit.
- `SliceStallsExactlyWhen`, `SliceCanStall`: after a slice that leads to where a pending update starts,
  that update stays pending although it is due and no gap is open, until something else arrives at
  or beyond it or the resynchronisation asked for next brings its message.

`HonestLog.FailedApplyLosesExactlyWhen` concerns the contract of `sequenceBox` rather than a fault of
the program: a callback that reports failure loses what it was given, until that is sent again. No
callback in this repository fails: `applyPts` and `applyQts` return nil, and `applySeq` passes on
errors of `applyCombined` and `getDifference`, which have none to report.

## Hypotheses

- Honest sender (`HonestLog`): the ranges come from one partition of the counter, every state is
  positive and every count too. `ChainSafety` and `Deliveries` assume no honesty; they need states
  other than 0 and counts of at least 0 where they say so.
- The other updates of a slice move neither counter, as those of the log server's differences do not.
- A resynchronisation is one atomic step. In the code it runs in a goroutine of its own, guarded only
  against another resynchronisation (updates/state.go:349-356).
- `Manager.Handle` hands updates straight to the handler (updates/manager.go:66); the synchroniser is
  what its `Run` loop and the other updates of a difference go through.
- Storage and database operations succeed, except that the storage's setters fail for an unknown
  user, as the code has it. Clocks are parameters.
- Chat, member and user ids are not 0: the ORM drops zero fields from its search condition.
- In `Interleaving` every call is a thread of its own, which allows more interleavings than one
  goroutine that makes several calls one after the other.

## Model

| member | source | states |
|---|---|---|
| StableSorting.SortsStably | updates/sequence_box.go:125-127 | the reference sort yields an ordered sequence in which every class of ties keeps its arrival order |
| StableSorting.StableSortUnique | updates/sequence_box.go:125-127 | a sequence is the result of the stable sort exactly when it is ordered and keeps every class of ties, so the library's algorithm does not matter |
| PtsOrder.LessIsStrictWeakOrder | updates/sort_pts.go:19-78 | the batch comparison is a strict weak order over all updates |
| PtsOrder.LessIsRankLess | updates/sort_pts.go:19-78 | the comparison is the lexicographic order by group, then channel, then range start (qts by value) |
| PtsOrder.TiedIsSameRank | updates/sort_pts.go:19-78 | neither of two updates comes first exactly when group, channel and start are the same |
| PtsOrder.SortIsTheStableArrangement | updates/sort_pts.go:9-78 | the sorted batch is the one arrangement that ascends by rank and has, of every rank, the updates in arrival order (all untyped updates have one rank) |
| PtsOrder.SortUpdatesByPts | updates/sort_pts.go:9-11 | the in-place sort of the array, using the comparison and swaps, leaves the stable sort of its old contents |
| PtsOrder.Swap | updates/sort_pts.go:80-82 | exchanges two elements of the array and touches no other |
| PeerEntities.EntityBuffer.Merge | updates/update.go:25-53 | the nested loops append exactly the candidates whose id is not there yet, for users and chats alike |
| PeerEntities.MergeKeepsFirstOccurrences | updates/update.go:25-53 | folding the merge over any batches equals deduplicating the concatenation of all their lists |
| PeerEntities.FirstsPositions | updates/update.go:25-53 | the deduplication keeps, in order, exactly the positions whose id occurs nowhere before |
| GapBuffers.GapBuffer.Enable | updates/gap_buffer.go:17-23 | opens one gap, provided that none is open |
| GapBuffers.GapBuffer.Clear | updates/gap_buffer.go:15 | leaves no gap |
| GapBuffers.GapBuffer.Consume | updates/gap_buffer.go:25-41 | accepts exactly when some gap contains the update, and then replaces the first such gap by its two remainders at the end of the list |
| GapBuffers.ConsumeUncovers | updates/gap_buffer.go:25-41 | accepting an update removes exactly its points from the covered ones |
| GapBuffers.ConsumeSeparate | updates/gap_buffer.go:25-41 | the gaps stay non-empty and pairwise disjoint |
| GapBuffers.GapConservation | updates/gap_buffer.go:17-41 | over any run from one gap, remaining length plus accepted counts is the original length, and there is at most one gap more than accepted updates |
| SequenceBoxes.SequenceBox.constructor | updates/sequence_box.go:36-58 | a new sequencer has the initial state, no gap and nothing pending |
| SequenceBoxes.SequenceBox.Receive | updates/sequence_box.go:60-119 | the new state, gaps and pending list and the batch for the callback are those of the value-level sequencer |
| SequenceBoxes.SequenceBox.TakePending | updates/sequence_box.go:121-168 | sorting, scanning and trimming the pending list in place computes the value-level flush |
| SequenceBoxes.SequenceBox.Handle | updates/sequence_box.go:60-182 | a whole call with the callback's verdict: on failure the trimmed list and the unchanged state, otherwise the committed state |
| SequenceBoxes.SequenceBox.SetState | updates/sequence_box.go:186-198 | sets the counter and leaves gaps and pending list alone |
| Deliveries.IdleApplies | updates/sequence_box.go:85-98 | an idle sequencer applies an update that starts at its state at once, also one with count 0 |
| Deliveries.QuietApplies | updates/sequence_box.go:85-90 | with updates pending beyond the state, an update at the state is applied first and the rest is flushed from where it ends |
| Deliveries.AppliesAtStateExactlyWhen | updates/sequence_box.go:121-153 | with no gap open an update at the state is delivered exactly unless a pending update of positive count starts there too |
| Deliveries.RepeatsAreDelivered | updates/sequence_box.go:60-98 | an update of count 0 at the state of an idle sequencer is delivered as often as it arrives |
| Deliveries.RunAppliesAtState | updates/sequence_box.go:60-98 | in every run, failing callbacks and resynchronisations included, what arrives at the state of an idle sequencer is delivered at that point |
| Deliveries.HandleConserves | updates/sequence_box.go:60-153 | one call drops nothing but what starts below the state it ends in |
| Deliveries.RunConserves | updates/sequence_box.go:60-182 | over any run everything that was pending or arrives, counted with repetitions, is delivered, pending, or was dropped as outdated |
| Deliveries.HandleSettles | updates/sequence_box.go:60-182 | after a call a gap is open or everything pending lies beyond the state |
| ChainSafety.HandleMembers | updates/sequence_box.go:60-182 | nothing is made up: what is delivered or kept was pending or has just arrived |
| ChainSafety.HandleChains | updates/sequence_box.go:85-182 | what one call delivers is a chain of ranges from the state before to the state after |
| ChainSafety.RunLinked | updates/sequence_box.go:60-198 | over every run of calls, failing callbacks and resynchronisations, the deliveries are one chain that only resynchronisations break |
| ChainSafety.NoReplay | updates/sequence_box.go:60-198 | between two resynchronisations an earlier delivery ends before a later one starts, so no position is delivered twice |
| ChainSafety.StateRegressesExactlyWhen | updates/gap_check.go:12-27 | with counts of at least 0 a call lowers the state exactly when a state-0 update meets an idle sequencer with a positive state |
| ChainSafety.StateCanRegress | updates/gap_check.go:12-27 | an update with state 0 takes an idle sequencer from 5 to 0 |
| ChainSafety.ClosingFindsStart | updates/sequence_box.go:78-82 | when the last gap closes, some queued update starts exactly at the state |
| ChainSafety.FlushNeverEmpty | updates/sequence_box.go:165-168 | a flush caused by a closed gap or an update with a state always hands out a batch; the empty-buffer branch is not reached |
| ChainSafety.StepAnchored | updates/sequence_box.go:60-182 | in every run, while a gap is open the state is the left end of a gap or the start of a pending update |
| HonestLog.ScanHonest | updates/sequence_box.go:129-153 | from a cut of the log, the scan accepts the log up to the first range that is not pending and keeps exactly what lies beyond |
| HonestLog.ConsumeAllHonest | updates/sequence_box.go:101-106 | offering any logged updates, repeated or not, to aligned gaps uncovers exactly their points |
| HonestLog.OpenGapMisses | updates/gap_buffer.go:25-41 | while a gap is open, some range before the update that opened it has truly not arrived |
| HonestLog.StepGapOpen | updates/sequence_box.go:70-84 | with a gap open, a call keeps the coverage invariant; either a gap stays open, still waiting for the same update, or the state is carried past the update that opened it |
| HonestLog.StepGapDetected | updates/sequence_box.go:99-115 | an update that leaves a hole opens a gap list that covers exactly what is missing before it, or the state is carried past it |
| HonestLog.StepDirect | updates/sequence_box.go:85-98 | a call at the state applies it, with all that is pending behind it |
| HonestLog.StepHonest | updates/sequence_box.go:60-119 | one call keeps the invariant, delivers the next stretch of the log, keeps exactly what was kept and the new range, and leaves nothing applicable waiting |
| HonestLog.FailedApplyLosesExactlyWhen | updates/sequence_box.go:155-172 | if the callback fails, something received is neither delivered nor pending exactly when the call flushes the queue or applies the update alone, as box and update tell beforehand |
| HonestLog.FailedApplyKeepsInvariant | updates/sequence_box.go:155-172 | after a failing callback the invariant holds at the unmoved state, so convergence applies to what is sent again |
| HonestLog.RunHonest | updates/sequence_box.go:60-182 | the same over any run |
| HonestLog.GapClosesExactlyWhen | updates/sequence_box.go:70-115 | over any run after an update has left a hole: until all ranges before it have arrived, the state stays and the gaps are exactly what is missing before it; from then on the state is past it |
| HonestLog.Convergence | updates/sequence_box.go:60-182 | once every range has been handled, the deliveries are the rest of the log in order, each once, and the sequencer is idle at its end |
| HonestLog.RefinesLongestPrefix | updates/sequence_box.go:70-112 | at every moment the state is the end of the longest received prefix, or the gap list is exactly what has not arrived; the pending list is what was received from the state on |
| Storage.MemStorage.SetState | updates/storage_mem.go:33-40 | saves the whole state of one user and forgets the user's channel counters |
| Storage.MemStorage.SetPts | updates/storage_mem.go:42-54 | changes one field of a known user, fails for an unknown one, touches no other user |
| Storage.MemStorage.SetQts | updates/storage_mem.go:56-68 | likewise for qts |
| Storage.MemStorage.SetDate | updates/storage_mem.go:70-82 | likewise for the date |
| Storage.MemStorage.SetSeq | updates/storage_mem.go:84-96 | likewise for seq |
| Storage.MemStorage.SetDateSeq | updates/storage_mem.go:98-111 | likewise for date and seq together |
| InternalStates.InternalState.constructor | updates/state.go:79-128 | a new synchroniser has three idle sequencers at the saved counters |
| InternalStates.InternalState.ApplyPts | updates/state_apply.go:139-166 | hands on the batch with its merged entities and saves the counter |
| InternalStates.InternalState.ApplyQts | updates/state_apply.go:168-200 | likewise, but a counter of 0 is not saved |
| InternalStates.InternalState.HandlePts | updates/state.go:249-261 | invalid numbers change nothing; otherwise the pts sequencer decides and its batch is applied |
| InternalStates.InternalState.HandleQts | updates/state.go:263-275 | likewise for qts, with a count of 1 |
| InternalStates.InternalState.HandleChannel | updates/state.go:277-330 | a valid channel update is passed on to its channel, which is known from then on |
| InternalStates.InternalState.ApplyCombined | updates/state_apply.go:36-137 | sorts the batch, routes every update, hands on the rest, advances date and seq; reports a requested recovery |
| InternalStates.InternalState.ApplySeq | updates/state_apply.go:12-34 | applies the batches in turn, saves seq, and asks for a resynchronisation if any of them did |
| InternalStates.InternalState.HandleSeq | updates/state.go:219-247 | drops invalid numbers, applies an unnumbered batch at once, lets the seq sequencer decide on a numbered one |
| InternalStates.InternalState.HandleUpdates | updates/state.go:181-217 | brings every container into the combined form |
| InternalStates.InternalState.GetDifferenceSync | updates/state.go:354-468 | clears the gaps and applies each kind of answer |
| NumberedContainers.NumberedOutcome | updates/state.go:219-247 | a numbered container, with nothing waiting, is applied at once if it begins right behind the counter, dropped without a trace if it begins below, and kept behind the gap of the missing numbers if it begins beyond |
| NumberedContainers.NumberedProjects | updates/state.go:236-246 | in any state the seq counter moves as the range from seqStart - 1 to seq says, and what it hands out is applied in order |
| NumberedContainers.NumberedConverge | updates/state_apply.go:12-34 | numbered containers arriving in any order, with repetitions and outdated ones, leave all content as applying them one by one in order does, and the counter at the last number with nothing open |
| Handover.ApplyCombinedHandsOn | updates/state_apply.go:36-137 | a batch hands on bundles of counted updates and then its plain updates in arrival order as one bundle with the users and chats of the batch; the date becomes the later one; a recovery is asked for exactly if the batch says so |
| Handover.PtsHandsOn | updates/state_apply.go:139-166 | what the pts sequencer delivers is one bundle: the updates in order, every user and chat that came with them once |
| Handover.QtsHandsOn | updates/state_apply.go:168-200 | likewise for qts |
| Handover.BatchRoutes | updates/state_apply.go:49-91 | a batch sends on the notices for channels known before, then every valid channel update once, ascending per channel, each to its own channel with the users and chats of the batch |
| Handover.HandleUpdatesHandsOn | updates/state.go:181-247 | of every container the handler gets the plain updates of the batches that become applied, the date is the latest, and a resynchronisation is asked for once exactly if one of them or the container says so |
| Handover.PlainContainer | updates/state.go:181-247 | a container of plain updates is given to the handler as it is if unnumbered or next in number, dropped if old, kept behind a gap if early |
| Handover.PlainShort | updates/state.go:199-206 | a short update is handed on by itself without users and chats |
| Handover.ResyncHandsOn | updates/state.go:385-455 | for a whole difference and for a slice the handler gains, after what the other updates bring, exactly the messages of the answer, and the counters in memory and storage are those of the answer |
| Handover.ResyncAsksAgain | updates/state.go:354-468 | a further resynchronisation is asked for exactly after a slice or a too-long answer, besides what the other updates ask for |
| Handover.ShortAnswers | updates/state.go:418-465 | an empty or too-long answer hands on nothing and sets only what it names |
| Handover.RunHandsOnPlain | updates/state.go:143-468 | over every run the plain updates that the handler gets are exactly those of the applied batches, each as often as it is in them, in that order |
| WriteThrough.HandleQtsAgreesExactlyWhen | updates/state_apply.go:190-197 | a qts update breaks the agreement of saved and current state exactly when it has qts 0 and meets an idle qts sequencer whose state is not 0 |
| WriteThrough.QtsCanDisagree | updates/state_apply.go:190-197 | a qts update with qts 0 leaves 0 in memory and 7 in the storage of a fresh synchroniser at qts 7 |
| WriteThrough.ApplyCombinedAgrees | updates/state_apply.go:36-137 | a batch keeps the agreement, also when it sets seq from inside the seq sequencer's own callback |
| WriteThrough.HandleUpdatesAgrees | updates/state.go:181-217 | so does every container without a qts of 0 |
| WriteThrough.ResyncAgrees | updates/state.go:354-468 | so does every kind of answer to a resynchronisation |
| WriteThrough.RunAgrees | updates/state_apply.go:12-200 | so after every run the saved user state is the one in memory |
| LogServer.Server.UpdatesGetState | updates/internal/e2e/server.go:37-48 | reports the ends of the logs |
| LogServer.Server.UpdatesGetDifference | updates/internal/e2e/server.go:50-101 | the index loops return exactly what lies beyond the client's counters, or the empty difference |
| Handover.OtherUpdatesExact | updates/internal/e2e/server.go:69-86 | the other updates of a difference are exactly the messages of the visited channels that are newer than the client's date, each with its place |
| Handover.NewerThanExact | updates/internal/e2e/server.go:69-86 | those of one channel come in the order of its log |
| Handover.ResyncRoutes | updates/state.go:385-416 | a resynchronisation sends every channel the messages of its log that are newer than the date, each once, in order |
| LogServer.Server.SendCommon | updates/internal/e2e/server_event.go:16-46 | appends to the user log and announces the message under its true position |
| LogServer.Server.SendChannel | updates/internal/e2e/server_event.go:47-60 | appends to the channel's log and announces the message under its true position |
| LogServer.Server.CreateEvent | updates/internal/e2e/server_event.go:76-95 | moves the date on |
| EndToEnd.StartsFaithful | updates/state.go:79-128 | a synchroniser created from a saved state within the logs is faithful and agrees with its storage |
| EndToEnd.HandleUpdatesFaithful | updates/state.go:181-217 | any container of genuine updates keeps the handler's messages equal to the stretch of the log up to the counter |
| EndToEnd.ResyncFaithful | updates/state.go:354-416 | right after a resynchronisation the handler has the whole of both logs |
| EndToEnd.SliceFaithful | updates/state.go:429-455 | after a slice the handler has both logs up to where the slice leads |
| EndToEnd.RunFaithful | updates/state.go:143-179 | over every run of appends, deliveries and resynchronisations, whole or in slices, the handler has exactly the log up to the counter, and all of it after a whole one |
| BatchCounters.RouteProjects | updates/state_apply.go:49-100 | a batch moves the pts and the qts counter exactly as its updates of that counter do one by one |
| BatchCounters.BatchOrderIsIrrelevant | updates/state_apply.go:47-100 | if a shuffled batch's updates of one counter tile it from its state to P, all are applied directly in order, no gap is open and nothing pending after any turn of the loop, and the counter ends at P |
| BatchCounters.PushesConverge | updates/state.go:181-275 | without any resynchronisation, from any state of an honest run, once every message has been announced in some unnumbered container the handler has the whole log and the counter is at its end with no gap |
| Completeness.ResyncBox | updates/state.go:354-416 | a resynchronisation sets a counter to the end of its log, clears its gaps and leaves its pending list |
| Completeness.HandleUpdatesCollects | updates/state.go:181-247 | a container adds to what the counter keeps exactly what is announced in the batches it makes applied, numbered ones included |
| Completeness.RunCollects | updates/state.go:143-179 | over every run of appends, deliveries and resynchronisations the invariant holds and what a counter keeps is what it kept and what it was told since |
| Completeness.CompleteExactlyWhen | updates/state.go:143-455 | at any moment of any run the handler has a whole log exactly when every message was kept at an earlier moment or has been told since, and nothing applicable is left waiting |
| Completeness.RunQuiet | updates/state.go:143-416 | only a slice can leave something applicable waiting |
| Completeness.SliceStallsExactlyWhen | updates/state.go:429-455 | a slice leaves something applicable waiting exactly when it leads to where a pending update starts |
| Completeness.SliceCanStall | updates/state.go:429-455 | message 2 arrives alone, a slice brings message 1, and message 2 stays pending with no gap open |
| Completeness.FreshCompleteExactlyWhen | updates/state.go:79-179 | likewise from a freshly loaded state on, if no answer is a slice: exactly when everything after it has been told |
| KeyMutexes.KeyMutex.LockID | keymutex/keymutex.go:38-41 | locks the stripe of the id and no other |
| KeyMutexes.KeyMutex.UnlockID | keymutex/keymutex.go:43-46 | unlocks the stripe of the id and no other |
| KeyMutexes.KeyMutex.constructor | keymutex/keymutex.go:14-22 | a new lock has the given number of free stripes |
| Dispatchers.UpdateDispatcher.UpdateChat | bot/dispatcher.go:364-399 | one uninterrupted call does what the serial reading says, and gives back both locks, whatever else is held |
| Dispatchers.UpdateDispatcher.UpdateChatID | bot/dispatcher.go:401-447 | likewise for a migration: the old row goes, the new one takes over its history |
| Dispatchers.UpdateDispatcher.UpdateChatMember | bot/dispatcher.go:467-533 | likewise for a member row |
| Dispatchers.UpdateDispatcher.AddUserInfoToEvent | bot/dispatcher.go:211-246 | likewise for a user row under its stripe alone, and the event is stamped from the row as updated |
| RowHistories.ChatLastAction | bot/dispatcher.go:371-398 | whatever the order of events, the last action is the latest of their times and no update is later |
| RowHistories.ChatOnlyAdvances | bot/dispatcher.go:371-398 | the update time never goes back, a ban is never forgotten, first action and referer never change |
| RowHistories.LastWordHolds | bot/dispatcher.go:382-396 | if the newest event allows writing or is a ban, it decides whether the chat can be written to, its ban is remembered and its chat type stands, in whatever order the events came |
| RowHistories.MembershipIsLastWriterWins | bot/dispatcher.go:486-531 | membership is what the last-arriving of the newest join or leave events says, exactly unless that is a leave which created the row; and true while there is none |
| RowHistories.MembershipIgnoresOrderExactlyWhen | bot/dispatcher.go:486-531 | with different times two orders of arrival give the same membership exactly when in both or neither of them the newest decision is a leave that comes first |
| RowHistories.LeaveThatCreatesRowIsLost | bot/dispatcher.go:501-507 | a lone leave leaves a member, and a join and a later leave end differently by order of arrival |
| RowHistories.MemberTimes | bot/dispatcher.go:486-531 | first join and its actor are those of the first event, last join and last leave with their actors are those of some join and some leave |
| RowHistories.WriterRecorded | bot/dispatcher.go:514-530 | the last writer has left its time and its actor |
| RowHistories.MemberLastAction | bot/dispatcher.go:486-532 | the last action is the latest time of all events |
| RowHistories.JoinUrlStays | bot/dispatcher.go:486-522 | the join url is that of a join, and once there is one it stays |
| RowHistories.SessionCountsBreaks | bot/dispatcher.go:219-243 | the session number is one plus the number of gaps over five minutes, as a 16-bit number |
| RowHistories.SessionSharedExactlyWhen | bot/dispatcher.go:232-236 | two moments share a session number iff the number of such gaps between them is a multiple of 65536 |
| RowHistories.SessionsCanCollide | bot/dispatcher.go:232-236 | the first and the last of 65537 events with breaks between all of them share a session number |
| RowHistories.SessionSharedIffNoBreak | bot/dispatcher.go:232-236 | with fewer gaps than that, iff there is none between them |
| RowHistories.StampTells | bot/dispatcher.go:211-246 | an event is told the session number, the referer of the user's first event, the referer of the event that began the session, and the time of the first event |
| Interleaving.MoveLocks | bot/dispatcher.go:365-369 | every step keeps the locks held by exactly the threads between their lock and unlock steps |
| Interleaving.MoveFresh | bot/dispatcher.go:371-398 | every step keeps what another thread has read and not yet written equal to the tables |
| Interleaving.MoveSerialised | bot/dispatcher.go:364-447 | every step keeps the tables equal to a one-at-a-time run of the calls that have taken effect |
| Interleaving.Serialisable | bot/dispatcher.go:364-447 | when all calls are done, tables and answers are those of a one-at-a-time order that has every call once |
| Interleaving.OrderRespectsTime | bot/dispatcher.go:105-127 | a call that is done before another starts comes before it in that order |
| Interleaving.Progress | bot/dispatcher.go:365-369 | while some call is unfinished some call can step, also while a waiting migration keeps new readers out |
| Interleaving.RunsAreShort | bot/dispatcher.go:364-533 | no run is longer than seven steps per call |
| Interleaving.RunsComplete | bot/dispatcher.go:364-533 | every run can be continued until all calls are done |
| Interleaving.FinalChatsWellTimed | bot/dispatcher.go:387-440 | after any concurrent run, migrations included, no chat row has an update later than its last action |
| Lineages.MigrationMoves | bot/dispatcher.go:401-447 | the old id goes; the new row has first action, referer, write permission and ban flag of the old one and names it, with type and times of the row that was there or else none and those of the old one; nothing else changes |
| Lineages.NoMigration | bot/dispatcher.go:401-425 | a migration of an unknown chat or onto itself changes nothing |
| Lineages.LineageKeeps | bot/dispatcher.go:364-447 | along any chain of updates and migrations a chat keeps first action, referer and a ban, whatever its id was; or has them from the event that created it |
| Lineages.FinalLineages | bot/dispatcher.go:364-447 | so after any concurrent run |

## Left out

- Network, RPC, login, HTTP API, ClickHouse batching, logging, tracing: I/O over code not shown.
- The storage back ends behind the ORM, bbolt and redis. Of the ORM's own doings only the default of
  the membership column on insertion is modelled, the one default that is not a zero value; row ids
  and automatic time stamps are not part of this model.
- Timers (gap, idle and difference timeouts): in `internalState` the gap timeout only logs.
- Real concurrency between handling and resynchronising: no lock covers both; see Hypotheses.
- updates/state_channel.go: the channel states behind the routed updates, and whether a channel's
  access hash can be found.
- updates/conv_shorts.go: short messages are converted to an `UpdateShort` before they are handled;
  only the result is modelled.
- The protocol package that classifies updates is not part of this model; the constructors of
  `TgUpdate` are the classes it tells apart.
- Dispatching of an update to its calls (`highLevelDispatch`) and the extraction of event fields.
- Several dispatchers on one member table: the code says that those races are not settled
  (bot/dispatcher.go:477-478).
- InternalStates.InternalState.HandleChannel: does not model the look-up of access hash and channel
  counter; every valid channel update is taken to find its channel.
- InternalStates.InternalState.HandleUpdates: does not model the three short-message containers
  (see updates/conv_shorts.go above) nor the saving of channel access hashes.
- InternalStates.InternalState.GetDifferenceSync: the server's answer is a parameter here; `EndToEnd`
  ties it to the request.
- LogServer.Server.UpdatesGetDifference: does not fill in users and chats from the peer database.
- LogServer.Server.SendCommon: does not model the peer look-ups and their panics.
- LogServer.Server.SendChannel: does not model the peer look-ups and their panics.
- LogServer.Server.CreateEvent: does not model the callback and the container it returns.
- KeyMutexes.KeyMutex.LockID: does not model blocking; in the class a caller must find the stripe
  free, and the interleaved steps of `Interleaving` have the blocking.
- Dispatchers.UpdateDispatcher.UpdateChat: does not model blocking or interruption; that is what
  `Interleaving` is for.
- Dispatchers.UpdateDispatcher.UpdateChatID: likewise.
- Dispatchers.UpdateDispatcher.UpdateChatMember: likewise.
- Dispatchers.UpdateDispatcher.AddUserInfoToEvent: likewise.
- keymutex/hash.go: string keys are never used by the dispatcher.
