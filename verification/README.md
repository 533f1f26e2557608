# Proofs about the causality lab

A Dafny model of the repository's causality algorithms and proofs of what they are for: vector and matrix
clocks, causal delivery, Chandy-Lamport snapshots, the causal graph, consistent cuts, dotted version
vectors, the multi-version store and the token bucket. `dafny verify dfyconfig.toml` checks everything.

## How it is built

Operations that the Go code performs in place are classes with methods and loops; each method is proved
against a function of its old state. The functions are then the steps of runs, and the theorems are about all
runs.

| file | module | contents |
|---|---|---|
| `VectorClock.dfy` | `VectorClock` | clock rules over sparse maps, and `Compare` as a decision procedure |
| `Runs.dfy` | `Runs` | runs over a network that loses, reorders and duplicates; happened-before; the strong clock condition |
| `MatrixClock.dfy`, `MatrixRuns.dfy` | `MatrixClock`, `MatrixRuns` | the three-step matrix merge; what rows mean; garbage collection |
| `HoldBack.dfy` | `HoldBack` | the delivery condition and the hold-back queue; conservation and confluence |
| `CausalDelivery.dfy` | `CausalDelivery` | causal delivery over every run of a system of processes and an arbitrary network |
| `Process.dfy` | `Processes` | the process object: the three clock types, event log, markers, queue |
| `ProcessRuns.dfy` | `ProcessRuns` | processes along whole runs: the clocks they keep, stamp and publish; Lamport's order; causal logs |
| `Cluster.dfy` | `Clusters` | process objects over a network, driven call by call: they follow one run |
| `Snapshots.dfy` | `Snapshots` | the snapshot coordinator object and the meaning of its operations |
| `FifoRuns.dfy` | `FifoRuns` | the computation a snapshot observes; steps of different processes commute |
| `SnapshotRuns.dfy` | `SnapshotRuns` | runs with channels, markers and any number of snapshots; the marker discipline |
| `SnapshotCuts.dfy` | `SnapshotCuts` | the cut a snapshot is taking, as a refinement of the run |
| `SnapshotTheorems.dfy` | `SnapshotTheorems` | reachability of the recorded state, exact channel states, consistent clocks |
| `SnapshotProgress.dfy` | `SnapshotProgress` | markers, the decreasing measure, completion |
| `SnapshotFrontier.dfy` | `SnapshotFrontier` | the recorded clocks as a cut of the event log |
| `SnapshotVerifier.dfy` | `SnapshotVerifier` | the consistency check, what its verdict means on any reports of a run and on reachable snapshots |
| `Simulation.dfy` | `Simulations` | transport, processes and coordinator wired together; each call is one step of a run |
| `CausalGraph.dfy` | `CausalGraphs` | breadth-first search, reverse search, Kahn's sort on arbitrary graphs |
| `Cuts.dfy`, `CutRuns.dfy` | `Cuts`, `CutRuns` | the cut test, the enumeration, `CutBefore`, and cuts of whole runs |
| `Dvv.dfy` | `DottedVersions` | dotted version vectors and the sibling fold |
| `Conflict.dfy` | `Conflicts` | the multi-version store's writes |
| `RateLimit.dfy` | `RateLimits` | the token bucket with eviction |
| `Sizes.dfy` | `Sizes` | counting subsets |

The main results:

- **Snapshots.** On every run, with any number of snapshots interleaved, the recorded state of a completed
  snapshot is reached from the start by some of the run's steps, and the others lead from it to the present;
  channel states are exact as sequences; the recorded clocks are a consistent cut of the log; completion
  happens exactly when no marker is left, after N(N-1) of them. The verifier accepts finished reports of a run
  exactly when every recorded message was sent before its sender's cut.
- **Causal delivery.** On every run of the system messages reach a process in causal order and once; queues
  never hold a deliverable message; what a drain delivers does not depend on the order in the queue; and a
  message can still be delivered exactly when its past elsewhere consists of messages to its receiver. A process
  blocks exactly when a held message's past has an event of it that the receiver misses.
- **Processes.** However processes are driven in immediate mode, the clocks published with their events are those
  of one run, for each clock type: comparing the published vector clocks decides happened-before, matrices are the
  run's, and a Lamport value is the length of the longest happened-before chain ending in the event.
- **Clocks.** Comparing two events' clocks decides happened-before. A matrix entry says exactly what a process
  knows of another's knowledge; `CanGC` passes exactly when every process with a stored row is known to have seen
  the events, which speaks of all processes exactly when all rows are stored.
- **Graphs and cuts.** The sort lists exactly the events behind no cycle. In whatever order edges are
  listed, the bounded search is right about all events exactly when no more than the bound are reached. The cut
  test is closure under happened-before; the cut before an event's clock is the least consistent cut that contains
  it exactly when the log numbers the event's past by clock entries.
- **Stores.** The sibling fold keeps exactly the maximal clocks. Below the cap no write is lost; at the cap a version
  that leaves uncovered is older than all that stay. Evicting idle rate-limit buckets never shows, and the limit holds
  in every window, exactly when an hour refills the burst or the burst grants nothing.

## Where the code differs from what is said of it

- `internal/snapshot/verifier.go:19-21` says an incomplete snapshot is never called inconsistent. Only finished
  processes ever reach the report, so the early exit is not taken and a report in progress can fail for want of
  a sender. `VerdictMeaning` gives the exact condition; `InProgressRejected` is a run of three processes whose
  snapshot fails while it is in progress.
- `internal/snapshot/verifier.go:15-17` says the receiver's report is checked too: a recorded message must not have
  been received before the receiver's cut. The code never asks: `ReceiverIsNotAsked` is a message that its receiver's
  recorded state has already received and that is accepted. `VerdictOnReports` is all that the verdict says. Snapshots
  the coordinator completes have no such message (`ChannelStatesAreExact`).
- The design document (section 8.2, on multi-version concurrency control) has stored siblings pairwise
  concurrent. A write merges concurrent siblings into its own clock and then covers them:
  `ConcurrentSiblingIsCovered` is such a pair, `NewSiblingConcurrent` the exact condition.
- `internal/causality/cut.go:91-93` says `CutBefore` includes every event within the clock. An event numbered 0
  is included only if its process has another one: `CutBeforeCovers`, with `ZeroIsLeftOut` an event left out.
- The same comment has each process's frontier equal to its clock entry. It is so exactly when one of the process's
  events bears that number: `FrontierIsEntry`.
- It also calls the cut consistent. For any log it is so exactly when the numbers the clock covers are closed under
  happened-before (`CutBeforeConsistent`; numbered by clock entries, when the clock covers the clock of every event
  it covers, `CutBeforeConsistentByEntry`). `ArbitraryClockInconsistent` is a clock for which it fails.
- The clocks of events do better only if the log numbers events with their own clock entries. The repository's
  processes do not: the spawn event takes number 1 and received markers and held messages take numbers too
  (`internal/process/process.go:165-168,485-486`), while clocks count sends, receives and internal events only.
  Numbers then run ahead of entries (`NumbersRunAhead`), and an event whose number is above its own entry is not in
  the cut before its own clock (`InOwnCut`). That cut is the event's causal past, and the least consistent one that
  contains it, exactly when the event's past is numbered by entries (`CutBeforeIsPast`, `CutBeforeIsLeast`);
  otherwise it may be inconsistent: `OwnClockInconsistent`, with the numbers processes give. The cut test itself does
  not mind gaps: `ConsistentIsPastClosed`.
- `internal/causality/graph.go:66-68` bounds the search by visited events; beyond the bound it may answer no
  although a path exists: `BoundIsSharp`. For a given order of the edges the search from an event is right about every
  other exactly when it reaches no more events than the bound (`RightExactlyWithinBound`); `HappenedBefore` also says
  what is close enough to be found in any order, and what is too far.
- `internal/clock/matrix/clock.go:108-109` calls collection safe because all processes know the events. The test
  ranges over stored rows only, and a process is spawned with rows only for those before it
  (`internal/simulation/simulation.go:212-217`): the first one can collect its first event while nobody else has seen
  it (`FirstCollectsAlone`). What holds is safety for the rows stored (`GCSafe`); the test speaks of everyone exactly
  when every row is stored (`CanGCForEveryone`), as it is once an event of the last one spawned is known
  (`GCSafeOnceLastIsKnown`).
- `internal/clock/matrix/clock.go:91` has the least entry of a process over all rows; if every stored entry is
  the largest 64-bit value the code returns 0, as it does without rows: `MinKnowledge`.
- A snapshot of a lone process never completes, since completion is only checked when a marker arrives:
  `LoneSnapshotNeverCompletes`. The snapshot theorems therefore ask for two processes.
- Under causal delivery a message can be held for ever: `HeldForEver` is such a run, `SystemDelivers` the
  exact condition. Delivery is claimed to be safe, not live.
- `gateway/ratelimit.go:44-46` evicts buckets idle for an hour as if they were full. When an hour does not refill
  the burst the eviction shows in the answers (`EvictionShowsExactly`) and some window gets more than its limit
  (`WindowBoundExactly`).

## Model

| member | source | states |
|---|---|---|
| VectorClock.New | internal/clock/vector/clock.go:9-15 | zero for every given process |
| VectorClock.Tick | internal/clock/vector/clock.go:28-32 | raises the own entry by one, storing it if it was missing |
| VectorClock.Send | internal/clock/vector/clock.go:36-40 | ticks, and the stamp is the new clock |
| VectorClock.MergePassive | internal/clock/vector/clock.go:51-59 | pointwise maximum, storing a key only where it raises the entry |
| VectorClock.MergedIsLeastUpperBound | internal/clock/vector/clock.go:51-59 | the merge is the least upper bound in the pointwise order |
| VectorClock.Receive | internal/clock/vector/clock.go:44-47 | merge, then tick |
| VectorClock.Compare | internal/clock/vector/compare.go:20-56 | the scan with early exit decides the pointwise order over all processes, stored or not |
| Runs.StampKnows | internal/clock/vector/clock.go:28-59 | an event's clock reaches another event's own count exactly when that event is in its past |
| Runs.StampMonotone | internal/clock/vector/clock.go:28-59 | clocks grow along happened-before |
| Runs.StrongClockCondition | internal/clock/vector/compare.go:20-56 | on every run, comparing two events' clocks gives each of the four answers exactly when the events are so related |
| MatrixClock.Tick | internal/clock/matrix/clock.go:36-43 | raises the own entry of the own row, creating it if missing |
| MatrixClock.Send | internal/clock/matrix/clock.go:46-50 | ticks, and the stamp is the new matrix |
| MatrixClock.Receive | internal/clock/matrix/clock.go:58-87 | tick, then the sender's row into the own row, then every other row |
| MatrixClock.MinKnowledge | internal/clock/matrix/clock.go:91-106 | the least entry of a process over the stored rows; 0 without rows and when all entries are the largest 64-bit value |
| MatrixClock.CanGC | internal/clock/matrix/clock.go:110-112 | answers whether every stored row has reached the bound |
| MatrixRuns.EntriesIgnoreRows | internal/process/process.go:158-159 | the entries do not depend on the rows matrices are created with |
| MatrixRuns.MatrixStores | internal/clock/matrix/clock.go:58-87 | a row is stored exactly when the process was created with it or knows an event of its owner or of someone created with it |
| MatrixRuns.OwnRow | internal/clock/matrix/clock.go:58-87 | the own row evolves as the vector clock, although the code ticks before merging |
| MatrixRuns.MatrixRows | internal/clock/matrix/clock.go:58-87 | every row of every process's matrix is the vector clock of the latest event it knows of that process |
| MatrixRuns.EntryMeaning | internal/clock/matrix/clock.go:91-106 | an entry reaches an event's number exactly when the process knows that the row's owner knows the event |
| MatrixRuns.CanGCMeaning | internal/clock/matrix/clock.go:110-112 | whatever rows matrices are created with, the test passes exactly when the process knows that every process with a stored row knows the event |
| MatrixRuns.CanGCForEveryone | internal/clock/matrix/clock.go:108-112 | when it passes, everyone is known to know the event exactly when every row is stored |
| MatrixRuns.GCSafe | internal/clock/matrix/clock.go:108-112 | what the test allows to be collected has been seen by every process with a stored row |
| MatrixRuns.GCSafeOnceLastIsKnown | internal/simulation/simulation.go:212-217 | with the rows spawning creates, by every process once an event of the last one spawned is known |
| MatrixRuns.FirstCollectsAlone | internal/simulation/simulation.go:212-217 | with them, the first one spawned passes the test for its first event, which nobody else has seen |
| HoldBack.CheckDeliverable | internal/process/holdback.go:131-146 | decides the delivery condition: next of its sender and nothing else missing |
| HoldBack.Absorb | internal/process/holdback.go:39-73 | the in-place update of the local clock is the receive rule |
| HoldBack.HoldBackQueue.Enqueue | internal/process/holdback.go:24-28 | appends the message |
| HoldBack.HoldBackQueue.TryDeliver | internal/process/holdback.go:39-73 | rescans with swap-removal until nothing is deliverable; delivered list, queue and clock are those of the drain |
| HoldBack.SwapRemoveKeepsTheRest | internal/process/holdback.go:39-73 | removing by filling the slot with the last element loses nothing else |
| HoldBack.DrainConserves | internal/process/holdback.go:39-73 | delivered plus remaining is the old queue |
| HoldBack.DrainDelivers | internal/process/holdback.go:39-73 | each delivery meets the condition at its turn, the clock is the fold of the receives, and nothing left is deliverable |
| HoldBack.OrderIrrelevant | internal/process/holdback.go:39-73 | confluence: any order of the queue delivers the same messages, keeps the same and ends with the same clock |
| HoldBack.AbsorbedAt | internal/process/holdback.go:39-73 | its entry for each process: the larger of the two, and one more for its own |
| HoldBack.HoldBackQueue.BlockedBy | internal/process/holdback.go:99-126 | the processes whose entry in some held message's stamp is above the local one, the message itself not counted |
| HoldBack.WaitsForNobody | internal/process/holdback.go:94-126 | a message that can be delivered waits for nobody, and one that waits for nobody can be delivered or is stale |
| HoldBack.BlockersOfQuiescentQueue | internal/process/holdback.go:99-126 | after a drain nothing blocks exactly when every held message is stale |
| CausalDelivery.EntryCountsDeliveries | internal/process/process.go:391-430 | under causal delivery the entry for another process counts the deliveries from it, without a gap |
| CausalDelivery.ConditionMeaning | internal/process/holdback.go:131-146 | the condition holds exactly when the message is new and all of its past outside the receiver has been delivered |
| CausalDelivery.CausalOrder | internal/process/process.go:391-430 | whatever happened elsewhere before a delivered message was delivered earlier |
| CausalDelivery.NoDuplicates | internal/process/process.go:391-430 | a message is delivered at most once, however often it arrives |
| CausalDelivery.DeliverableMeaning | test/integration/integration_test.go:520-524 | a sent message can still be delivered in some continuation exactly when every event of its past outside the receiver is a message to the receiver |
| CausalDelivery.SystemDelivers | internal/process/process.go:391-430 | in every reachable state of the system, some further steps deliver a sent message exactly under that condition |
| CausalDelivery.HeldForEver | test/integration/integration_test.go:520-524 | a run of two processes, and two steps of the system, whose message nothing further delivers |
| CausalDelivery.DeliveryIsOnce | internal/process/process.go:391-430 | no message is received twice in any reachable state of the system |
| CausalDelivery.ReachableInv | internal/process/process.go:302-430 | every state of the system: clocks are those of the history, held messages are genuine, queues are quiescent |
| CausalDelivery.DeliveryIsCausal | internal/process/process.go:391-430 | causal order and at most once on every run of the system, with loss, reordering and duplication |
| CausalDelivery.QueuesAreQuiescent | internal/process/holdback.go:39-73 | in no reachable state is a held message deliverable, also after local ticks; queues meet the premise of confluence |
| CausalDelivery.BlockersInSystem | internal/process/holdback.go:94-126 | in every reachable state a process is waited for exactly when some held message has in its past an event of it, other than its own send, that the receiver has neither delivered nor performed |
| Processes.Process.constructor | internal/process/process.go:141-162 | a fresh process with the clock of its type over the given processes, and none for an unknown type |
| Processes.Process.Start | internal/process/process.go:164-168 | the spawn event takes the next number before any clock has ticked |
| Processes.Process.Internal | internal/process/process.go:188-193 | ticks the clock of its type and publishes the event |
| Processes.Process.Send | internal/process/process.go:196-222 | next message number, tick, the stamp of the process's clock type, event, and hand-over to the transport |
| Processes.Process.ReceiveClock | internal/process/process.go:465-474 | the receive rule of the process's clock type; for Lamport clocks the maximum plus one |
| Processes.Process.DeliverImmediate | internal/process/process.go:377-389 | receives at once and publishes the event |
| Processes.Process.DeliverCausal | internal/process/process.go:391-430 | delivers the message and all it releases, or holds it; all released events carry the final clock |
| Processes.Process.HandleMarker | internal/process/process.go:325-348 | the callback, if set, gets the state of the moment; then the marker's event is published; no clock moves |
| Processes.Process.HandleMessage | internal/process/process.go:302-368 | markers in any mode; otherwise the mode decides, total order falling back to causal and unknown modes to immediate; clocks, queue and the published events, whose numbers stay consecutive |
| ProcessRuns.VectorOf | internal/process/process.go:433-474 | on every run, a vector-time process has after each of its events the clock of the run's event, and stamps its messages with it |
| ProcessRuns.MatrixTimeOf | internal/process/process.go:433-474 | and a matrix-time process the run's matrix |
| ProcessRuns.LamportOf | internal/clock/lamport/clock.go:19-39 | the value an event leaves, which its message carries, is the length of the longest happened-before chain that ends in it |
| ProcessRuns.TotalOrderExtends | internal/clock/lamport/clock.go:54-71 | ordering events by value and then by process name is a strict total order that extends happened-before |
| ProcessRuns.LogEntry | internal/process/process.go:188-222 | the log has one entry for the spawn and one for each event of the process: the event's kind, number, clocks and message |
| ProcessRuns.PublishedClocksDecide | internal/process/process.go:465-474 | the strong clock condition for the clocks that vector-time processes publish with their events |
| ProcessRuns.CausalLog | internal/process/process.go:391-430 | what an arrival publishes in every reachable state: held, the clock as it was; delivered, its own receive with that receive's clock, then each released message with the clock of the last receive |
| ProcessRuns.LocalsAreProcesses | internal/simulation/simulation.go:232-248 | the local steps of a simulation are those of a vector-time process in immediate mode |
| Clusters.Cluster.Spawn | internal/simulation/simulation.go:187-217 | a new process object that knows those before it; all follow the run so far |
| Clusters.Cluster.InternalEvent | internal/process/process.go:188-193 | the objects follow the run with one internal event more: clocks, logs, message numbers |
| Clusters.Cluster.SendMessage | internal/process/process.go:196-222 | the same for a send, and the network has the message with the clocks of the event |
| Clusters.Cluster.Deliver | internal/process/process.go:302-389 | the same for the arrival of any message ever sent, however often |
| Clusters.Cluster.EventsCarry | internal/process/process.go:433-474 | what the objects have published for an event: its vector clock in the run, its matrix, or the length of its longest chain, by clock type |
| Clusters.Cluster.EventsDecide | internal/clock/vector/compare.go:20-56 | comparing the vector clocks two objects have published with their events decides how the events are related |
| Snapshots.SnapshotCoordinator.RegisterProcess | internal/snapshot/chandy_lamport.go:134-164 | records the peers and adds the process to everyone else's, once |
| Snapshots.SnapshotCoordinator.Initiate | internal/snapshot/chandy_lamport.go:168-212 | registers the snapshot, captures the initiator, opens its channels, one marker per peer |
| Snapshots.SnapshotCoordinator.IsComplete | internal/snapshot/chandy_lamport.go:77-87 | every expected process has a finished report |
| Snapshots.SnapshotCoordinator.CheckFinalized | internal/snapshot/chandy_lamport.go:393-459 | a process all of whose channels are closed reports; the last report completes the snapshot |
| Snapshots.SnapshotCoordinator.OnMarkerReceived | internal/snapshot/chandy_lamport.go:220-294 | the first marker captures and is forwarded, later ones close their channel, markers after the end change nothing |
| Snapshots.SnapshotCoordinator.RecordMessage | internal/snapshot/chandy_lamport.go:297-313 | appends to an open channel and leaves a closed or unknown one alone |
| Snapshots.SnapshotCoordinator.GetActiveSnapshotIDs | internal/snapshot/chandy_lamport.go:495-509 | the snapshots in which the process is recording |
| Snapshots.SnapshotCoordinator.RecordForActive | internal/simulation/simulation.go:232-248 | one message recorded for every active snapshot |
| Snapshots.RegistrationCases | internal/snapshot/chandy_lamport.go:134-164 | a registration forgets the process's parts, adds it once to the peers of the others and changes nothing else |
| Snapshots.InitiationCases | internal/snapshot/chandy_lamport.go:168-212 | a new snapshot has no reports; a known initiator has captured its state and opened an empty channel from every peer and no one else |
| Snapshots.MarkerCases | internal/snapshot/chandy_lamport.go:220-294 | which state is kept, which channels are open and what they hold after a marker, and when the part is done |
| Snapshots.RecordingCases | internal/snapshot/chandy_lamport.go:297-313 | a message goes to the one open channel from its sender and to no other |
| FifoRuns.Commute | internal/simulation/simulation.go:232-248 | enabled steps of different processes can be exchanged |
| FifoRuns.CommutePast | internal/simulation/simulation.go:232-248 | a step can be moved past an execution of other processes |
| FifoRuns.ExecKeepsInv | internal/simulation/transport.go:144-209 | on every run channels are first in first out, and no clock or message knows more of a process than it does itself |
| SnapshotRuns.ReachableInv | internal/snapshot/chandy_lamport.go:168-294 | on every run and for every snapshot: one marker per channel, under way exactly from the sender's recording until the receiver closes the channel; reports are those of finished processes |
| SnapshotRuns.SpawnedMesh | internal/snapshot/chandy_lamport.go:134-164 | registering each process with those before it ends in the full mesh |
| SnapshotCuts.CutStep | internal/snapshot/chandy_lamport.go:168-313 | the cut being taken moves with the steps of processes that have not recorded and with no others |
| SnapshotCuts.ObservedStep | internal/simulation/simulation.go:232-248 | taking snapshots does not disturb the computation observed |
| SnapshotTheorems.CutIsReachable | internal/snapshot/chandy_lamport.go:168-313 | at every moment the pre-cut steps alone lead from the start to the cut |
| SnapshotTheorems.RecordedStateIsReachable | internal/snapshot/chandy_lamport.go:168-313 | the recorded state is reached by the pre-cut steps, and the post-cut steps lead from it to the present; each process keeps the order of its steps |
| SnapshotTheorems.BeforeInitiation | internal/snapshot/chandy_lamport.go:168-313 | everything before the initiation is pre-cut |
| SnapshotTheorems.AfterCompletion | internal/snapshot/chandy_lamport.go:168-313 | everything after the completion is post-cut, and a completed snapshot stays completed |
| SnapshotTheorems.ChannelStatesAreExact | internal/snapshot/chandy_lamport.go:220-313 | sent at the sender's cut is received at the receiver's cut followed by recorded, as sequences |
| SnapshotTheorems.RecordedClocksAreConsistent | internal/snapshot/chandy_lamport.go:220-313 | no recorded clock knows more of a process than that process's recorded clock |
| SnapshotProgress.OneMarkerPerChannel | internal/snapshot/chandy_lamport.go:168-294 | a completed snapshot has sent exactly one marker on every directed channel and none elsewhere |
| SnapshotProgress.MarkerTotal | internal/snapshot/chandy_lamport.go:168-294 | a completed snapshot of N processes has sent N(N-1) markers |
| SnapshotProgress.ChannelsAreAllPairs | internal/simulation/simulation.go:250-256 | N processes have N(N-1) channels |
| SnapshotProgress.MarkersCloseChannels | internal/snapshot/chandy_lamport.go:220-294 | every marker that arrives closes one open channel and nothing else changes them: the number of markers still to arrive decreases |
| SnapshotProgress.CompleteWhenNoMarkerIsLeft | internal/snapshot/chandy_lamport.go:393-459 | complete exactly when no channel is open, exactly when no marker is under way; announced once, and then |
| SnapshotProgress.LoneSnapshotNeverCompletes | internal/snapshot/chandy_lamport.go:168-212 | with one process no snapshot ever completes |
| SnapshotFrontier.PartIsCaptured | internal/snapshot/chandy_lamport.go:220-294 | a recorded local state is one the process was in, whatever it does while recording |
| SnapshotFrontier.RecordedCutIsConsistent | internal/causality/cut.go:24-48 | a frontier that cuts any log of the run at the recorded clocks of a completed snapshot passes the cut test |
| SnapshotFrontier.RecordedFrontierIsConsistent | internal/causality/cut.go:24-48 | so the last events the recorded clocks have reached, for any log whose numbers grow per process |
| SnapshotFrontier.RecordedClocksAreACut | internal/causality/cut.go:24-48 | and the recorded own entries, when the log numbers events by their entries |
| SnapshotVerifier.VerifyReport | internal/snapshot/verifier.go:41-81 | fails exactly on a recorded message whose sender does not report, or reports a clock whose own entry is below the message's |
| SnapshotVerifier.Verify | internal/snapshot/verifier.go:23-84 | an unfinished report passes everything; otherwise inconsistent exactly when some report has such a message |
| SnapshotVerifier.MessageVerdict | internal/snapshot/verifier.go:11-14 | on any run, a message is accepted from a sender who reports its clock after some number of events exactly when it was sent by one of these |
| SnapshotVerifier.VerdictOnReports | internal/snapshot/verifier.go:11-14 | finished reports of any run, with messages recorded in whatever way, are called consistent exactly when every recorded message comes from a process that reports and was sent before its cut |
| SnapshotVerifier.PresentSenderRejected | internal/snapshot/verifier.go:55-66 | two reports, the sender's among them, that are called inconsistent |
| SnapshotVerifier.ReceiverIsNotAsked | internal/snapshot/verifier.go:15-17 | two reports of a run with a recorded message that its receiver's recorded state has already received, called consistent |
| SnapshotVerifier.VerdictMeaning | internal/snapshot/verifier.go:23-84 | on every reachable snapshot the verdict is consistent exactly when every process a report recorded messages from has reported; completed snapshots pass |
| SnapshotVerifier.InProgressRejected | internal/snapshot/verifier.go:19-21 | for any three processes, a run whose snapshot in progress is called inconsistent |
| Simulations.SimTransport.RegisterChannel | internal/simulation/transport.go:61-70 | opens a channel once |
| Simulations.SimTransport.Send | internal/simulation/transport.go:78-158 | appends to the channel, or fails without one |
| Simulations.SimTransport.Forward | internal/simulation/transport.go:185-209 | takes the head of a channel |
| Simulations.Simulation.SpawnProcess | internal/simulation/simulation.go:187-274 | refuses bad ids, known ids and too many processes; otherwise joins the process to all others |
| Simulations.Simulation.InternalEvent | internal/simulation/simulation.go:316-325 | one computing step of the run, or an error |
| Simulations.Simulation.SendMessage | internal/simulation/simulation.go:294-302 | one sending step of the run; without a channel the tick stays and the message is gone |
| Simulations.Simulation.TriggerSnapshot | internal/simulation/simulation.go:328-347 | one initiation of the run with all its markers on their channels |
| Simulations.Simulation.Forward | internal/simulation/simulation.go:228-248 | one arrival of the run: recorded and then delivered, or a marker handled with the state of that moment |
| Simulations.UnsentIsSendUnlogged | internal/simulation/simulation.go:294-302 | without a channel the sender is left as by a send, and nothing is logged as sent |
| Simulations.SpawnedOneMore | internal/simulation/simulation.go:187-274 | spawning before the first step leads to the start of a run |
| CausalGraphs.CausalGraph.AddEvent | internal/causality/graph.go:46-53 | registers the event and keeps all edges |
| CausalGraphs.CausalGraph.AddEdge | internal/causality/graph.go:56-63 | adds the one edge |
| CausalGraphs.CausalGraph.HappenedBefore | internal/causality/graph.go:69-100 | for any order of the edges: whether the search comes upon the event before it has visited as many as the bound; a yes has a path shorter than the bound; yes if at most MAX_BFS_DEPTH events lie within the length of some path, no if as many lie strictly nearer; terminates on any graph |
| CausalGraphs.RightExactlyWithinBound | internal/causality/graph.go:66-100 | for any order of the edges, the search from an event is right about every other exactly when it reaches no more events than the bound |
| CausalGraphs.BoundIsSharp | internal/causality/graph.go:10 | a chain of as many edges as the bound is a path that the search cannot report |
| CausalGraphs.CausalGraph.Concurrent | internal/causality/graph.go:103-105 | neither search finds the other, each with its own order of the edges; not concurrent if either is close to the other, concurrent if each is far; exact within the bound; an event is concurrent with itself |
| CausalGraphs.CausalGraph.CausalHistory | internal/causality/graph.go:108-137 | exactly the registered events with a path to the event, each once |
| CausalGraphs.CausalGraph.TopologicalSort | internal/causality/graph.go:141-185 | lists exactly the registered events on or behind no cycle, each once and after all its registered predecessors |
| CausalGraphs.AcyclicMeansNothingBehind | internal/causality/graph.go:139-141 | so all registered events are listed exactly when the registered subgraph is acyclic |
| Cuts.FindEvent | internal/causality/cut.go:139-146 | the first event with the id |
| Cuts.IsConsistent | internal/causality/cut.go:24-48 | no message with two known events is received in the cut and sent outside it |
| Cuts.FailsExactly | internal/causality/cut.go:24-48 | said by positions in the log: the first event with each id, and the frontier of its process |
| Cuts.ConsistentLattice | internal/causality/cut.go:8-13 | consistent cuts are closed under pointwise minimum and maximum |
| Cuts.CutEnumeration.Enumerate | internal/causality/cut.go:65-89 | appends the consistent combinations below the shared map, whatever earlier branches left in it |
| Cuts.FindConsistentCuts | internal/causality/cut.go:53-63 | exactly the consistent frontiers over -1 and each process's numbers, each once when numbers are distinct |
| Cuts.CutBefore | internal/causality/cut.go:94-114 | per process the highest positive number within the clock, -1 without one |
| Cuts.CutBeforeCovers | internal/causality/cut.go:91-93 | which events the cut before a clock contains |
| Cuts.FrontierIsEntry | internal/causality/cut.go:91-93 | a frontier is its clock entry exactly when an event of the process bears that number |
| Cuts.ZeroIsLeftOut | internal/causality/cut.go:91-93 | an event numbered 0 that every clock covers and its cut leaves out |
| Cuts.FindMessages | internal/causality/cut.go:118-135 | all pairs of a send and a receive with the same message id |
| CutRuns.ConsistentIsPastClosed | internal/causality/cut.go:22-48 | on every run, for any log whose numbers grow per process, the message test is closure under happened-before |
| CutRuns.InOwnCut | internal/process/process.go:165-168 | an event is in the cut before its own clock exactly when its number is its own clock entry |
| CutRuns.PastsNeedEntries | internal/causality/cut.go:94-114 | the cuts before the events' clocks are their causal pasts exactly when every event is numbered with its own entry |
| CutRuns.CutBeforeIsPast | internal/causality/cut.go:94-114 | for any log, the cut before an event's clock is the event's causal past exactly when that past is numbered by clock entries |
| CutRuns.CutBeforeIsLeast | internal/causality/cut.go:94-114 | for any log, it is one of the consistent cuts enumerated, contains the event and is the least that does, exactly when the event's past is numbered by clock entries |
| CutRuns.CutBeforeConsistent | internal/causality/cut.go:91-93 | for any log, the cut before any clock is consistent exactly when the numbers the clock covers are closed under happened-before |
| CutRuns.CutBeforeConsistentByEntry | internal/causality/cut.go:91-93 | numbered by clock entries, exactly when the clock covers the clock of each event it covers |
| CutRuns.OwnClockInconsistent | internal/process/process.go:165-168 | a log numbered as processes number it, with an inconsistent cut before an event's own clock |
| CutRuns.ArbitraryClockInconsistent | internal/causality/cut.go:91-93 | a clock that covers a receive and not its send, and whose cut is inconsistent |
| DottedVersions.ToVV | internal/clock/dvv/dvv.go:48-57 | for each process the larger of its history entry and, for the dot's process, the dot's counter |
| DottedVersions.CoversExactly | internal/clock/dvv/dvv.go:48-57 | a clock covers the folded version exactly when it has reached all of the history and the dot |
| DottedVersions.Dominates | internal/clock/dvv/dvv.go:61-70 | decides whether one version has seen the other's history and dot |
| DottedVersions.UpdateDVV | internal/clock/dvv/dvv.go:40-45 | the old entry folded into the history under a new dot |
| DottedVersions.UpdateCovers | internal/clock/dvv/dvv.go:40-45 | an update covers what it follows, and exceeds it exactly when its dot is new to it |
| DottedVersions.Sync | internal/clock/dvv/dvv.go:74-94 | drops covered siblings and adds the entry unless a survivor covers it |
| DottedVersions.SyncKeepsOrder | internal/clock/dvv/dvv.go:74-94 | for any siblings, those not covered stay, each in its place among the others, and the entry comes last unless one of them covers it |
| DottedVersions.KeptIsLasting | internal/clock/dvv/dvv.go:74-94 | after any writes exactly those entries are kept that no other strictly covers and no later one repeats |
| DottedVersions.KeptIsAntichain | internal/clock/dvv/dvv.go:72-74 | no kept entry covers another |
| DottedVersions.KeptClocksAreMaximal | internal/clock/dvv/dvv.go:74-94 | a clock is kept exactly when it is maximal among those written |
| DottedVersions.OrderAndRepetitionIrrelevant | internal/clock/dvv/dvv.go:74-94 | the clocks kept do not depend on order or repetition of the writes |
| Conflicts.ConflictDetector.Write | internal/conflict/detector.go:63-139 | errors and their order; what is stored; a conflict is reported exactly when some stored version is not covered by the context |
| Conflicts.TrimOldest | internal/conflict/detector.go:143-148 | drops the oldest unless that would drop everything |
| Conflicts.WhatLeaves | internal/conflict/detector.go:86-124 | below the cap exactly the covered versions leave; never more than the cap; the newest is last |
| Conflicts.StoredInOrder | internal/conflict/detector.go:86-124 | after any writes the stored versions are among those issued, in the order they were issued |
| Conflicts.OldestLeaveFirst | internal/conflict/detector.go:120-148 | a version that leaves although the write's context does not cover it was issued before every version that stays |
| Conflicts.NewClockExactly | internal/conflict/detector.go:104-117 | which clocks cover the new version: those that, one step of its author less, cover the context and all concurrent siblings |
| Conflicts.MergedClockIsLeast | internal/conflict/detector.go:84-117 | the merged clock is the least above the context and all concurrent siblings |
| Conflicts.NewVersionCovers | internal/conflict/detector.go:104-117 | the new version covers all it discarded and all concurrent siblings |
| Conflicts.NoWriteIsLost | internal/conflict/detector.go:63-139 | below the cap every version ever written is covered by a stored one |
| Conflicts.NewSiblingConcurrent | internal/conflict/detector.go:87-117 | exactly when a write keeps its version concurrent with every survivor |
| Conflicts.ConcurrentSiblingIsCovered | internal/conflict/detector.go:104-117 | two writes after which one stored version covers another |
| RateLimits.RateLimiter.Allow | gateway/ratelimit.go:73-93 | lazy refill up to the burst; grants exactly when a whole token is there, and takes it |
| RateLimits.RateLimiter.CollectIdle | gateway/ratelimit.go:46-64 | removes exactly the buckets idle for more than an hour |
| RateLimits.WindowBound | gateway/ratelimit.go:11-15 | in any window at most the burst plus the rate times its length is granted, if an hour refills a bucket, nothing is evicted, or the burst is below one token |
| RateLimits.WindowBoundExactly | gateway/ratelimit.go:44-64 | over all runs from an empty limiter the bound holds exactly when an hour refills a bucket or the burst is below one token |
| RateLimits.EvictionIsInvisible | gateway/ratelimit.go:44-46 | if an hour refills a bucket, clients get the same answers with eviction as without |
| RateLimits.EvictionShowsExactly | gateway/ratelimit.go:44-64 | no run of requests and sweeps from an empty limiter answers differently with eviction exactly when an hour refills the burst or the burst is below one token |

## Left out

- Counters are natural numbers: wrap-around at 64 bits and the cap of `uint64ToIntBounded` are not modelled. Matrix results ask for fewer than 2^64-1 events, the value `MinKnowledge` starts its minimum from.
- Processes.Process.Send: the transport's answer is not part of the process; `Simulations.Simulation.SendMessage` has it.
- Snapshots.SnapshotCoordinator.Initiate: the snapshot id is an argument. Ids come from a nanosecond clock, and the runs take them to be fresh.
- Simulations.Simulation.TriggerSnapshot: the same.
- Simulations.SimTransport.Send: drop, delay, reorder and partition injection, full channels and closing are not modelled: they break the reliable FIFO assumption of snapshots. The causal-delivery runs allow an arbitrary network instead.
- Simulations.Simulation.SpawnProcess: peers are listed in the order of spawning, not in Go's map order; the order only decides which channel gets its marker first within one step. Id lengths are counted in characters.
- Simulations.Simulation.Forward: processes are states with vector clocks and immediate delivery; the event logs and hold-back queues of `Processes.Process` are not repeated there.
- Steps are atomic as the comments of `process.go:326-335` and `chandy_lamport.go:202-205` intend: a send's tick and its enqueueing, an initiation and its markers, an arrival with recording and handling. The locks and the inbound buffer between them are not part of this model.
- Membership changes during a run, `DeregisterProcess`, `KillProcess`, panics and a change of the delivery mode: the invariants are about a fixed membership and mode.
- Causal delivery is modelled with vector clocks; with matrix clocks only immediate delivery is.
- Clusters.Cluster.Deliver: the objects of a cluster are in immediate mode. `CausalDelivery` has the runs of causal mode, as states and not as objects; `ProcessRuns.CausalLog` says what is published there.
- ProcessRuns.TotalOrderExtends: names are ordered by character.
- Message payloads, marker ids, time stamps, evidence texts and the event bus. The message logs in a local state are history variables of the model.
- CausalGraphs.CausalGraph.HappenedBefore: the order in which Go's map iteration lists the edges of each event is an argument; the map itself has none.
- CausalGraphs.BoundIsSharp: the wiring that fills the graph from published events (`internal/simulation/simulation.go:137-179`) is not modelled; graphs are arbitrary.
- SnapshotVerifier.Verify: the evidence is not modelled, only the verdict; an empty vector clock stands for none.
- `RateLimits` uses real numbers: rounding of the floating-point tokens is not modelled.
- `ConcurrentSet`, version vectors, conflict resolvers, `antientropy.go`, snapshot DTOs, the HTTP and WebSocket layers, configuration, metrics and the frontend.
- `ConflictDetector.Read` and `Resolve`, `NewDVV`, `HoldBackQueue.Len` and `Snapshot`: copies and accessors.
