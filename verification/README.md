# JRpcFrame in Dafny

JRpcFrame is a small framework of services that call each other over TCP connections within a cluster. This project
models its state machines and proves what they promise, over every run, every input and every interleaving of their
goroutines.

- **Timing wheels** (`WheelSpec`, `TimeWheels`, `WheelTiming`, `WheelTheorems`, `WheelRepeats`, `WheelProgress`). Three
  cascaded wheels of hours, minutes and seconds. `WheelSpec` says what each operation does to all wheels together; the
  classes of `TimeWheels` are proved against it; `WheelTiming` is the timed machine in which ticks, polls, additions and
  removal scans interleave at the grain of the wheels' locks, a poll being one step; `WheelTheorems` and `WheelRepeats`
  hold the results over runs, and `WheelProgress` shows that time can always go on.
- **Remote calls** (`CallSpec`, `RpcClients`, `RpcMachine`, `RpcSafety`, `RpcTheorems`, `RpcProgress`). Callers, answers,
  timeouts and failing writes race to complete a call, while call objects go back to a pool and come out under new
  numbers. The classes of `RpcClients` and the machine are built from the same functions on records and pools, and both
  say what these amount to case by case.
- **Deadlines** (`Deadlines`, `DeadlineProgress`). The calls on top of the wheels: the end-to-end bound of 15 s plus
  one poll gap.
- **Cluster and discovery** (`ClusterSpec`, `Clusters`, `DiscoverySpec`, `DiscoveryMeaning`, `Discoveries`,
  `DiscoveryNet`, `DiscoveryProgress`, `ClaimSoundness`). The index from services to nodes, the registry of a master,
  the claims of a node, and any number of both exchanging messages over links that deliver in order. `DiscoveryMeaning`
  says what a message does in the words of its entries.
- **Connections** (`ConnSpec`, `ConnMachine`, `ConnProgress`, `TcpConns`, `Framing`, `SlicePools`, `BufferSharing`). The
  write queue with its writer, graceful close and forced destroy; frames in both byte orders; the buffer pool in size
  classes, alone and under any number of connections.
- **Module tree** (`TreeSpec`, `Modules`). Modules with their descendants, and the release that recurses through the
  releasing module instead of the parent.

`Collections` holds optional values and facts about sets and maps that loops need, `Arithmetic` truncating division.

## Assumptions

- Clocks are parameters. Every wheel ticks exactly every interval, in any order at coinciding instants, and a poll
  comes at least every `gap` ms. A tick is as many steps as it moves timers. One poll is one step, although the source
  gives up the finest wheel's lock around each re-addition; `ScanInsidePoll` says what that means for removals.
- Peers answer only requests that were written to them; `EarlyAnswerFreesTwice` and `EarlyAnswerEndsTwice` say what
  happens otherwise. A request is written, or has failed, before its own timeout is handled. Taking a number out of the
  pending ones, setting the error and signalling is one step; `EarlyReadFillsPooledCall` says what happens otherwise.
- A triggered timeout is handled before the clock moves on, and no one removes a timer whose id was dropped.
- A master handles one event at a time. Links deliver in order; a lost connection loses what is under way. A message
  to a node that has had a full list on its connection fails only by closing that connection. Node ids are positive.
- Whether a connection is up, whether a write or an encoding succeeds and whether a handler's channel has room are
  parameters, so every combination is covered.
- Numbers are unbounded where the source has `uint32` or `uint64` counters; frame fields have their real width.

## Where the code differs from what it says

- `AddPending` (jrpc/rpcclient.go:267-268) drops the timer's id, so `pendingTimer` stays empty and removing a call never
  cancels its timer; `LateEventsAreIgnored` shows that this is harmless.
- While no poll is between its two lock sections (jtimer/timewheel.go:205-209), a removal can miss a timer exactly when
  its interval is above 59.999 s and it has a repetition left (`RemovedForGood`, `RepetitionEscapesRemoval`); a removal
  in that gap misses every timer with a repetition left (`ScanInsidePoll`).
- Repetitions less than 100 ms apart lose firings (`CloseRepetitionsAreLost`).
- A synchronous caller tests the error of its call without a lock (jrpc/rpchandler.go:262), so it can release a call that
  is about to be signalled (`EarlyReadFillsPooledCall`).
- `GetNodeIdByService` stops at the capacity of the list and not at its length (cluster/cluster.go:450).
- The discard mark is written to a copy (cluster/cluster.go:184), so `DiscardNode` never deletes a node.
- A configured master that registers with another one after connecting is not synced until it connects anew
  (`LateRegistrationIsLeftBehind`, `RegistrationSendsNothing`, `MissingStays`).
- `Close` on a full queue and `Write(nil)` put a nil slice into the smallest bucket of the pool
  (`ReleasedExactlyOnce` counts these releases, `SlicePoolList.ReleaseByteSlice` says what they do to the pool).
- `MsgParser.WriteMsg` does not report that the connection refused the buffer (jnet/tcpmsgparser.go:74), and computes
  the size of the frame in 32 bits (jnet/tcpmsgparser.go:61).
- `AddModule` compares ids only with the siblings (service/module.go:55), and `ReleaseModule` recurses through the
  calling module (service/module.go:88); `AddToTree` and `ReleaseSubtree` say exactly when the modules stay a tree.

## Model

| member | source | states |
|---|---|---|
| WheelSpec.PlaceFromMeaning | jtimer/timewheel.go:80-109 | A timer goes to the first wheel from the asked one down whose interval fits its delay, at the distance delay / interval modulo the dial, and otherwise to the finest wheel, where only a forced placement on that very wheel takes the next slot. |
| WheelSpec.VisitOnce | jtimer/timewheel.go:195-213 | One more visit of a due timer by the poll loop: its entry leaves the current slot and, while firings are left, goes where its renewed time puts it; nothing else changes. PollMeaning says what the visits add up to. |
| WheelSpec.TickMeaning | jtimer/timewheel.go:150-163 | A tick entry by entry: each timer of the current slot is where its delay puts it from this wheel down, with the next slot forced; every other entry stays; the pointer is one slot on. |
| WheelSpec.PollMeaning | jtimer/timewheel.go:190-213 | A poll entry by entry, for any hierarchy: it reports exactly the timers of the finest current slot due in less than 100 ms. Visited once, a timer is reported as it was and, with firings left, is afterwards where a due time of (nanosecond of the poll + interval) / 1,000,000 ms puts it, with its interval and one firing less; else it is gone. Only a timer due again at once is visited again. All other entries stay. |
| TimeWheels.TimeWheel.constructor | jtimer/timewheel.go:49-62 | A new wheel points at slot 0 and has one empty map per scale. |
| TimeWheels.TimeWheel.AddTimeWheel | jtimer/timewheel.go:140-142 | The lower wheel is linked and nothing else changes. |
| TimeWheels.TimeWheel.PlaceTimer | jtimer/timewheel.go:70-110 | Among all wheels exactly one entry changes, the one where PlaceFrom puts the timer. |
| TimeWheels.TimeWheel.AddTimer | jtimer/timewheel.go:115-119 | The same without forcing the next slot; the recursion down the wheels ends. |
| TimeWheels.TimeWheel.RemoveTimer | jtimer/timewheel.go:125-134 | The id disappears from every slot of this wheel and nothing else does. |
| TimeWheels.TimeWheel.TakeSlot | jtimer/timewheel.go:153-155 | The current slot gets a fresh map before any timer of it is re-added. |
| TimeWheels.TimeWheel.DrainSlot | jtimer/timewheel.go:156-159 | Re-adding the taken timers one by one, in any order, lands each where it belongs and nowhere else. |
| TimeWheels.TimeWheel.Tick | jtimer/timewheel.go:150-163 | One turn of the wheel: fresh map, all taken timers placed from this wheel with the next slot forced, pointer one on; and entry by entry what that leaves in every slot. |
| TimeWheels.TimeWheel.GetTimerWithIn | jtimer/timewheel.go:180-217 | One poll, with its removals, re-additions and renewed visits of re-added timers, as one change of all wheels, and the reported timers: which are reported, where each of the others is afterwards, and due when. The source gives up the leaf's lock around each re-addition. |
| TimeWheels.TimerScheduler.constructor | jtimer/timescheduler.go:34-53 | Three linked empty wheels, of 12 slots of an hour, 60 of a minute and 60 of a second. |
| TimeWheels.TimerScheduler.CreateTimerAt | jtimer/timescheduler.go:61-68 | The next id, and one timer due at the given time placed from the hour wheel. |
| TimeWheels.TimerScheduler.CreateTimerAfter | jtimer/timescheduler.go:78-85 | The same for a delay, a number of firings and an interval. |
| TimeWheels.TimerScheduler.RomoveTimer | jtimer/timescheduler.go:91-99 | Without interference the scan leaves the id in no slot of any wheel. |
| TimeWheels.TimerScheduler.PollOnce | jtimer/timescheduler.go:113-125 | One poll reports exactly the timers of the current second slot due in less than 100 ms, and puts each that repeats back from the hour wheel, due one interval after the nanosecond of the poll and with a firing less. |
| WheelTiming.ShowsKept | jtimer/timewheel.go:84-107 | Every operation, at the grain of the locks, keeps: each accepted id is in exactly one slot of one wheel, or in the hands of a tick. |
| WheelTiming.AheadOfDelay | jtimer/timewheel.go:84-88 | A slot chosen for a delay lies as many pointer steps ahead as whole intervals fit, minus whole turns of the dial. |
| WheelTiming.OpKeepsTime | jtimer/timewheel.go:147-166 | Every operation keeps the time invariant: a timer k slots ahead is not due before k intervals after the last tick, and nothing is overdue by more than the slack of its entry wheel plus one poll gap. |
| WheelTiming.CountedKept | jtimer/timewheel.go:195-213 | Every operation keeps the account of firings done, left and lost. |
| WheelTiming.ScansKept | jtimer/timescheduler.go:91-99 | Every operation, a poll being one step, keeps: a removal scan under way, among any number of them, has left its timer in no wheel it has passed when the timer had no firing left to renew or repeats at most 59.999 s apart, because such timers only move down and a cascade holds the upper lock. |
| WheelTheorems.EntrySlack | jtimer/timewheel.go:81-107 | A timer gets no slack when its delay is under a minute, a minute when under an hour, else an hour, for any number of turns of the hour wheel. |
| WheelTheorems.FiredOnTime | jtimer/timewheel.go:147-217 | Timeliness over every run: each firing comes later than 100 ms before its due time, and no later than due or acceptance time plus slack plus poll gap. |
| WheelTheorems.PendingNotOverdue | jtimer/timewheel.go:147-217 | No accepted timer still waits once that bound has passed. |
| WheelTheorems.TimersConserved | jtimer/timewheel.go:84-107 | Over every run an accepted id is in exactly one place until it is used up or removed, and all its firings are accounted for. |
| WheelTheorems.FiresExactly | jtimer/timewheel.go:200-211 | A timer made for n firings, with n at most one or an interval of at least 100 ms, that was never removed and has left the wheels has fired exactly max(1, n) times. |
| WheelTheorems.CloseRepetitionsAreLost | jtimer/timewheel.go:195-213 | For every other repetition there is a run in which one poll uses up two firings and reports one: the condition above is exact. |
| WheelRepeats.NextFiringInTime | jtimer/timewheel.go:204-208 | Repetition over every run: of a timer whose repetitions are at least 100 ms apart, the firing that follows one at time a comes at b with a + I - 100 < b <= a + I + 1 + slack + poll gap, I being the interval in ms and the slack that of the wheel which the delay chooses; its due time lies one interval, rounded down or up, after a. |
| WheelRepeats.CountIsShown | jtimer/timewheel.go:195-213 | Such a timer has triggered exactly as often as its account says: the firings counted are those that the timing results speak of. |
| WheelTheorems.RemovedForGood | jtimer/timescheduler.go:91-99 | With a poll as one step: once a removal scan has passed all three wheels, a timer that had no repetition left when the scan began, or whose interval is at most 59.999 s, is in no wheel and never fires again, under any interleaving of ticks, polls, additions and other removals between the three steps. |
| WheelTheorems.RepetitionEscapesRemoval | jtimer/timewheel.go:204-209 | For every other timer, of any longer interval and any number of repetitions from two on, there is a run in which it survives a completed scan, because the poll re-adds it above the wheel the scan has reached: the condition above is exact as long as no poll is between its two lock sections. |
| WheelTheorems.ScanInsidePoll | jtimer/timewheel.go:204-209 | What the unlock inside the poll adds: a scan that passes while the poll has given up the leaf's lock has no effect at all, so that exactly the timers with a repetition left, whatever their interval, are in the wheels afterwards. |
| WheelProgress.WorkEnds | jtimer/timewheel.go:147-217 | Deadlock freedom: from every state of the invariant, whatever ticks are under way, finitely many ticks and one poll lead to a state in which the clock can advance. |
| WheelProgress.TimeGoesOn | jtimer/timewheel.go:147-217 | Every run goes on to a later instant, so the time bounds are not met by standing still. |
| RpcSafety.StepKeepsInv | jrpc/rpcclient.go:93-324 | Every step of issuing, answering, expiring, collecting and releasing keeps the invariant that ties pending numbers, call objects, done channels, the pool and the histories. |
| RpcSafety.RespondCompletes | jrpc/rpcclient.go:131-153 | An answer to a pending number completes exactly that call and touches nothing else. |
| RpcSafety.ExpireCompletes | jrpc/rpcclient.go:305-324 | So does a timeout, although it removes the number it finds in the call. |
| RpcSafety.StaleTimerKeeps | jrpc/rpcclient.go:262-270 | The timer of a finished call, never cancelled because its id is dropped, does no harm. |
| RpcTheorems.RunsAreSafe | memorypool/mempool.go:73-109 | In every run no `Get` finds a call in use and no `Put` one that is free, every completion finds its done channel empty, and every waiting caller receives its own call. |
| RpcTheorems.EarlyAnswerFreesTwice | jrpc/rpcclient.go:194-199 | What the promise about peers excludes, in every reachable state: an answer to an asynchronous call that is handled before its `WriteMsg` fails makes the handler release the call, and the second release, by `AsyncCall`, then panics. |
| RpcTheorems.EarlyAnswerEndsTwice | jrpc/rpcclient.go:234-239 | The same for a synchronous call: it is completed twice, by the answer and by the failed write. |
| RpcTheorems.EarlyReadFillsPooledCall | jrpc/rpchandler.go:258-269 | What completing in one step excludes: a synchronous caller that tests the error between the reader's setting it and its signal releases the call exactly when there is an error, and the late signal then fills the done channel of a pooled call; without an error the order makes no difference. Timeouts, which always set an error, likewise. |
| RpcTheorems.ExactlyOneCompletion | jrpc/rpcclient.go:131-153 | In every state of every run a registered call is pending without completion and with a live timer, or not pending with exactly one completion; its caller was told that one or nothing yet. |
| RpcTheorems.HistoryGrows | jrpc/rpcclient.go:277-303 | Completions and what callers were told only ever grow, and a finished number never becomes pending again. |
| RpcTheorems.LateEventsAreIgnored | jrpc/rpcclient.go:305-312 | Answers and timers for finished calls change nothing, whatever call the recycled object serves by then. |
| RpcTheorems.CompletionTouchesOnlyOwn | jrpc/rpcclient.go:131-153 | A completion changes the record of no other call object, and the reply variable and history of no other call. |
| RpcTheorems.AnswerIsRecorded | jrpc/rpcclient.go:134-147 | A completion by an answer records, case by case: a decoded value as that value, an empty body as none, a malformed one as what it left behind if anything; and as error the peer's if it sent one, else an undecodable reply exactly for a malformed body, else none. |
| RpcTheorems.FailureIsRecorded | jrpc/rpcclient.go:305-324 | A call that stops being pending was answered, timed out or not written; the last two record their own error and leave the reply variable alone. |
| RpcTheorems.ReleasedIsTold | jrpc/rpchandler.go:62-79 | No step releases a registered call, unless it was lost, before its caller has been told its one completion. |
| RpcTheorems.NoLostWakeup | jrpc/rpchandler.go:261-269 | A caller blocked on a call that is over can always go on, and is told exactly the one outcome. |
| RpcTheorems.SingleOwnership | memorypool/mempool.go:73-109 | A call object is checked out or pooled, never both, pooled at most once and then blank, and never with two owners. |
| RpcTheorems.OnlyRoughStepsLose | jrpc/rpchandler.go:62-79 | A call object is lost to the pool only after a handler channel was full or a callback panicked. |
| RpcTheorems.RoughStepsLose | jrpc/rpchandler.go:62-79 | And each such step loses its call: it is in no pool and in nobody's hands from then on, in every later state of the run. |
| RpcProgress.AnyAnswerCanReachItsCaller | jrpc/rpcclient.go:131-153 | From every state of every run, a pending call can be written, answered with any value and told to its caller in at most four steps: it learns that value and no error, and the call is released. |
| RpcProgress.CallsCanBeMade | jrpc/rpcclient.go:162-241 | In every state any client can register a call, synchronous or with a callback. |
| RpcClients.Call.Clear | jrpc/rpc.go:116-130 | Clearing resets all but the in-use mark; a filled done channel is replaced by an empty one. |
| RpcClients.Call.Done | jrpc/rpc.go:148-150 | A receive takes the one finished call out of the done channel. |
| RpcClients.PoolEx.Get | memorypool/mempool.go:73-91 | The oldest buffered call, else a spare or new one, marked as used; on a pool in order it never panics. |
| RpcClients.PoolEx.Put | memorypool/mempool.go:95-109 | Panics exactly for a call that is not in use; else the call is cleared and kept, in the buffer while that holds fewer than 10,240. |
| RpcClients.RpcClient.GenerateSeq | jrpc/rpcclient.go:301-303 | A number never given out before. |
| RpcClients.RpcClient.AddPending | jrpc/rpcclient.go:262-270 | The call is pending under its number and one timer is scheduled, whose id nobody remembers. |
| RpcClients.RpcClient.RemoveLocked | jrpc/rpcclient.go:288-299 | The number is no longer pending; its timer goes only if its id was remembered. |
| RpcClients.RpcClient.RemovePending | jrpc/rpcclient.go:277-286 | The same under the lock; as ids are never remembered, all timers stay. |
| RpcClients.RpcClient.HandleRpcCallTimeout | jrpc/rpcclient.go:305-324 | Nothing for an unknown number; else the call gets the timeout error and no other change, is no longer pending and goes to its handler or done channel, and would block only on a full one. |
| RpcClients.RpcClient.Respond | jrpc/rpcclient.go:131-153 | The same for an answer: a decoded value goes into the caller's variable, a malformed one leaves what it had decoded, an empty one nothing; the error is the peer's if it sent one, else that of a malformed body, else none. |
| RpcClients.RpcClient.AsyncCall | jrpc/rpcclient.go:162-203 | For every way encoding, connection and write can go: what is registered, what is given back to the pool, which error is returned. |
| RpcClients.RpcClient.RawGo | jrpc/rpcclient.go:208-241 | The same for the synchronous form, whose failures are returned inside the call. |
| Deadlines.ActionOk | jrpc/rpcclient.go:262-270 | Every action of scheduler and calls together keeps: the timer of every live timeout waits in the wheels, due 15 s after registration and without slack, or has been triggered in time. |
| Deadlines.CompletedInTime | jrpc/rpcclient.go:305-324 | Over every run, a call that is still pending was registered at most 15 s and one poll gap ago. |
| Deadlines.NoEarlyTimeout | jrpc/rpcclient.go:268-268 | No timeout completes a call more than 100 ms before its 15 s are over. |
| DeadlineProgress.SystemGoesOn | jrpc/rpcclient.go:262-270 | Wheels and calls together go on to a later instant from every state of the invariant: writes end, ticks and a poll take place, triggered timeouts are handled. |
| ClusterSpec.UnlistedAllMeaning | cluster/cluster.go:300-310 | Taking a list of services of a remote node out of the index removes exactly these entries and leaves no empty set. |
| ClusterSpec.ListedAllMeaning | cluster/cluster.go:224-238 | Listing a node for some services, even repeated ones, adds exactly these entries. |
| ClusterSpec.StartedMeaning | cluster/loadconfig.go:201-211 | A new process knows itself only and is listed for exactly its own services. |
| ClusterSpec.WithNodeMeaning | cluster/cluster.go:208-255 | Setting a node stores it as given, lists it for what it publishes and no longer for what its old service list named, keeps its client if it has one, and changes no other entry. |
| ClusterSpec.WithoutNodeMeaning | cluster/cluster.go:158-202 | Deleting takes the node, its client and the entries of its service list away, and nothing else, exactly when it is known, neither local nor master nor 0, and to go at once or not connected. |
| ClusterSpec.WithLocalServiceMeaning | cluster/cluster.go:283-293 | A further local service is in the service list, among the published ones exactly when public, and in the index. |
| ClusterSpec.StartedIndexed | cluster/loadconfig.go:201-211 | The index is right when a process starts. |
| ClusterSpec.SetKeepsIndexed | cluster/cluster.go:208-255 | Setting a node, new or known, keeps the index right. |
| ClusterSpec.DelKeepsIndexed | cluster/cluster.go:158-202 | Deleting a node, at once or only when it is not connected, keeps it right. |
| ClusterSpec.AppendKeepsIndexed | cluster/cluster.go:283-293 | So does a further local service. |
| ClusterSpec.SetThenDelete | cluster/cluster.go:191-196 | Setting and deleting a node leaves no trace in the index exactly when its service list covers what it publishes, since only listed services are cleaned up. |
| ClusterSpec.ReachableIndexed | cluster/cluster.go:158-255 | In every reachable cluster a remote node is indexed for a service exactly when it is known and publishes it, no set is empty, known nodes and clients have the same ids, the local services stay, and nothing stored is marked as discarded. |
| Clusters.Cluster.constructor | cluster/loadconfig.go:201-211 | The local node with its services, and its client. |
| Clusters.Cluster.DelServiceNode | cluster/cluster.go:300-310 | One entry out of the index; the set goes when it is empty, and the local node is never taken out. |
| Clusters.Cluster.GetMasterDiscoveryNodeInfo | cluster/cluster.go:136-143 | Finds a master exactly when one is configured with that id. |
| Clusters.Cluster.DelNodeInfo | cluster/cluster.go:158-202 | Deletes exactly when the node is known, neither local nor master, and to go at once or not connected; the client is closed exactly then. The discard mark is not stored. |
| Clusters.Cluster.SetNodeInfo | cluster/cluster.go:208-255 | The new index, node and, for a node without one, a new client; duplicate services change nothing. |
| Clusters.Cluster.AppendService | cluster/cluster.go:283-293 | The local node gets and is indexed for one more service. |
| Clusters.Cluster.DiscardNode | cluster/cluster.go:340-345 | Deletes only a node stored with the discard mark. |
| Clusters.Cluster.GetNodeIdByService | cluster/cluster.go:438-458 | Routing: fills in exactly min(length, number of nodes that can be asked) pairwise different clients, each of a node listed for the service and connected unless all are asked for, and leaves none out while there is room; panics exactly when there are more of them than the list is long and its capacity is larger, or its length zero. |
| Clusters.EveryListedNodeIsCandidate | cluster/cluster.go:438-458 | With a right index and all nodes asked for, these are exactly the nodes listed for the service. |
| DiscoverySpec.OthersMeaning | cluster/dynamicdiscovery.go:97-102 | The removal keeps exactly the entries of other nodes. |
| DiscoverySpec.AddAgrees | cluster/dynamicdiscovery.go:74-83 | Registration flags and registry list keep naming the same nodes when one is added. |
| DiscoverySpec.RemoveAgrees | cluster/dynamicdiscovery.go:89-104 | And when one is removed. |
| DiscoverySpec.GatheredIsNoticed | cluster/dynamicdiscovery.go:316-342 | The gathered entries belong exactly to the nodes that pass the filter, duplicates merged. |
| DiscoverySpec.PickedMeaning | cluster/dynamicdiscovery.go:406-417 | Of a service list exactly the services of interest are left. |
| DiscoveryMeaning.WantedMeaning | cluster/dynamicdiscovery.go:405-417 | A service of a node is kept exactly when no interests are configured or it is one of them. |
| DiscoveryMeaning.MessageMeaning | cluster/dynamicdiscovery.go:315-375 | A message in the words of its entries: a node is claimed afterwards exactly when the message mentions it, or it was claimed and is neither withdrawn nor missing from a full list. A node with an offered service of interest is known with exactly these services and the address of its first entry; one that nobody claims any more goes unless it is local, a master or connected; every other one stays as it was. |
| DiscoverySpec.MastersSetLast | cluster/dynamicdiscovery.go:229-237 | Each configured master but the local node is known, as it was configured last. |
| DiscoverySpec.GivenUpIsLeft | cluster/dynamicdiscovery.go:357-365 | Giving up claims one by one, and deleting nodes nobody claims any more, has the same result in any order. |
| Discoveries.DynamicDiscoveryMaster.AddNodeInfo | cluster/dynamicdiscovery.go:74-83 | A node with public services is flagged and appended, any other ignored. |
| Discoveries.DynamicDiscoveryMaster.RemoveNodeInfo | cluster/dynamicdiscovery.go:89-104 | The in-place loop removes every entry of the node, also adjacent ones, and keeps the others in order. |
| Discoveries.DynamicDiscoveryMaster.RpcBroadCastGo | cluster/dynamicdiscovery.go:196-202 | The message goes to every registered node exactly once. |
| Discoveries.DynamicDiscoveryMaster.OnNodeConnected | cluster/dynamicdiscovery.go:123-135 | A registered node is sent the full list, any other nothing. |
| Discoveries.DynamicDiscoveryMaster.OnNodeDisconnect | cluster/dynamicdiscovery.go:141-156 | The deletion goes to all nodes registered before, then the node leaves registry and cluster. |
| Discoveries.DynamicDiscoveryMaster.RegServiceDiscover | cluster/dynamicdiscovery.go:159-191 | An error for a request without node info; else the news goes to the nodes registered before, then the node is stored, deleted from the cluster and set anew with exactly the services and the address of the request. |
| Discoveries.DynamicDiscoveryClient.AddDiscoveryMaster | cluster/dynamicdiscovery.go:229-237 | All configured masters but the local node become known as last configured, and nothing else changes; the index stays right when their service lists cover what they publish. |
| Discoveries.DynamicDiscoveryClient.FindNodeId | cluster/dynamicdiscovery.go:273-281 | True exactly when some master's claims contain the node. |
| Discoveries.DynamicDiscoveryClient.Gather | cluster/dynamicdiscovery.go:316-342 | The loops build exactly the gathered entries. |
| Discoveries.DynamicDiscoveryClient.FullCompareDiffNode | cluster/dynamicdiscovery.go:377-398 | Exactly the claimed nodes that the list does not mention. |
| Discoveries.DynamicDiscoveryClient.SetNodeInfo | cluster/dynamicdiscovery.go:400-431 | A node with a service of interest, or any service when no interests are configured, is set with exactly these and its address; nothing changes for the local node, a private one, or one without such services. |
| Discoveries.DynamicDiscoveryClient.GiveUp | cluster/dynamicdiscovery.go:357-365 | Claims and known nodes after the deletion loop, and an index that is still right. |
| Discoveries.DynamicDiscoveryClient.SubServiceDiscover | cluster/dynamicdiscovery.go:315-375 | Claims and known nodes after any message, full or not, are exactly those that its entries call for, so those of other masters stay, and the index stays right. |
| Discoveries.DynamicDiscoveryClient.OnNodeDisconnect | cluster/dynamicdiscovery.go:309-312 | In a right cluster a disconnect deletes nothing, as no stored node is marked. |
| DiscoveryNet.EventOk | cluster/dynamicdiscovery.go:123-202 | Every registration, connect, disconnect, restart, loss and delivery among any number of masters and nodes keeps: what a synced node will claim once its queue is empty is what it notices of its master's registry. |
| DiscoveryNet.Converges | cluster/dynamicdiscovery.go:315-398 | Convergence over every run: a node that was sent a full list on its present connection ends with exactly the registered nodes that pass its filter. |
| DiscoveryNet.TwoNodesAgree | cluster/dynamicdiscovery.go:315-398 | Two such nodes with nothing under way agree on every third node. |
| DiscoveryNet.ClientFollows | cluster/dynamicdiscovery.go:315-375 | Every event of the network changes the claims on the links to a node exactly as its client, which computes them from the delivered messages, changes its own. |
| DiscoveryNet.ClientConverges | cluster/dynamicdiscovery.go:315-375 | Convergence for what `SubServiceDiscover` computes: over every run, once nothing is under way on a synced link, the client's claims are exactly the registered nodes that it notices. |
| DiscoveryProgress.ConnectingConverges | cluster/dynamicdiscovery.go:123-135 | From every state of every run, a master's connection to a node registered with it, and the delivery of what is then on the link, leave the node with claims on exactly the registered nodes that pass its filter, the filter written out. |
| DiscoveryNet.LateRegistrationIsLeftBehind | cluster/dynamicdiscovery.go:185-188 | Being registered alone is not enough: a configured master that registers after its connection came up is never sent the nodes registered before it. |
| DiscoveryNet.RegistrationSendsNothing | cluster/dynamicdiscovery.go:185-188 | What such a registration brings: exactly what the node lacked of the registry before it still lacks, because the news goes only to those registered before. |
| DiscoveryNet.MissingStays | cluster/dynamicdiscovery.go:123-202 | And it lacks each of these nodes until the master connects to it again, the link is lost, one of the two restarts, or the missing node itself registers anew or disconnects. |
| ClaimSoundness.AlwaysSound | cluster/dynamicdiscovery.go:273-281 | After any sequence of messages every known node is local, a configured master, claimed by some master, or had its deletion put off because it was connected (id 0 apart, which is never deleted). |
| ClaimSoundness.OnlyUnclaimedDisappear | cluster/cluster.go:158-202 | A node that disappears was dropped by the message, was claimed by no other master, was not connected and is neither local nor a master. |
| ClaimSoundness.PutOffStays | cluster/cluster.go:182-187 | A node whose deletion was put off stays over any sequence of events, also when its connection goes down, until a message drops it, and stays put off until one lists it. |
| ConnMachine.StepConserves | jnet/tcpconn.go:49-68 | Every step keeps the balance of buffers given, queued, in the writer's hand and released. |
| ConnMachine.StepKeepsWire | jnet/tcpconn.go:49-68 | Every step keeps: what is out is a front part of what was accepted. |
| ConnMachine.ReleasedExactlyOnce | jnet/tcpconn.go:77-86 | Once the writer has finished, every buffer given to `Write` has been released exactly once, and nil buffers only for nil writes and for closes on a full queue, under every interleaving. |
| ConnMachine.ChannelIsSafe | jnet/tcpconn.go:167-200 | In every run the channel is closed at most once and never sent to afterwards, and a sender under the lock never waits. |
| ConnMachine.CutForGood | jnet/tcpconn.go:139-200 | Over every run: after a destroy, after a write or close that found 1024 buffers queued, and after the writer has left, the socket is closed and stays so, every later write to it fails, and no further buffer is sent in full, whatever is still queued. |
| ConnMachine.PeerReadsPrefix | jnet/tcpconn.go:49-60 | Wherever the writer stops, even within a frame, the peer reads exactly the accepted messages that arrived in full, in order and unchanged, up to the first one whose length it refuses. |
| ConnMachine.GracefulCloseDeliversAll | jnet/tcpconn.go:149-158 | Once the writer has finished and no write has failed, the peer reads all messages that were ever accepted, as far as it does not refuse one. |
| ConnProgress.WriterCanFinish | jnet/tcpconn.go:49-68 | From every state of every run the writer can come to its end without further writes, all buffers being released then; if the socket was open and no write had failed, everything accepted is out. |
| BufferSharing.ActKeepsOk | jnet/tcpconn.go:77-86 | Every step of any number of connections on one slice pool, of readers and of the pool keeps: no buffer is in two hands, and what a connection releases the pool does not hold. |
| BufferSharing.NeverShared | jnet/tcpconn.go:77-86 | Over every run no buffer is at once queued or in a writer's hand, lent to the reader of a message, or pooled; every release meets the condition under which the pools stay in order; and nil reaches the pool exactly when some connection was given a nil buffer or closed with its queue full. |
| BufferSharing.ReleasedIsPooled | jnet/tcpconn.go:62-63 | Over every run a buffer that a connection lets go, queued, in the writer's hand or refused at once, is in the pool in the next state, and so is the buffer of a message that is done with. |
| BufferSharing.ConnectionsGoOn | jnet/tcpmsgparser.go:53-114 | In every state a frame can be built for any connection, a message be read, and each connection take every step it could take alone. |
| TcpConns.TcpConn.Write | jnet/tcpconn.go:77-86 | Queued while the connection is open and fewer than 1024 are, else released with an error; a full queue destroys the connection, so that its socket is closed. |
| TcpConns.TcpConn.Close | jnet/tcpconn.go:149-158 | A nil buffer behind all that is queued, or a destroyed connection with its socket closed when 1024 are queued. |
| TcpConns.TcpConn.Destroy | jnet/tcpconn.go:139-144 | Socket closed, connection marked closed, and the channel closed unless it was before; the queue stays. |
| TcpConns.TcpConn.FreeChannel | jnet/tcpconn.go:181-188 | Everything queued is released in order, nil buffers skipped. |
| Framing.Uint32RoundTrip | jnet/tcpmsgparser.go:63-71 | Four bytes, in either order, give back the number, and the number the bytes; little endian, the first byte is the lowest, big endian the last. |
| Framing.FrameRoundTrip | jnet/tcpmsgparser.go:83-114 | Whatever follows a frame, its reader gets the message and exactly the rest, or refuses its length. |
| Framing.FrameBytes | jnet/tcpmsgparser.go:53-71 | The bytes of a frame one by one: length and number as sums of four bytes in the order asked for, the protocol in the ninth, then the body. |
| Framing.DecodedBytes | jnet/tcpmsgparser.go:83-114 | What a reader makes of any bytes, by the same sums: a length out of the limits is refused, else exactly the body of that length, the number and the protocol are returned. |
| Framing.PartOfFrame | jnet/tcpmsgparser.go:86-111 | No part of a frame gives a message. |
| Framing.PrefixDecodes | jnet/tcpmsgparser.go:83-114 | Reading any front part of the frames of any messages gives exactly those that are complete in it, up to the first one whose length the reader refuses. |
| Framing.WholeMeaning | jnet/tcpmsgparser.go:83-114 | The messages complete in n bytes fit in them, and one more would not. |
| Framing.AllDecode | jnet/tcpmsgparser.go:53-114 | Reading all frames gives all messages up to the first one that is refused. |
| TcpConns.MsgParser.WriteMsg | jnet/tcpmsgparser.go:53-76 | Refuses exactly the lengths outside the limits; panics exactly when length plus head exceeds 32 bits; else the connection gets one buffer that holds exactly the frame, its head byte by byte in the parser's order, and that the pool does not hold; its verdict is not reported. |
| TcpConns.MsgParser.ReadMsg | jnet/tcpmsgparser.go:83-114 | One read is exactly one step of decoding the bytes of the socket, with length and number read in the parser's byte order; the body comes in a slice of the pool, which has it back when the read fails and stays in order. |
| Arithmetic.GoDivMeaning | memorypool/slicepool.go:104-111 | Division truncates towards zero: what is left over is less than the divisor and has the sign of the dividend. |
| SlicePools.PosFits | memorypool/slicepool.go:104-111 | A class is found exactly for the sizes up to the last class and those less than one growth below the first size, such as zero, where the division truncates; it is the first one large enough, and less than one growth of the area is beyond the last. |
| SlicePools.MsgAreas | jnet/tcpmsgparser.go:23-27 | The three areas in use follow each other without gaps and consist of whole classes, as the pools require. |
| SlicePools.MsgClasses | jnet/tcpmsgparser.go:23-27 | The classes in use: 8 multiples of 512, 9 steps of 4096 from there on, and 23 of 16384. |
| SlicePools.SlicePool.constructor | memorypool/slicepool.go:43-60 | One empty bucket per class that fits the area. |
| SlicePools.SlicePool.MakeByteSlice | memorypool/slicepool.go:94-102 | For a size with a class, a slice of that length whose buffer has the capacity of the class and is no longer held; nil or a panic for others, and which. |
| SlicePools.SlicePool.ReleaseByteSlice | memorypool/slicepool.go:113-120 | Panics exactly when the capacity has no class; else the slice goes to one bucket, and the pool is in order afterwards exactly when the capacity is that of a class and the buffer was not held already. |
| SlicePools.SlicePoolList.MakeByteSlice | memorypool/slicepool.go:66-76 | A slice of length n for every n, from a pool up to the largest area and newly made beyond; its buffer is new or was held, and is held no longer, so no two owners share one. |
| SlicePools.SlicePoolList.ReleaseByteSlice | memorypool/slicepool.go:82-91 | Never panics; larger slices are dropped and others kept; the pools stay in order exactly when the slice is larger than all areas, or has the capacity of a class and was not held already, so not for nil. |
| TreeSpec.BelowSplits | service/module.go:86-89 | A subtree is its top and the disjoint subtrees of its kids. |
| TreeSpec.AllUnderRoot | service/module.go:134-140 | Every descendant is reached from the root by child links. |
| Modules.Module.NewModuleId | service/module.go:31-34 | The next number of the root. |
| Modules.Module.AddModule | service/module.go:41-76 | For any module to add: the error cases, its id, and that it becomes a kid of this one and a descendant of the root under that id. |
| Modules.Module.AddToTree | service/module.go:41-76 | The modules form a tree afterwards, the grown one, exactly when the id is new to it and the added module has no kids and is not the root; the code checks none of this beyond the siblings. |
| Modules.Module.ReleaseModule | service/module.go:83-106 | The recursion, called through any module, ends. It panics exactly for an unknown id, for a module without ancestor, and for a module strictly above the calling one, which then has been cleared midway; else exactly the subtree leaves the descendants of the root and the kids of the calling module, and every module of it is cleared. |
| Modules.Module.ReleaseSubtree | service/module.go:83-106 | The rest is the pruned tree when the releasing module is the parent, and no tree at all otherwise, also when a module releases itself or one above it. |
| Modules.ReleaseElsewhereBreaksTree | service/module.go:95-96 | Releasing through another module leaves the parent with a kid that is no descendant any more. |

## Left out

- TimeWheels.TimeWheel.GetTimerWithIn: one change of all wheels, without the moments in which the source gives up the leaf's lock; of what can come in between only removals are described, by `ScanInsidePoll`.
- WheelTiming.ScansKept: for polls as one step.
- WheelTheorems.RemovedForGood: for polls as one step.
- RpcTheorems.RunsAreSafe: for completions as one step.
- RpcTheorems.SingleOwnership: for completions as one step.
- SlicePools.SlicePool.MakeByteSlice: `sync.Pool` may drop what it holds at any time; the model reuses any held buffer or makes a new one.
- TcpConns.TcpConn.Write: the releases of a connection are recorded in order and not passed on to the slice pool, so that a nil release does not stop the model; `SlicePoolList.ReleaseByteSlice` says what each release does, and `BufferSharing` puts the machine of the connections and the pool together.
- RpcClients.RpcClient.AsyncCall: the pool of request objects is not modelled; its objects never outlive the call.
- RpcClients.RpcClient.RawGo: the pool of request objects is not modelled; its objects never outlive the call.
- Local-node calls and the server side (jrpc/rpcserver.go): another completion path, which re-reads the number of a recycled call.
- Convergence is on node ids; per-node service lists in the known nodes are stated for one message at a time.
- Event publishers and listeners (event/event.go): bookkeeping of two mirrored maps, which releasing a module also clears.
- User callbacks of modules (`OnInit`, `OnRelease`) other than the failure of `OnInit`.
- Deliveries that a full event channel of a discovery service refuses.
- Sequence numbers of frames: the source's counter only advances on errors, so they are taken as given.
- Sleep drift, real clocks, fairness, sockets, dialling, accepting and reconnecting.
- Reflection dispatch, JSON and protobuf encoding; payloads are opaque.
- Configuration files, logging, console, profiler, utilities and node start-up.
