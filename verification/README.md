# recurse: a verified model of its protocols

recurse is a loopback daemon that runs one Python kernel per target, keeps a registry of child
agents, and delivers events to hosts by replaying them until they are acked. This project models the
protocols between the daemon, its kernels, its clients and the host adapters, and proves what they
keep over whole runs. `dafny verify dfyconfig.toml` checks all of it.

Code that changes state in place is modelled by classes whose methods are proved against functions on
values (`EventQueue`, `Registry`, `State`, `EventStream`, `BoundedSet`, `ListenerTask`, `ChildSpawner`,
`PiChildren`, `RecurseBridge`, `HandleRegistry`, `EventLoop`, `Kernel`, `KernelManager`, `TailBuffer`, `CellResult`).
Where tasks interleave, those functions are the steps of a transition system, and the theorems speak
of every finite run of it.

| component | files |
|---|---|
| the queue, its runs, saving and reloading | `EventQueue`, `QueueRuns` |
| the client subscription and its memory of acked ids | `BoundedSet`, `EventStream`, `StreamRuns` |
| the listener, frames, and delivery end to end | `Listener`, `Frames`, `Delivery`, `DeliveryRuns` |
| the child registry and delegation | `Registry`, `RegistryRuns` |
| what each registry operation changes | `RegistryEffects` |
| event ids, the daemon's updates, message routing, crashes, the two files | `Events`, `Daemon`, `Routing`, `CrashRuns`, `State` |
| what each update does to the queues, and runs of updates | `CoreQueues` |
| the adapters' spawn handlers, their interleavings, the bridge | `Spawner`, `SpawnRuns`, `SpawnOverlaps`, `PiRuns`, `Bridge` |
| the Python kernel: notices and cells, both in terms of the steps of a run, and what interrupts lose | `Notices`, `Cells`, `NoticeRuns`, `CellRuns`, `InterruptRuns` |
| the daemon's kernel handle, slots and calls; which process a call uses, and how many a target has | `KernelHandle`, `KernelSlots`, `KernelReuse`, `KernelRuns`, `KernelTargets` |
| UTF-8, clipping, bounded buffers, cell results | `Utf8`, `RustClip`, `Reason`, `PythonClip`, `CellBounds` |
| event-stream framing and both readers | `Blocks`, `Sse` |
| shared values and sequence facts | `Protocol`, `Wrappers`, `Sequences` |

## Main results

- **Delivery.** At every moment of every run, with dropped connections, throwing handlers, failing
  acks, lagging receivers and daemon restarts, each queued event is in flight at the client, or in
  transit or about to be claimed on the connection in use, or that connection has to be replaced
  (`Delivery.NoEventStuck`); when everything is quiet the queue is empty (`Delivery.QuietMeansDrained`)
  and every event pushed was handled, unless it was withdrawn, acked by somebody else, or dropped by an
  overflow (`DeliveryRuns.QuietMeansHandled`);
  no wakeup is lost (`Delivery.NoLostWakeup`); a withdrawn event reaches nobody
  (`Delivery.WithdrawnNeverDelivered`).
- **Handlers.** One delivery per id at a time, acked only after success, and repeated on one stream only
  after at least 1024 other ids were acked (`StreamRuns.RerunOnlyBeyondWindow`), because the bounded
  set holds exactly the last distinct values (`Recent.KeptExactly`).
- **Queue operations of the daemon.** On every core, what a withdrawal, an ack, a hand-out and every
  enqueuing request answer and leave in each queue (`CoreQueues.WithdrawExactly`, `CoreQueues.AckExactly`,
  `CoreQueues.HandOutExactly`, `CoreQueues.EnqueueExactly`); over every run a withdrawal is answered yes
  exactly for a queued event no listener was handed (`CoreQueues.WithdrawAnswersExactly`).
- **Crash-safe identity.** With the registry file written before the events file, a crash at any point
  leaves files that agree (`CrashRuns.FilesAgree`) and no message id is ever issued twice
  (`CrashRuns.MessageIdsNeverReused`), up to the exact bound of the counter.
- **Routing.** Messages follow delegation edges, and an answer in either direction reaches the sender
  (`Routing.AnswerReachesChild`, `Routing.AnswerReachesParent`).
- **Registry operations.** Each is accepted exactly under stated conditions and changes exactly one child
  or record; a deleted child frees its name and place, and nothing leads to it any more
  (`RegistryEffects.DeleteExactly`, `RegistryEffects.DeletedIsGone`, `RegistryEffects.BindExactly`,
  `RegistryEffects.AdmitExactly`).
- **Delegation.** A forest with owners before children, exact depths, and a geometric bound on live
  descendants (`RegistryRuns.DelegationIsForest`, `RegistryRuns.DescendantsBounded`).
- **Spawn handlers.** All handlers interleave at every await, and every call may fail before or after
  its effect. In every run an acked event leaves a child that is never pending again and all first
  prompts go to the one session the daemon bound (`SpawnRuns.ReturnsSettled`). OpenCode's handler makes
  at most one returned session and confirms at most one first prompt per child unless a delivery
  overlaps (`SpawnRuns.SpawnsOnce`), and which deliveries can double either is stated as an if and only
  if (`SpawnOverlaps.OverlapExactly`); sessions and prompts beyond those are exactly the lost replies
  (`SpawnRuns.ExtraEffectsExactly`). A child whose bind was confirmed has its first prompt when an event
  is acked, unless it was deleted (`SpawnRuns.ReturnedMeansPrompted`); when that fails is exact
  (`SpawnRuns.PromptLostExactly`). Pi's handler leaves at most one open session and starts one first
  run however deliveries overlap (`PiRuns.SpawnsSafely`, `PiRuns.OneSessionOpen`).
- **Cells and notices.** Exactly one result per execute wherever interrupts land
  (`Cells.ExactlyOneResult`); at most one notice and one withdrawal per handle; an unread finish is
  announced exactly if its watcher reached its report, and a notice that was read is withdrawn exactly
  unless an interrupt cut that withdrawal (`Cells.UnreadFinishAnnounced`, `Cells.WithdrawnOnce`).
  What the marks of a handle stand for, and with that each of these, is stated by the steps of the run
  alone (`NoticeRuns.HistoryMeaning`, `NoticeRuns.FinishAnnouncedExactly`,
  `NoticeRuns.WithdrawnByHistory`); a cell runs exactly if no interrupt came before its first step
  (`CellRuns.RunsExactly`).
- **Kernel calls.** One pending cell per kernel, no call waiting on a dead kernel, no crossed result,
  one exit notice per process (`KernelSlots.OnePendingCell`, `KernelSlots.NoHungWaiter`,
  `KernelSlots.ResultNotCrossed`, `KernelSlots.OneExitPerProcess`). Calls of one target share a process
  unless it is restarted, shut down or exits (`KernelRuns.SameProcess`), a process is launched only by a
  call that found none ready (`KernelRuns.EveryProcessWasNeeded`), and a target has one live process that
  nobody stopped, unless a shutdown strands a call, which is exact (`KernelTargets.OneWantedPerTarget`,
  `KernelTargets.StrandedExactly`).
- **Text.** Clippers keep the longest valid part that fits; the bounded buffer agrees with the unbounded
  one exactly for limits above 80; the daemon's bound is the identity on what the kernel sends.
- **Framing.** Frames are as few as possible, and printing them, splitting the bytes anywhere and
  reading them back gives the same events in the same order, in both clients
  (`Frames.CutIsShortest`, `Sse.EventsArriveInOrder`).

Some promises hold only under a condition, which is proved exact or shown to be needed:

- message numbering: the counter is below 2^64 - 1 (`CrashRuns.NumberingStopsAtMaximum`);
- uniqueness of child ids: some candidate id is unused (`RegistryRuns.IdCollisionExactly`);
- agreement of the bounded buffer: its limit is above 80 (`PythonClip.BufferRefinesExactly`);
- text clipped by the daemon respects its limit exactly if it did before or the limit has room for the
  marker (`RustClip.TailClipWithinLimitExactly`);
- no unread finish is forgotten: no interrupt of the running cell hit the last block of that handle's
  watcher. The kernel raises an interrupt inside any task of the running cell, and the watcher of a
  handle is one; `InterruptRuns.FinishLost` is a run that loses a finish for ever;
- every read withdraws its notice: no interrupt hit that read, or the first step of the task it created;
  `InterruptRuns.WithdrawalLost` is a run that loses the withdrawal;
- one returned session per child under OpenCode: its event is not delivered while the child is pending
  and an earlier handler has neither bound it nor given up. A session that the bridge evicts and
  subscribes again while its spawn handler waits gets such a delivery (`SpawnOverlaps.OverlapMakesTwo`);
- one confirmed first prompt: besides, it is not delivered while the child is bound, its prompt still
  open, and an earlier handler may send it (`SpawnOverlaps.OverlapPromptsTwice`). Both conditions are
  exact (`SpawnOverlaps.OverlapExactly`), and the serial chain of one stream keeps them
  (`SpawnRuns.SerialNeverOverlaps`);
- a first prompt before the ack: under OpenCode the event of a child whose bind was confirmed is acked
  without one if the child was deleted (`SpawnOverlaps.DeletedUnprompted`), or if the confirmation came after
  another handler had returned (`SpawnOverlaps.OverlapLosesPrompt`); the latter is exact
  (`SpawnRuns.PromptLostExactly`);
- one process per target: no shutdown of the target forgets its slot while a call there has yet to launch.
  Such a call, as when a child is deleted just when its session starts a cell, launches in the forgotten
  slot; the next call for the target launches a second process, and no restart or shutdown reaches the
  first. After a run without such a shutdown, one leads to two processes if and only if it strands a call
  (`KernelTargets.StrandedExactly`, `KernelTargets.StrandingHappens`);
- one session made, returned or not: besides, no creation lost its reply
  (`SpawnOverlaps.LostReplyMakesTwo`).

## Model

| member | source | states |
|---|---|---|
| Protocol.KeyInjective | crates/protocol/src/target.rs:47-49 | two targets share a key only if they are the same target, although ids may hold colons |
| Queue.PushToMeaning | crates/daemon/src/queue.rs:49-72 | what one push leaves: unchanged for a queued id; else appended, and over 256 the oldest non-actionable event goes, or the oldest of all when every one is actionable |
| Queue.TrimSubsequence | crates/daemon/src/queue.rs:62-69 | trimming only removes, keeps order, and ends within the bound |
| Queue.WithdrawMeaning | crates/daemon/src/queue.rs:100-114 | a withdrawal succeeds exactly when an undelivered event with the id is queued, and then removes that event alone |
| Queue.EventQueue.FromFile | crates/daemon/src/queue.rs:28-40 | loading files every saved event under its target's key in saved order |
| Queue.EventQueue.ToFile | crates/daemon/src/queue.rs:42-46 | the file lists the queues in ascending order of their keys, and regrouped by key it is the map of queues |
| Queue.SaveAndReload | crates/daemon/src/queue.rs:28-46 | reloading a saved queue gives every target the same events, order and delivered flags |
| Queue.EventQueue.Push | crates/daemon/src/queue.rs:49-72 | the overflow loop leaves the queue that the specification of a push describes, for its target only |
| Queue.EventQueue.List | crates/daemon/src/queue.rs:74-79 | the queued events of one target, oldest first |
| Queue.EventQueue.Ack | crates/daemon/src/queue.rs:81-97 | exactly the named events go, they are counted, and an emptied queue is forgotten |
| Queue.EventQueue.Withdraw | crates/daemon/src/queue.rs:100-114 | answers whether the event could be withdrawn and removes it |
| Queue.EventQueue.HandOut | crates/daemon/src/queue.rs:117-130 | returns the unseen events in order and flags exactly those as delivered |
| QueueRuns.QueueBoundedAndOrdered | crates/daemon/src/queue.rs:49-114 | over every run each queue has at most 256 events with distinct ids and lists them in push order |
| QueueRuns.ActionableLeavesOnly | crates/daemon/src/queue.rs:62-114 | an actionable event leaves only by ack, by withdrawal, or as the oldest of 257 that are all actionable |
| QueueRuns.DeliveredMeansHanded | crates/daemon/src/queue.rs:117-130 | the delivered flag of a queued event is set exactly if a listener was handed it since it was queued; restarts keep that |
| QueueRuns.WithdrawExcludesHandOut | crates/daemon/src/queue.rs:99-130 | at any moment of any run a withdrawal succeeds exactly for a queued event that no listener was handed |
| Recent.KeptExactly | packages/client/src/util.ts:69-92 | the bounded set holds a value exactly if it was added and fewer than `limit` other distinct values were added since |
| Recent.AddToKept | packages/client/src/util.ts:78-87 | one addition on the bounded list equals what the longer history keeps |
| Recent.BoundedSet.Has | packages/client/src/util.ts:74-76 | membership, in terms of the whole history of additions |
| Recent.BoundedSet.Add | packages/client/src/util.ts:78-87 | the eviction loop keeps the set equal to what its history keeps |
| Stream.StepSerial | packages/client/src/subscribe.ts:166-203 | every step keeps at most one delivery per id, waiting or running, and every such id in flight |
| Stream.EventStream.StartConnection | packages/client/src/subscribe.ts:98-131 | a new connection starts with nothing seen |
| Stream.EventStream.OnFrame | packages/client/src/subscribe.ts:166-183 | a frame queues exactly the events not seen, in flight or remembered as acked, in order |
| Stream.EventStream.BeginDelivery | packages/client/src/subscribe.ts:185-189 | the head of the chain is handled unless the subscription is closed |
| Stream.EventStream.OnHandlerThrew | packages/client/src/subscribe.ts:190-197 | a failed handler gives the id up for replay and aborts the connection |
| Stream.EventStream.OnHandlerReturned | packages/client/src/subscribe.ts:199-200 | a returned handler goes on to ack its own event |
| Stream.EventStream.OnAckReturned | packages/client/src/subscribe.ts:200-203 | an id leaves the in-flight set and enters the memory of acked ids in one step |
| StreamRuns.OneDeliveryPerId | packages/client/src/subscribe.ts:176-182 | in every run an id has at most one delivery in flight |
| StreamRuns.AckedOnlyAfterSuccess | packages/client/src/subscribe.ts:185-203 | an id is acked only after its handler returned |
| StreamRuns.AckedBetweenMeaning | packages/client/src/subscribe.ts:200-202 | which ids the daemon acked between two moments |
| StreamRuns.RerunOnlyBeyondWindow | packages/client/src/subscribe.ts:176-202 | between two successful runs of one id on one stream at least 1024 other distinct ids were acked |
| Listener.HandOutMeaning | crates/daemon/src/sse.rs:126-135 | a hand-out returns exactly the queued events outside the claim, in order, and sets only their flags |
| Listener.ClaimsEverything | crates/daemon/src/sse.rs:126-135 | after a hand-out everything queued is claimed, and nothing is claimed that is not queued |
| Listener.FramesForIds | crates/daemon/src/sse.rs:141-149 | the frames of a hand-out carry exactly its events |
| Listener.FramesForExactly | crates/daemon/src/sse.rs:137-149 | nothing new means no frame, but one empty frame for a replay; something new means frames of which none is empty |
| Listener.ListenerTask.Look | crates/daemon/src/sse.rs:115-124 | tells whether some queued event is unclaimed |
| Listener.ListenerTask.HandOut | crates/daemon/src/sse.rs:126-149 | prunes the claim, hands out, extends the claim and cuts frames |
| Frames.Chunk | crates/daemon/src/sse.rs:156-179 | the loop cuts the frames that the greedy specification cuts |
| Frames.CutKeepsEvents | crates/daemon/src/sse.rs:156-179 | the frames joined are the events, in order |
| Frames.CutNonEmpty | crates/daemon/src/sse.rs:156-179 | only the frame for no events at all is empty |
| Frames.CutFits | crates/daemon/src/sse.rs:157-167 | every frame is within the budget or holds a single event |
| Frames.CutIsShortest | crates/daemon/src/sse.rs:156-179 | no order-keeping split into such frames uses fewer frames |
| Delivery.StepKeeps | crates/daemon/src/sse.rs:64-153 | every step of the system keeps the delivery invariant |
| Delivery.NoEventStuck | packages/client/src/subscribe.ts:98-203 | each queued event is in flight, or in transit or to be claimed on the connection in use, or that connection must be replaced |
| Delivery.QuietMeansDrained | packages/client/src/subscribe.ts:98-203 | when the connection is healthy and nothing is on its way, the queue is empty |
| Delivery.NoLostWakeup | crates/daemon/src/sse.rs:86-149 | a live listener with an unclaimed event, in whatever stage, is about to hand out, has a change or lag marker pending, or an update has yet to broadcast |
| Delivery.WithdrawnNeverDelivered | crates/daemon/src/queue.rs:99-130 | from its withdrawal on, an event is in no claim, in transit nowhere, never in flight and never acked |
| DeliveryRuns.QueueStep | crates/daemon/src/queue.rs:49-114 | an event is queued after a step exactly if it was or is pushed, and the step does not ack it, withdraw it undelivered, or overflow the queue with it as the one to go |
| DeliveryRuns.QueuedExactly | crates/daemon/src/queue.rs:49-114 | over every run of the whole system, an event is queued exactly from its push until one of these |
| DeliveryRuns.OnlyPushedEvents | packages/client/src/subscribe.ts:143-203 | over every run, whatever is queued, in transit, waiting or handled is an event that was pushed, unchanged |
| DeliveryRuns.AckingWasHandled | packages/client/src/subscribe.ts:185-203 | over every run, the client acks an event only after its handler returned for it |
| DeliveryRuns.QuietMeansHandled | packages/client/src/subscribe.ts:98-203 | at least once: whenever all is quiet, every event pushed so far had its handler return, unless it was withdrawn undelivered, acked by somebody else, or dropped by an overflow |
| Children.Registry.RegisterTarget | crates/daemon/src/registry.rs:32-52 | a new target is refused at 1024; a known one is replaced |
| Children.Registry.CountLive | crates/daemon/src/registry.rs:88-92 | counts the children of a parent that are not deleted |
| Children.Registry.FreshId | crates/daemon/src/registry.rs:280-287 | the first candidate id that no child has |
| Children.Registry.Refusal | crates/daemon/src/registry.rs:153-187 | which admission check refuses, in the order of the checks |
| Children.Registry.AdmitChild | crates/daemon/src/registry.rs:103-151 | an admission adds one pending child one deeper than its parent, or changes nothing |
| Children.Registry.BindChild | crates/daemon/src/registry.rs:189-226 | binding is refused for the parent itself, for a session of another running child and for settled children; repeating it is accepted |
| Children.Registry.FailChild | crates/daemon/src/registry.rs:228-243 | a pending child fails, a failed one stays so, others are refused |
| Children.Registry.DeleteChild | crates/daemon/src/registry.rs:245-264 | the registry in place becomes what the specification of a deletion says, which RegistryEffects.DeleteExactly pins: the selected child deleted, all else as before |
| Children.Registry.TakeSequence | crates/daemon/src/registry.rs:266-271 | the sender's counter goes up by one, saturating, and is returned |
| RegistryEffects.DeleteExactly | crates/daemon/src/registry.rs:245-264 | a deletion is accepted exactly if it selects a child, by id or as the live one of a name; that child becomes deleted and nothing else changes; a refusal changes nothing |
| RegistryEffects.DeletedIsGone | crates/daemon/src/registry.rs:54-101 | the deleted child frees its name, one place among the live children if it was live, and no binding, running name or delegation edge leads to it |
| RegistryEffects.BindExactly | crates/daemon/src/registry.rs:189-226 | a binding is accepted exactly for a child that is pending, or running on that session already, with a session that is neither the parent nor running another child; the child then runs on it and nothing else changes |
| RegistryEffects.FailExactly | crates/daemon/src/registry.rs:228-243 | a failure is accepted exactly for a pending or failed child, which is failed then, and changes nothing else |
| RegistryEffects.RegisterExactly | crates/daemon/src/registry.rs:32-52 | refused exactly for a new key at the bound; else the record is the one kept under its key, and no other changes |
| RegistryEffects.ValidNameExactly | crates/daemon/src/registry.rs:153-187 | which names are valid, character by character, with the length bound |
| RegistryEffects.AdmitExactly | crates/daemon/src/registry.rs:103-187 | an admission is accepted exactly under all its rules; then one child is added with the given task, name and directory, the requested model or the parent's, pending, one deeper |
| RegistryEffects.AdmissionErrors | crates/daemon/src/registry.rs:153-187 | which of the broken rules is reported, and as which error |
| RegistryEffects.CoreRegisters | crates/daemon/src/rpc.rs:143-150 | the daemon's registration replaces exactly the record under the target's key, or is refused and changes nothing |
| RegistryEffects.CoreDeletes | crates/daemon/src/host.rs:74-90 | the daemon's deletion is the registry's, answers with the child, and leaves every queue alone |
| RegistryEffects.CoreBinds | crates/daemon/src/rpc.rs:179-188 | likewise its binding |
| RegistryEffects.CoreFails | crates/daemon/src/rpc.rs:189-205 | a reported failure leaves that child failed, takes one of its numbers, and changes no other child |
| RegistryEffects.CoreAdmits | crates/daemon/src/host.rs:61-71 | the daemon's admission is the registry's and answers with the new child |
| RegistryRuns.ApplyKeeps | crates/daemon/src/registry.rs:32-278 | unique ids, unique live names per parent, at most 16 live children and 1024 targets, sessions exactly where they belong, and no session shared or its own parent's |
| RegistryRuns.IdCollisionExactly | crates/daemon/src/registry.rs:280-287 | an accepted admission keeps ids unique exactly if some candidate was unused or the empty id is |
| RegistryRuns.ChildrenOnlyAdvance | crates/daemon/src/registry.rs:189-264 | no child is forgotten or rewritten, statuses only move forward, sessions are set once |
| RegistryRuns.DelegationIsForest | crates/daemon/src/registry.rs:70-226 | with fresh sessions, owners precede their children, a running owner's children are one deeper, depths lie in 1..max_depth, for every max_depth below 2^32 - 1, and for that one below 2^32 children |
| RegistryRuns.DescendantsBounded | crates/daemon/src/registry.rs:103-187 | a root has at most 16 + 16^2 + ... + 16^max_depth live descendants through running sessions |
| Events.DecimalInjective | crates/daemon/src/events.rs:51-97 | decimal numbers in ids determine the number |
| Events.MessageIdInjective | crates/daemon/src/events.rs:51-97 | a message id determines its sender and its sequence number |
| Events.KindsApart | crates/daemon/src/events.rs:31-156 | ids of different kinds of events never coincide |
| Events.SpawnIdInjective | crates/daemon/src/events.rs:31-49 | a spawn event's id determines its child |
| Events.BashIdInjective | crates/daemon/src/events.rs:51-156 | a notice's id determines the kernel's process and the handle |
| Events.ExitIdInjective | crates/daemon/src/events.rs:51-156 | an exit's id determines the process |
| Daemon.ApplyAdvances | crates/daemon/src/host.rs:61-134 | after any operation every known child and number is still known |
| Daemon.ApplyGood | crates/daemon/src/host.rs:61-134 | every queued message stays numbered no higher than its sender's counter, and every queued spawn names a known child |
| Daemon.MessageNumber | crates/daemon/src/host.rs:101-133 | a message takes the next number of its sender and carries it in its id |
| Daemon.MessageNeverSwallowed | crates/daemon/src/queue.rs:49-55 | push never takes a newly numbered message for a duplicate |
| Daemon.SpawnNeverSwallowed | crates/daemon/src/host.rs:61-71 | nor a newly admitted child's spawn event |
| Daemon.FailureTold | crates/daemon/src/rpc.rs:189-202 | the parent of a failed child reads that it failed to start and the whole reason, or its longest start that leaves room for the marker within 32 KiB |
| CoreQueues.WithdrawExactly | crates/daemon/src/host.rs:43-49 | yes exactly if an undelivered event with that id is queued for the owner; then no event with the id is queued there, every other stays in order with its flag, and no other queue changes; after a no nothing changed |
| CoreQueues.AckExactly | crates/daemon/src/rpc.rs:216-222 | exactly the named events of that target go, the rest stays in order, no other queue changes, and the answer counts those gone |
| CoreQueues.HandOutExactly | crates/daemon/src/sse.rs:126-132 | the answer is exactly the unseen queued events in order, exactly those are marked delivered, and no other queue changes |
| CoreQueues.EnqueueExactly | crates/daemon/src/queue.rs:49-72 | every other request changes at most the queue of the event it enqueues, by that one event: unchanged for a queued id, else appended, with the drop policy over 256 |
| CoreQueues.ActionableIsQueued | crates/daemon/src/queue.rs:49-72 | an actionable event is queued once its request is over, whatever the bound dropped |
| CoreQueues.NoticesEnqueued | crates/daemon/src/host.rs:36-41 | a finished handle and an exited kernel are told to the kernel's owner, the first as actionable, and the registry stays as it is |
| CoreQueues.MessagesEnqueued | crates/daemon/src/events.rs:51-97 | messages and failures are actionable and carry what was said, spawn events are not |
| CoreQueues.CoreBounded | crates/daemon/src/queue.rs:49-114 | at every moment of every run of updates and restarts, each queue has at most 256 events with distinct ids |
| CoreQueues.WithdrawAnswersExactly | crates/daemon/src/queue.rs:99-130 | over every run of updates and restarts, the delivered flag says whether a listener was handed the event since it was queued, and a withdrawal is answered yes exactly for a queued event that none was handed |
| CoreQueues.WithdrawnNotHandedOut | crates/daemon/src/queue.rs:99-130 | after a withdrawal answered yes no hand-out gives the event, until it is enqueued again |
| CoreQueues.ExitIdFromNotice | crates/daemon/src/events.rs:51-156 | only the exit of that kernel enqueues the id of an exit |
| CoreQueues.NoticeSwallowedOnlyByItself | crates/daemon/src/queue.rs:49-55 | over every run, a notice is taken for a duplicate only of an earlier notice of the same kernel and handle |
| Routing.CoreKeepsRegistry | crates/daemon/src/host.rs:61-134 | every operation on the whole core keeps the registry invariant |
| Routing.MessagesFollowEdges | crates/daemon/src/host.rs:92-134 | a message goes from a bound session to its parent, or from a parent to the session of the running child of that name |
| Routing.SendRefusedExactly | crates/daemon/src/host.rs:92-134 | a send succeeds exactly if the message is short enough and there is such an edge |
| Routing.AnswerReachesChild | crates/daemon/src/host.rs:101-131 | a parent that answers to the name shown in a message reaches the session that sent it |
| Routing.AnswerReachesParent | crates/daemon/src/host.rs:101-131 | a child that answers reaches the target that wrote to it, under the name it was called by |
| Routing.ParentIsTold | crates/daemon/src/rpc.rs:189-205 | spawn events and failure messages go to the child's parent and name the child the registry now holds |
| CrashRuns.RunInvariant | crates/daemon/src/state.rs:62-104 | the crash invariant holds at every moment of every run of updates, saves and crashes |
| CrashRuns.FilesAgree | crates/daemon/src/state.rs:95-104 | after a crash at any point, saved messages are numbered within the saved counters and saved spawns name saved children |
| CrashRuns.MessageIdsNeverReused | crates/daemon/src/state.rs:62-104 | no message id ever issued is used again, and push's deduplication never meets one |
| CrashRuns.NumberingStopsAtMaximum | crates/daemon/src/registry.rs:266-271 | a message gets a new number exactly while the counter is below the u64 maximum |
| Persisted.State.constructor | crates/daemon/src/state.rs:40-55 | loading agreeing files gives a state whose files match its memory |
| Persisted.State.Persist | crates/daemon/src/state.rs:95-104 | the registry file changes first, the events file second |
| Persisted.State.Finish | crates/daemon/src/state.rs:62-82 | a successful update is saved, a refused one is not, a grown queue is announced once, and every content the files ever had was recoverable |
| Persisted.State.SpawnChild | crates/daemon/src/host.rs:61-71 | admission and the spawn event are one update |
| Persisted.State.FailChild | crates/daemon/src/rpc.rs:189-205 | failing a child and telling its parent, with the reason clipped, are one update |
| Reason.ClipReasonIsHeadClip | crates/daemon/src/rpc.rs:189-197 | the text a parent is told is, in UTF-8, what the byte clipper leaves of the reason |
| Reason.ReasonWithinLimit | crates/protocol/src/bounds.rs:41-57 | so it stays within the bound of a message |
| Reason.FittingIsLongest | crates/protocol/src/bounds.rs:41-57 | the first j characters fit within a limit exactly if j is at most the number the clipper keeps |
| Persisted.State.BindChild | crates/daemon/src/rpc.rs:179-188 | a binding is one saved update |
| Persisted.State.DeleteChild | crates/daemon/src/host.rs:74-90 | a deletion is one saved update |
| Persisted.State.SendToParent | crates/daemon/src/host.rs:92-111 | only a bound child reaches its parent, under the child's own counter |
| Persisted.State.SendToChild | crates/daemon/src/host.rs:112-133 | a parent reaches a running child by name, under the parent's counter |
| Persisted.State.Withdraw | crates/daemon/src/host.rs:43-49 | a withdrawal is one saved update, with the answer and the queues that CoreQueues.WithdrawExactly pins |
| Persisted.State.Ack | crates/daemon/src/rpc.rs:216-222 | an ack is one saved update, as CoreQueues.AckExactly pins |
| Persisted.State.HandOut | crates/daemon/src/sse.rs:126-132 | a hand-out is one saved update, so that delivered flags survive a restart; CoreQueues.HandOutExactly pins it |
| Spawner.OperationsEvolve | crates/daemon/src/registry.rs:103-264 | whatever the daemon does, children stay in place and statuses only advance, which is all the handlers rely on |
| Spawner.SettledStays | crates/daemon/src/registry.rs:211-240 | a child that left the pending status never becomes pending again |
| Spawner.ChildSpawner.Spawn | adapters/opencode/src/children.ts:16-48 | a delivery is handled only when the child is settled and, if its bind was ever confirmed, prompted or deleted; unless a call failed it is handled, no failure is reported and a child listed as pending is bound and prompted; a child listed as pending is bound or its failure reported once; in all at most one session and one successful first prompt per child |
| Spawner.ChildSpawner.CreateSession | adapters/opencode/src/children.ts:50-71 | at most one creation per child returns, and it is remembered; a creation that failed late is counted apart |
| Spawner.ChildSpawner.Prompt | adapters/opencode/src/children.ts:73-77 | the first prompt succeeds at most once; one that failed late is counted apart |
| Spawner.ChildSpawner.Deliveries | adapters/opencode/src/children.ts:16-77 | the invariant holds over any number of deliveries in any order, one after another; SpawnRuns has the overlapping ones |
| Spawner.PiChildren.Spawn | adapters/pi/src/children.ts:20-52 | one delivery at a time: at most one undisposed session per child; a confirmed bind is followed by the one first run; normal return only for a settled child; unless a call failed it is handled, no failure is reported and a child listed as pending has its live session; PiRuns has the overlapping ones |
| Spawner.PiChildren.CreateBound | adapters/pi/src/children.ts:31-44 | a session whose binding failed is disposed |
| Spawner.PiChildren.Dispose | adapters/pi/src/children.ts:54-65 | disposing leaves no session open |
| SpawnRuns.ReturnsSettled | adapters/opencode/src/children.ts:16-77 | in every interleaving of all handlers, a handler returns only for a settled child, and every prompt goes to the one returned session that the daemon bound |
| SpawnRuns.BoundStays | adapters/opencode/src/children.ts:32-38 | that session never changes once bound |
| SpawnRuns.SpawnsOnce | adapters/opencode/src/children.ts:16-77 | at most one returned session unless the event was delivered while the child was pending and an earlier handler had not bound it or given up; at most one confirmed prompt unless, besides, while the prompt was open and an earlier handler could send it |
| SpawnRuns.ExtraEffectsExactly | adapters/opencode/src/children.ts:30-77 | in every run, the sessions and prompts beyond those returned, confirmed or under way are exactly the ones whose reply was lost; without overlap at most one more of each than that |
| SpawnRuns.SerialNeverOverlaps | packages/client/src/subscribe.ts:176-189 | deliveries one after another, as one stream makes them, never overlap |
| SpawnRuns.ConfirmedExactly | adapters/opencode/src/children.ts:32-48 | over every run, a bind and a first prompt count as confirmed exactly if the reply to one the daemon accepted, or the host delivered, arrived |
| SpawnRuns.ReturnedMeansPrompted | adapters/opencode/src/children.ts:23-48 | without overlap, once an event of a child whose bind was confirmed is handled, the first prompt was confirmed or the child deleted |
| SpawnRuns.PromptLostExactly | adapters/opencode/src/children.ts:23-48 | in every run, a running child of ours without a confirmed prompt has a handled event and a confirmed bind if and only if the confirmation came after another handler had returned |
| SpawnOverlaps.OverlapExactly | adapters/opencode/src/children.ts:16-77 | after a run without overlap, one more delivery can lead to a second returned session, or a second confirmed prompt, if and only if it overlaps; then by its own and the earlier handlers alone, without any failure |
| SpawnOverlaps.OverlapMakesTwo | adapters/opencode/src/bridge.ts:216-223 | two overlapping deliveries, as after an eviction, create two sessions |
| SpawnOverlaps.OverlapPromptsTwice | adapters/opencode/src/children.ts:23-28 | a delivery that finds the child bound and unprompted while another handler prompts makes two confirmed prompts |
| SpawnOverlaps.LostReplyMakesTwo | adapters/opencode/src/children.ts:32-43 | a creation that loses its reply, and then its report, leads to a second session |
| SpawnOverlaps.DeletedUnprompted | adapters/opencode/src/children.ts:23-28 | a reachable state in which a bound child was deleted after its prompt failed, and its event is acked without a prompt |
| SpawnOverlaps.OverlapLosesPrompt | adapters/opencode/src/children.ts:23-48 | a reachable state in which a running child keeps no prompt although its event was acked |
| PiRuns.SpawnsSafely | adapters/pi/src/children.ts:20-65 | in every interleaving, the first run is started once, exactly when a bind was confirmed, on the bound session; return only for a settled child; and every returned session is disposed of once, live, or in the hand of one handler |
| PiRuns.RunsOnceConfirmed | adapters/pi/src/children.ts:31-52 | over every run, the first run was started exactly if the confirmation of a bind arrived |
| PiRuns.OneSessionOpen | adapters/pi/src/children.ts:40-65 | once all handlers are over the live session is the only one not disposed of |
| PiRuns.DisposeClosesAll | adapters/pi/src/children.ts:54-65 | disposing when every handler is over leaves every returned session disposed of |
| Bridge.SpacedAppend | adapters/opencode/src/bridge.ts:137-152 | two effects of one event have at least 2048 other events with an effect between them |
| Bridge.RecurseBridge.Handle | adapters/opencode/src/bridge.ts:137-152 | one delivery of an event at a time: a remembered event is acked without repeating its effect; a failed effect is not remembered |
| Bridge.RecurseBridge.Touch | adapters/opencode/src/bridge.ts:200-214 | the session map holds exactly the most recently used sessions, each with the state it was given when it came in, and only evicted sessions lose their subscription |
| Bridge.RecurseBridge.Evict | adapters/opencode/src/bridge.ts:216-223 | exactly the oldest sessions past the maximum go, with their subscriptions |
| Bridge.RecurseBridge.OnSubscribed | adapters/opencode/src/bridge.ts:181-223 | a subscription that arrives is kept exactly if its session still has the state it was opened for |
| Bridge.SubscriptionsBounded | adapters/opencode/src/bridge.ts:200-223 | there are never more open subscriptions than the maximum of sessions |
| Notices.ActionKeeps | python/recurse_kernel/handles.py:79-115 | every step of one handle keeps its counts of notices and withdrawals in agreement with its state |
| Notices.FinishedKeeps | python/recurse_kernel/handles.py:63-72 | a finished group is decided at once, deferred while a cell runs, or dropped at shutdown |
| Notices.CellFinishedKeeps | python/recurse_kernel/handles.py:74-77 | when a cell is reported every deferred handle is decided |
| Notices.NotifyAllMeaning | python/recurse_kernel/handles.py:74-83 | the loop decides each deferred handle once and touches no other |
| Notices.AtMostOneNotice | python/recurse_kernel/handles.py:79-83 | at most one notice and one withdrawal are requested per handle |
| Notices.WithdrawnExactly | python/recurse_kernel/handles.py:99-115 | with all requests answered, exactly one withdrawal if the notice got an id, the handle was read in a live cell and no interrupt cut that withdrawal, else none |
| Notices.AnnouncedExactly | python/recurse_kernel/handles.py:63-83 | with nothing deferred, an unread and unkilled handle has its notice under way exactly if its watcher reached its report |
| Notices.StepMoves | python/recurse_kernel/bash.py:155-159 | a decision once taken stands, and none taken while the handle is read or killed starts a notice |
| Notices.HandleRegistry.OnFinished | python/recurse_kernel/handles.py:63-72 | the registry in place does what the specification of a finish says |
| Notices.HandleRegistry.Decide | python/recurse_kernel/handles.py:79-83 | a notice starts only for an unread, unkilled handle without one |
| Notices.HandleRegistry.OnCellFinished | python/recurse_kernel/handles.py:74-77 | the deferred list is emptied and decided in order |
| Notices.HandleRegistry.OnRead | python/recurse_kernel/bash.py:155-159 | a read counts once, in a live cell, after the foreground command ended, and creates the withdrawal of a notice already sent, unless an interrupt raises in between; NoticeRuns.HistoryMeaning says which steps count |
| Notices.HandleRegistry.OnWatchEnds | python/recurse_kernel/bash.py:136-145 | the last block of a watcher reports the finish, or is cut short after it set none, one or both of its events |
| Notices.HandleRegistry.OnNoticeReply | python/recurse_kernel/handles.py:92-102 | a notice in flight when the handle was read is withdrawn once it has an id |
| Cells.StepKeeps | python/recurse_kernel/kernel.py:90-163 | every step keeps the loop's queue, the cells, the answers and the deferred handles consistent |
| Cells.ExactlyOneResult | python/recurse_kernel/kernel.py:90-163 | once nothing is left to run, every execute of the run has exactly one result, wherever interrupts landed |
| Cells.NeverTwoResults | python/recurse_kernel/kernel.py:123-163 | at no point has an id two results |
| Cells.BusyExactly | python/recurse_kernel/kernel.py:90-95 | a cell is refused exactly while another is scheduled or in its body |
| Cells.DeferredOnlyWhileUnreported | python/recurse_kernel/handles.py:69-77 | handles are deferred only while some accepted cell has no result |
| Cells.ReadOrKilledIsSilent | python/recurse_kernel/handles.py:79-83 | a handle read or killed before its decision is never announced |
| Cells.UnreadFinishAnnounced | python/recurse_kernel/handles.py:63-102 | when all is quiet, an unread and unkilled handle had exactly one notice if its watcher reached its report, else none, and no withdrawal |
| Cells.WithdrawnOnce | python/recurse_kernel/handles.py:99-115 | over every run, at most one notice and one withdrawal, and with all requests answered the latter exactly if the notice got an id, the handle was read and no interrupt cut that read or its task |
| Cells.GroupDoneExactly | python/recurse_kernel/bash.py:136-145 | a group that is gone was reported exactly unless an interrupt of the running cell cut its watcher short |
| Cells.CutWatchIsSilent | python/recurse_kernel/bash.py:136-145 | a handle whose watcher was cut short is never announced |
| Cells.MarksMeaning | python/recurse_kernel/kernel.py:80-86 | which tasks of a handle an interrupt cut, over every run, in terms of the run's steps |
| InterruptRuns.FinishLost | python/recurse_kernel/bash.py:143-145 | a run in which an interrupt between setting the group's event and the report leaves a finished, unread handle without a notice for ever |
| InterruptRuns.WithdrawalLost | python/recurse_kernel/bash.py:158-159 | a run in which an interrupt between marking the read and creating the withdrawal's task leaves a read notice without a withdrawal for ever |
| Cells.EventLoop.Execute | python/recurse_kernel/kernel.py:90-105 | an execute is answered busy or scheduled as a new task |
| Cells.EventLoop.RunOne | python/recurse_kernel/kernel.py:107-128 | a task cancelled before its first step never runs its body, and the completion callback reports what the task did not |
| Cells.EventLoop.FinishBody | python/recurse_kernel/kernel.py:110-121 | a cell is reported from its task unless describing its error raised |
| Cells.EventLoop.Send | python/recurse_kernel/kernel.py:130-163 | a result is sent, and after a cell the deferred handles are decided |
| Cells.EventLoop.OnWatchEnds | python/recurse_kernel/bash.py:136-145 | a watcher ends under the loop: reported, or cut short only in the cell it belongs to |
| Cells.EventLoop.OnLiveRead | python/recurse_kernel/bash.py:155-159 | a read in the running cell, whole or interrupted |
| NoticeRuns.HistoryMeaning | python/recurse_kernel/bash.py:123-159 | over every run: a handle counts as read exactly if a step read it in a live cell after its foreground command had ended, as killed exactly after a kill, its foreground as done exactly after a step that ends it, its notice as requested, sent and numbered exactly after the steps that do so |
| NoticeRuns.DecisionMeaning | python/recurse_kernel/handles.py:63-77 | over every run: a notice is decided exactly once its watcher reported outside a cell, or a cell was reported since; it is deferred exactly in between |
| NoticeRuns.NoticeExactly | python/recurse_kernel/handles.py:79-102 | over every run, one notice exactly if it was decided while the handle had been neither read nor killed |
| NoticeRuns.ReadFirstIsSilent | python/recurse_kernel/handles.py:79-83 | after a read or a kill before the decision no notice is ever requested |
| NoticeRuns.ReportedIsDecided | python/recurse_kernel/handles.py:63-77 | when all is quiet and the kernel was never closed, every report of a watcher has been decided |
| NoticeRuns.FinishAnnouncedExactly | python/recurse_kernel/handles.py:63-102 | when all is quiet and the kernel open, a handle no step read or killed had one notice exactly if a step of its watcher reported the finish |
| NoticeRuns.WithdrawnByHistory | python/recurse_kernel/handles.py:92-115 | with all requests answered, one withdrawal exactly if a reply step carried an event id, a step read the handle, and none cut the withdrawal |
| NoticeRuns.CutMeaning | python/recurse_kernel/bash.py:155-159 | which steps cut a withdrawal: an interrupt of its task, or of the first read of a notice already sent |
| CellRuns.CancelMeaning | python/recurse_kernel/kernel.py:80-88 | while its first step is queued, a cell is cancelled exactly if an interrupt came since it was accepted |
| CellRuns.RunsExactly | python/recurse_kernel/kernel.py:80-121 | a cell enters its body exactly if no interrupt came between its acceptance and its first step |
| CellRuns.ReportsExactly | python/recurse_kernel/kernel.py:90-163 | what each step reports, and with which status |
| CellRuns.ResultTells | python/recurse_kernel/kernel.py:107-128 | every result names how its cell ended: as its body did, or interrupted where the callback had to report |
| KernelHandle.AfterKeeps | crates/daemon/src/kernel/handle.rs:116-155 | phases only go forward, a dead kernel holds and gains no waiter, no cell number is used twice |
| KernelHandle.WaitsExactly | crates/daemon/src/kernel/handle.rs:129-223 | over every run of critical sections a cell has a waiter exactly if it was begun on a ready kernel and neither its result nor the end of its call nor the exit came since |
| KernelHandle.AnsweredOnce | crates/daemon/src/kernel/handle.rs:129-133 | however often a result arrives, at most one reaches the waiter of its cell |
| KernelHandle.PhaseExactly | crates/daemon/src/kernel/handle.rs:116-155 | over every run, a kernel is dead exactly once it exited, ready exactly once it said so before, stopping on purpose exactly once asked to, and its launcher waits exactly until the first of these |
| KernelHandle.RunningExactly | crates/daemon/src/kernel/handle.rs:202-288 | the cell shown is exactly the last one begun on a ready kernel whose call has not ended |
| KernelHandle.CountIsLargest | crates/daemon/src/kernel/handle.rs:269-288 | the execution count is the largest one any finished cell reported, or zero |
| KernelHandle.Kernel.HandleReady | crates/daemon/src/kernel/handle.rs:116-127 | only a starting kernel becomes ready, waking its launcher |
| KernelHandle.Kernel.HandleResult | crates/daemon/src/kernel/handle.rs:129-133 | takes out and resolves one waiter |
| KernelHandle.Kernel.HandleExit | crates/daemon/src/kernel/handle.rs:140-155 | an exit drops every waiter and is reported only if the kernel was ready and not asked to stop |
| KernelHandle.Kernel.Begin | crates/daemon/src/kernel/handle.rs:208-223 | a cell starts only on a ready kernel, under a number not in use |
| KernelHandle.Kernel.Finish | crates/daemon/src/kernel/handle.rs:269-288 | a finished cell is no longer pending or running, and the execution count only grows |
| KernelSlots.StepKeeps | crates/daemon/src/kernel/mod.rs:79-240 | every step of calls, kernels, restarts and exits keeps slots, mailboxes and waiters consistent; which kernel a call takes is KernelReuse.InspectExactly |
| KernelSlots.KernelManager.SlotFor | crates/daemon/src/kernel/mod.rs:69-71 | a call works on its target's slot, made on first use |
| KernelSlots.KernelManager.TryAcquire | crates/daemon/src/kernel/mod.rs:44-51 | the busy flag is taken by exactly one call; any other is refused |
| KernelSlots.KernelManager.TakeKernel | crates/daemon/src/kernel/mod.rs:33-38 | the kernel leaves its slot, and only that slot changes |
| KernelSlots.KernelManager.RestartTarget | crates/daemon/src/kernel/mod.rs:118-128 | a restart takes the target's kernel out of its slot to be stopped; without one nothing changes |
| KernelSlots.KernelManager.ShutdownKey | crates/daemon/src/kernel/mod.rs:130-137 | a shutdown also forgets the slot, while a call that holds it keeps it |
| KernelSlots.KernelManager.OnProcessExit | crates/daemon/src/kernel/launch.rs:206-216 | an exit drops every waiter and is queued exactly if the kernel was ready and not stopped on purpose |
| KernelSlots.OnePendingCell | crates/daemon/src/kernel/mod.rs:95-111 | a kernel has at most one pending cell, that of the call holding its slot |
| KernelSlots.NoHungWaiter | crates/daemon/src/kernel/handle.rs:140-155 | no call keeps waiting on a dead kernel |
| KernelSlots.AnswerIsOwn | crates/daemon/src/kernel/handle.rs:225-243 | a call that ends with an answer got the one for its own cell |
| KernelSlots.ResultNotCrossed | crates/daemon/src/kernel/handle.rs:129-133 | a result reaches no call but the one that runs that cell on that kernel |
| KernelSlots.BusyExactly | crates/daemon/src/kernel/mod.rs:44-57 | a slot is busy exactly while one call holds it, however the call ends |
| KernelSlots.IdleKernelShowsNoCell | crates/daemon/src/kernel/handle.rs:269-280 | a kernel shows a running cell exactly while a call runs one on it |
| KernelSlots.OneExitPerProcess | crates/daemon/src/kernel/launch.rs:189-217 | a process queues at most one kernel.exited |
| KernelSlots.AnnouncedExactly | crates/daemon/src/kernel/launch.rs:206-216 | over every run, a kernel.exited is queued for a process exactly if an exit step of it found it ready and not stopped on purpose |
| KernelSlots.PhasesForward | crates/daemon/src/kernel/handle.rs:116-155 | over every run phases only go starting, ready, dead, and a stop on purpose stays one |
| KernelSlots.StoppedIsSilent | crates/daemon/src/kernel/handle.rs:185-200 | a kernel asked to stop before it exits is never announced |
| KernelSlots.AllReleased | crates/daemon/src/kernel/mod.rs:41-57 | once every call is over no slot is busy and no cell pending |
| KernelReuse.InspectExactly | crates/daemon/src/kernel/mod.rs:212-225 | a call takes the kernel of its slot exactly if that is ready and goes on to launch exactly otherwise, changing nothing else |
| KernelReuse.LaunchExactly | crates/daemon/src/kernel/mod.rs:223-226 | a launch adds one starting process, makes it the slot's kernel and waits for it |
| KernelReuse.OutcomeExactly | crates/daemon/src/kernel/handle.rs:202-267 | in which steps a call ends, and with what: answered in time, answered late, killed, refused or unavailable |
| KernelReuse.CallAdvances | crates/daemon/src/kernel/mod.rs:95-111 | a free slot is acquired, a ready kernel is used, and a cell begun on it waits under a new number |
| KernelReuse.CellMailArrives | crates/daemon/src/kernel/handle.rs:129-155 | a call that waits for its cell gets the result the kernel sends for it, or learns of the exit |
| KernelReuse.ReadyMailArrives | crates/daemon/src/kernel/mod.rs:227-233 | a call that waits for its kernel is told when that is ready, or that it exited before |
| KernelReuse.DetachExactly | crates/daemon/src/kernel/mod.rs:117-137 | restart and shutdown take exactly the target's kernel out of its slot, have it stopped, and only a shutdown forgets the slot |
| KernelReuse.WantedIsKernel | crates/daemon/src/kernel/mod.rs:212-240 | over every run, a ready process that nobody stopped or killed is the kernel of its slot, so a slot has at most one |
| KernelRuns.SameProcess | crates/daemon/src/kernel/mod.rs:80-111 | over every run, two calls of a target run their cells on the same process, unless the target is restarted or shut down in between or that process has exited |
| KernelRuns.RestartStartsAnew | crates/daemon/src/kernel/mod.rs:117-128 | a call without a kernel when its target is restarted gets a process launched after that |
| KernelRuns.LaterCallsAnew | crates/daemon/src/kernel/mod.rs:117-137 | so does every call for the target that arrives after a restart or a shutdown |
| KernelRuns.KernelOfCall | crates/daemon/src/kernel/mod.rs:212-240 | over every run, a call uses the ready kernel it found in its slot, or the process it launched after it had found none |
| KernelRuns.EveryProcessWasNeeded | crates/daemon/src/kernel/mod.rs:219-225 | every process was launched by a call that had found no ready kernel |
| KernelRuns.ProcessExactly | crates/daemon/src/kernel/handle.rs:116-200 | over every run, a process is dead exactly after its exit, ready exactly after it said so and before its exit, stopped on purpose exactly after a stop began, and being stopped exactly after a restart or shutdown took it out of its slot |
| KernelRuns.KilledExactly | crates/daemon/src/kernel/handle.rs:245-259 | over every run, a process was killed exactly if the call using it gave up on it, or on its getting ready |
| KernelRuns.LateExactly | crates/daemon/src/kernel/handle.rs:225-267 | over every run, a call is late exactly if its time limit passed while it ran its cell |
| KernelTargets.OneWantedPerTarget | crates/daemon/src/kernel/mod.rs:130-137 | in a run whose shutdowns strand no call that may still launch, a target has at most one ready process that nobody stopped or killed |
| KernelTargets.DoublesExactly | crates/daemon/src/kernel/mod.rs:130-137 | without another shutdown a target can get two exactly if a slot it has forgotten holds a process unharmed or a call that may still launch one |
| KernelTargets.StrandedExactly | crates/daemon/src/kernel/mod.rs:130-137 | after any run without it, a shutdown can lead to two exactly if it strands a call |
| KernelTargets.StrandingHappens | crates/daemon/src/kernel/mod.rs:69-111 | a run of two steps with such a shutdown: between the arrival of a call and its start |
| Utf8.ValidSplit | crates/protocol/src/bounds.rs:31-33 | cutting valid text at a character boundary leaves two valid texts |
| Utf8.ValidPrefixBoundary | crates/protocol/src/bounds.rs:49-51 | only such a cut leaves a valid start |
| Utf8.BoundaryNear | python/recurse_kernel/bounds.py:12-16 | in valid text a boundary is never more than three bytes away |
| RustClip.ClipTail | crates/protocol/src/bounds.rs:23-39 | the boundary-seeking loop computes the specified clip and tells whether it cut |
| RustClip.ClipHead | crates/protocol/src/bounds.rs:42-57 | the same for the start |
| RustClip.TailClipMeaning | crates/protocol/src/bounds.rs:22-39 | after the marker the longest valid end that fits is kept, within the limit and wasting at most three bytes |
| RustClip.HeadClipMeaning | crates/protocol/src/bounds.rs:41-57 | before the marker the longest valid start that fits is kept |
| RustClip.TailClipIdempotent | crates/protocol/src/bounds.rs:22-39 | clipping twice is clipping once, at every limit |
| RustClip.HeadClipIdempotent | crates/protocol/src/bounds.rs:41-57 | the same for the start |
| RustClip.TailClipWithinLimitExactly | crates/protocol/src/bounds.rs:22-57 | the result respects the limit exactly if the text did or the marker fits |
| PythonClip.SkipContinuationLoop | python/recurse_kernel/bounds.py:12-16 | the loop skips the leading continuation bytes, at most four |
| PythonClip.SkipIsNextBoundary | python/recurse_kernel/bounds.py:12-24 | on an end of valid text that leaves its longest valid end |
| PythonClip.IgnoreIsPreviousBoundary | python/recurse_kernel/bounds.py:40-41 | decoding a cut start of valid text and ignoring errors leaves its longest valid start |
| PythonClip.TailTextMeaning | python/recurse_kernel/bounds.py:19-27 | a clipped end is the longest valid one that leaves room for the marker, counts all it omits, and stays within the limit |
| PythonClip.HeadTextMeaning | python/recurse_kernel/bounds.py:34-42 | the same for a clipped start |
| PythonClip.WriteAllHolds | python/recurse_kernel/bounds.py:45-58 | the buffer always holds the end of all writes, at least its limit once it dropped any |
| PythonClip.BufferRefinesExactly | python/recurse_kernel/bounds.py:19-64 | the bounded buffer shows what clipping all writes would show, for every sequence of writes, exactly if the limit is above 80 |
| PythonClip.TailBuffer.Write | python/recurse_kernel/bounds.py:53-58 | appending and cutting keep the buffer the end of everything written |
| PythonClip.TailBuffer.Clipped | python/recurse_kernel/bounds.py:60-61 | the clip of the buffer is the clip of everything ever written |
| CellBounds.CellResult.EnforceBounds | crates/protocol/src/cell.rs:60-74 | every field is clipped to its bound and the result marked if any was over it |
| CellBounds.EnforcedWithinBounds | crates/protocol/src/cell.rs:60-74 | whatever the kernel sent, what is kept is within the bounds |
| CellBounds.EnforcedChangesExactly | crates/protocol/src/cell.rs:60-74 | bounding changes a result exactly if some field was over its bound, then marks it, and is idempotent |
| CellBounds.EnforcedKeepsEnds | crates/protocol/src/cell.rs:60-74 | of streams and tracebacks over their bound the longest valid end that fits is kept, of values the longest valid start, and the mark is set exactly if it was or some field was over |
| CellBounds.KernelResultUntouched | python/recurse_kernel/kernel.py:140-158 | bounding is the identity on streams, values and errors that the kernel clipped from valid UTF-8 |
| CellBounds.SentExactly | python/recurse_kernel/kernel.py:140-158 | what the kernel sends: the end of all written to each stream and of the traceback, the start of the values, counting what is left out, and marked exactly if a stream, the value or the traceback was over its limit |
| Blocks.FinishedConcat | packages/client/src/subscribe.ts:147-150 | cutting what arrived and going on with the rest is cutting it all at once |
| Blocks.SplitDoesNotMatter | packages/client/src/subscribe.ts:143-160 | however a text is split on its way, a reader gets the same values |
| Blocks.EventStream.TakeBlock | crates/client/src/sse.rs:47-53 | takes the first finished block off the buffer, or nothing |
| Blocks.EventStream.NextFrame | crates/client/src/sse.rs:20-45 | gives the next value of all the stream will deliver, none only at its end, an error only if too much is pending |
| Blocks.ReadLoop | packages/client/src/subscribe.ts:143-160 | the loop gives the values of all finished blocks, or fails only if too much is pending |
| Sse.ReadersCut | crates/client/src/sse.rs:47-53 | both clients' block separators satisfy what the reading theorems need: later bytes never change an earlier block |
| Sse.PrintedPayload | crates/client/src/sse.rs:56-70 | the data line of a printed frame gives back its payload in both clients |
| Sse.ReadPrinted | packages/client/src/subscribe.ts:229-245 | reading undoes printing |
| Sse.PendingIsBounded | packages/client/src/subscribe.ts:149-151 | while printed frames arrive never more than one frame is pending |
| Sse.PrintedArrives | crates/client/src/sse.rs:20-53 | printed frames, split anywhere, arrive whole, in order, and below the readers' limit |
| Sse.EventsArriveInOrder | crates/daemon/src/sse.rs:155-187 | events cut, printed, split and read back are the same events in the same order |
| Sse.EventsArriveWithinLimit | packages/client/src/subscribe.ts:143-160 | with the 2 MiB limit: it is never exceeded and the events arrive, if encodings exceed the sizes by a bounded overhead and each single event fits |

## Left out

- HTTP, JSON, base64, process spawning, file descriptors, signals and clocks: frames, replies, exits, timeouts and interrupts are free steps, JSON is an encoding that decoding undoes and that prints on one line, its length an arbitrary function.
- The event-stream library that prints frames is not part of this model; a frame is printed as one line `data: ` and an empty line.
- Event texts, timestamps, prompts, working directories and formatting: no protocol decision reads them.
- Persisted.State.Persist: saves succeed or the process dies; a save that fails while the daemon goes on is only logged by the source and voids the agreement of the files.
- Queue.EventQueue.ToFile: keys are ordered by their characters; the source compares UTF-8 bytes, which is the same order.
- The state lock between daemon processes (crates/daemon/src/lock.rs): it does not promise exclusion among racing contenders.
- RegistryRuns.ApplyKeeps: child ids come from a finite list of candidates, and some candidate must be unused; the source draws 32-bit hashes without end.
- RegistryRuns.DelegationIsForest: every session that a bind uses must be new, as creating a session gives.
- Delivery.NoEventStuck: an id is pushed at most once; one target and one client subscription, with any number of further listeners and acks by others.
- DeliveryRuns.QuietMeansHandled: an id is pushed at most once, as above; a handler that never returns never lets the system fall quiet.
- KernelTargets.OneWantedPerTarget: promised for runs whose shutdowns strand no call, because the source's shutdown does strand them (`KernelTargets.StrandingHappens`).
- SpawnRuns.ReturnedMeansPrompted: promised unless the child was deleted, and without overlap, because the source acks without a prompt otherwise (`SpawnOverlaps.DeletedUnprompted`, `SpawnOverlaps.OverlapLosesPrompt`).
- Liveness that needs time or fairness: heartbeats, back-off delays, idle exit.
- Spawner.ChildSpawner.Spawn: the class runs one delivery after another; SpawnRuns and SpawnOverlaps interleave them, with the daemon's record of a child reduced to its status. A registered child is known to the daemon, as the agreement of the files gives.
- Spawner.PiChildren.Spawn: one delivery at a time, PiRuns interleaves them; a session made by a creation that then fails is never known to the adapter, which cannot dispose of it, and is counted apart.
- SpawnOverlaps.OverlapExactly: says what one delivery can lead to after a run without overlap; after an overlap the harm may already be possible or past.
- Bridge.RecurseBridge.Handle: deliveries of one event do not overlap, within one process; an event is remembered only when its effect is over, so a second delivery during the effect repeats it. For spawn events SpawnRuns covers that.
- Cells.ExactlyOneResult: signal handlers run only at calls and loop back-edges, so clearing the running cell and leaving the body is one step; execute ids are distinct; no shutdown.
- Notices.HandleRegistry.OnFinished: handles are values in a map from their id; a group ends once; close() kills are the step that sets the closing flag. An interrupt while a watcher still polls only makes it end early, which is the same step.
- User code: a cell is a step that may return, raise, be interrupted or be cancelled.
- KernelSlots.OnePendingCell: calls run to completion; a call dropped in the middle leaves its waiter behind in the source. Calls are values whose stages lie between awaits; the record behind each kernel's lock is the class `KernelHandle.Kernel` and, in `KernelManager`, its value. Launching and storing the new process in its slot is one step.
- KernelHandle.Kernel.Begin: the counter of cells is unbounded instead of 64 bits wide.
- PythonClip.TailTextMeaning: sizes are below 2^63; invalid UTF-8, where a replacement character is longer than the byte it replaces, is left out, as are lone surrogates in texts.
- Blocks.ReadLoop: the streaming text decoder and the lossy conversion to text are identities on valid UTF-8; parsing the payload as JSON follows as a function on payloads.
- MCP and command-line front ends, argument parsing, skills, tool pruning, guidance text, logging and environment options.
