# bus1 in Dafny

bus1 is a kernel IPC system. It treats local peers as a distributed system: a multicast reaches all its
destinations atomically and in one consistent order, without a global lock, because every peer's message
queue keeps a Lamport clock and every transaction first *stages* its messages (odd timestamp), then takes a
commit timestamp, syncs all destination clocks, and only then *commits* (even timestamp).

This project models that protocol and the objects around it, and proves what they promise. Check it with
`dafny verify dfyconfig.toml`.

| file | what it models |
|---|---|
| `Common.dfy` | notions several modules share |
| `QueueSpec.dfy` | the order of queue entries and the value of a queue |
| `Queue.dfy` | the queue object with its cached `leftmost` and `front` |
| `Protocol.dfy` | peers and transactions as a transition system; every section under a data lock is one action |
| `ProtocolInv.dfy`, `ProtocolMore.dfy`, `ProtocolOnce.dfy`, `ProtocolRuns.dfy` | what every action keeps; how later states of a run relate to earlier ones |
| `Ordering.dfy`, `Joining.dfy` | the guarantees over every run: consistent order, delivery exactly once, causality, the continuation flag, node destruction, late joins |
| `Sending.dfy` | from handing a node to a transaction to its delivery; the order of one sender; what was peeked |
| `Receiving.dfy` | who can meet a wrong continuation flag, and a run in which it is wrong |
| `TxCommit.dfy` | the commit operation as a program, among arbitrary steps of other threads |
| `HandleSpec.dfy`, `Handles.dfy` | anchors and remotes of one node, their references, map and notifications |
| `HandleRuns.dfy` | any sequence of operations on a node, and what each keeps of another thread's references |
| `HandleThreads.dfy` | acquisition and release as atomic operations and locked sections among the steps of other threads |
| `HandleIds.dfy` | the identifiers of a peer's handles |
| `PoolSpec.dfy`, `Pool.dfy` | the slice allocator of a pool |
| `Active.dfy` | active references under concurrent atomic operations |
| `Flist.dfy` | fixed lists |

Conventions. Pointers that are compared (node addresses, group tags, peers) are numbers. A search tree is the
sequence of its entries in order, and descending it is narrowing an interval of that sequence around an
arbitrary pivot, so every shape of the tree is covered. A peer's *history* is the sequence of entries it
dequeued. Interference of other threads is a loop of arbitrary enabled actions.

What turned out not to hold, and exactly when it does:

- The queue's `front` is cleared by a flush and not set again. It is correct afterwards if and only if, before the
  flush, every committed entry above the flush timestamp had a staging entry in front of it
  (`Queue.Queue.Flush`). Otherwise the queue reports nothing to dequeue, and further messages do not change that
  (`Queue.FlushStalls`).
- An entry peeked without `more` gets a sibling before it is removed if and only if a late join takes the tie branch
  in between (`Ordering.TieJoinBreaksMore`, with such a run in `Receiving.WrongFlag`); while no join ties with an
  entry so peeked, the flag is final (`Ordering.LastIsFinal`). This concerns users of the queue that peek and remove
  in two sections. The bus itself does not meet it: only transactions that destroy nodes are joined
  (ipc/bus1/handle.c:307), and their notifications are removed in the section that peeks them
  (ipc/bus1/peer.c:971-973); an entry so received without `more` is always the last one
  (`Receiving.BusMoreIsExact`). The tie branch is also the only way an entry can get in front of one that is ready
  (`Joining.SyntheticIsLeftmost`, `Joining.FrontStays`).
- `more` promises that an entry of the same transaction follows. A discard breaks that promise if and only if it takes
  the last sibling of an entry that was handed out, or peeked, with `more` (`ProtocolMore.CutBreaksMore`); while no
  discard does, the flag is exact (`Ordering.MoreIsExact`). The bus can meet this, because it drops entries that are
  no longer of interest when it peeks (ipc/bus1/peer.c:953-969); `Receiving.CutContinuation` is such a run.
- The fast path of a weak acquisition also takes a strong reference. An acquisition makes the strong count exceed the
  strong references by one more if and only if it takes the fast path without being asked for a strong one; left
  alone, it takes the fast path if and only if the handle is attached and the strong count is positive
  (`HandleThreads.Acquire`, with a run to any excess in `HandleThreads.Oversubscribed`). It costs the owner the
  notification that ipc/bus1/handle.h:48-51 promises: when the last strong reference to a live node goes, the
  notification is queued if and only if there was no excess (`HandleThreads.Release`,
  `HandleThreads.MissedNotification`). And an anchor is freed with a strong count of exactly the excess, which
  ipc/bus1/handle.c:38 warns about (`HandleRuns.AnchorIsUnused`, `HandleThreads.FreedWithStrong`).
- A handle that a second remote of the same holder gives way to can have any number of weak references
  (`HandleRuns.ConflictWithMany`). The warning at ipc/bus1/handle.c:371 trips if and only if the handle given is not
  attached, its holder has another one in the map, and that one has other than one weak reference before the call
  (`Handles.Node.AcquireLocked`).
- A deactivation is visible in the counter if and only if at most `INT_MAX - 5` references are held
  (`Active.BiasFits`).
- Kernel-assigned identifiers repeat if and only if the counter has advanced by a multiple of 2^61
  (`HandleIds.KernelIdsRepeat`).

Where code and comments disagree the code is followed: releasing a slice re-adds the *previous* slice to the tree
of gaps, not the following one (ipc/bus1/util/pool.c:317-336), and a queue after a flush can hold a committed
first entry with no front (ipc/bus1/util/queue.c:100-134).

## Model

| member | source | states |
|---|---|---|
| `QueueSpec.Compare` | ipc/bus1/util/queue.h:310-349 | the result is negative, positive or zero exactly as one (timestamp, group) key sorts before, after or equal to the other |
| `QueueSpec.NodeOrder` | ipc/bus1/util/queue.c:25-41 | nodes are ordered by key, then by address; only a node compared with itself is equal |
| `QueueSpec.LeftmostIsUnique` | ipc/bus1/util/queue.c:25-41 | the node order is strict, so a queue has at most one leftmost entry |
| `QueueSpec.AcceptsMeans` | ipc/bus1/util/queue.c:346-355 | a synthetic commit is accepted exactly if some entry sorts in front of its key, or the first entry has that key and a higher address |
| `QueueSpec.AddMovesForward` | ipc/bus1/util/queue.c:153-164 | adding moves no committed entry, none back or beyond the clock, none but its own, and does not bring back a node that was linked before |
| `QueueSpec.FlushUncovers` | ipc/bus1/util/queue.c:116-134 | what comes first after a flush is a staging entry exactly if every committed entry above the timestamp had one in front of it before |
| `Queue.WithIsSorted` | ipc/bus1/util/queue.c:213-230 | linking a node at the slot a descent ends at keeps the tree sorted and complete |
| `Queue.WithoutIsSorted` | ipc/bus1/util/queue.c:400-401 | erasing a node keeps the tree sorted and complete |
| `Queue.FirstIsLeftmost` | ipc/bus1/util/queue.c:183-191 | the first node of the tree is the smallest entry of the queue's value |
| `Queue.Queue.constructor` | ipc/bus1/util/queue.c:50-57 | a new queue is empty with clock 0 and correct caches |
| `Queue.Queue.Tick` | ipc/bus1/util/queue.h:252-256 | the clock moves by a full interval and stays even |
| `Queue.Queue.Sync` | ipc/bus1/util/queue.h:271-276 | the clock is fast-forwarded, never moved back |
| `Queue.Queue.Locate` | ipc/bus1/util/queue.c:213-227 | along any path down the tree, everything left of the slot sorts before the node and everything right of it after; the node is leftmost exactly if the path never turned right |
| `Queue.Queue.Uncover` | ipc/bus1/util/queue.c:166-211 | taking out the leftmost staging node makes the next entry the front exactly if that is committed and stays in front of the new key |
| `Queue.Queue.Insert` | ipc/bus1/util/queue.c:213-238 | the node is linked under its new key, and it is reported leftmost exactly if it sorts before everything else |
| `Queue.Queue.Move` | ipc/bus1/util/queue.c:166-238 | a node moves to its new key; leftmost stays the minimum, front stays that minimum exactly when committed, and neither changes if the node sorts behind |
| `Queue.Queue.Add` | ipc/bus1/util/queue.c:139-242 | refines the specified add, including its guards; a tripped guard changes nothing |
| `Queue.Queue.Stage` | ipc/bus1/util/queue.c:260-272 | the node is staged right after everything the synced clock has seen, and is never the front |
| `Queue.Queue.CommitStaged` | ipc/bus1/util/queue.c:288-297 | refines the specified move from staging to commit key and keeps the caches |
| `Queue.Queue.CommitUnstaged` | ipc/bus1/util/queue.c:311-318 | the node gets a timestamp of its own and goes behind everything; the front stays |
| `Queue.Queue.CommitSynthetic` | ipc/bus1/util/queue.c:334-358 | the node is linked exactly if the leftmost entry sorts in front of it or ties with a higher address; else the queue is unchanged |
| `Queue.Queue.Remove` | ipc/bus1/util/queue.c:371-405 | exactly that node leaves; removing the leftmost entry makes the caches correct whatever they were |
| `Queue.Queue.Peek` | ipc/bus1/util/queue.c:426-445 | returns the smallest entry if committed, with `more` true exactly if another entry of the same key is queued; with correct caches it returns nothing only if there is no such entry |
| `Queue.FlushSplits` | ipc/bus1/util/queue.c:120-134 | a pass over the tree puts every entry either into the taken or into the kept part, by commit state and timestamp |
| `Queue.TakenIsFlushed` | ipc/bus1/util/queue.c:79-94 | what a flush takes are exactly the committed entries at or below its timestamp |
| `Queue.TakenDescends` | ipc/bus1/util/queue.c:120-134 | the taken entries are handed over in descending order |
| `Queue.LeftIsSorted` | ipc/bus1/util/queue.c:120-134 | what a flush leaves is the sorted tree of the remaining entries |
| `Queue.LeftIsShielded` | ipc/bus1/util/queue.c:116-134 | the same for the first node of the remaining tree, or its absence |
| `Queue.Queue.Sweep` | ipc/bus1/util/queue.c:120-134 | the loop returns the taken entries last one first, the kept ones in order, and the first of those |
| `Queue.Queue.Flush` | ipc/bus1/util/queue.c:95-137 | refines the specified flush, keeps leftmost correct, and leaves the front correct exactly if before the call every committed entry above the timestamp had a staging entry in front of it |
| `Queue.FlushStalls` | ipc/bus1/util/queue.c:116-134 | a run in which a committed entry is first in line but the queue has no front, however many messages follow |
| `ProtocolInv.AddKeeps` | ipc/bus1/util/queue.c:139-242 | linking a node at or above everything dequeued and pending keeps a peer's history in order |
| `ProtocolInv.StageEffect` | ipc/bus1/util/queue.c:260-272 | staging a fresh node trips no guard and links it at the synced clock plus one |
| `ProtocolInv.StageKeeps` | ipc/bus1/util/queue.c:260-272 | staging keeps a peer consistent: the new key is above everything dequeued |
| `ProtocolInv.UnstagedKeeps` | ipc/bus1/util/queue.c:311-318 | a unicast commit keeps a peer consistent and trips no guard |
| `ProtocolInv.CommitKeeps` | ipc/bus1/util/queue.c:274-297 | a commit only moves a node up, so it stays above everything dequeued; no guard trips |
| `ProtocolInv.SyntheticKeeps` | ipc/bus1/tx.c:254-269 | a late join never gets a key below anything dequeued; it is linked exactly if accepted |
| `ProtocolInv.TakeKeeps` | ipc/bus1/peer.c:925-980 | dequeuing the peeked entry keeps the history ordered against everything left |
| `ProtocolInv.LocalStepKeeps` | ipc/bus1/tx.c:130-143 | a step in one peer and one transaction disturbs no other transaction |
| `ProtocolInv.StageKeepsInv` | ipc/bus1/tx.c:130-163 | staging into an open transaction, sync or async, keeps the global invariant |
| `ProtocolInv.StagePostponedKeeps` | ipc/bus1/tx.c:290-303 | staging a postponed node just before commit keeps the global invariant |
| `ProtocolInv.JoinKeeps` | ipc/bus1/tx.c:212-270 | a join, early or late, keeps the global invariant |
| `ProtocolInv.SealKeeps` | ipc/bus1/tx.c:305-316 | sealing takes a timestamp above every staging timestamp of the transaction |
| `ProtocolInv.SyncOneKeeps` | ipc/bus1/tx.c:318-335 | after a sync step one more destination clock has reached the commit timestamp |
| `ProtocolInv.SpliceKeeps` | ipc/bus1/tx.c:337-340 | appending the async list loses and duplicates no node |
| `ProtocolInv.MembersAreSynced` | ipc/bus1/tx.c:318-340 | when committing may begin, every destination clock has reached the commit timestamp |
| `ProtocolInv.CommitOneKeeps` | ipc/bus1/tx.c:342-357 | committing the next node keeps the global invariant |
| `ProtocolInv.StepKeeps` | ipc/bus1/tx.c:130-360 | every action of every thread keeps the global invariant |
| `ProtocolMore.CommitKeepsMore` | ipc/bus1/util/queue.c:407-445 | when a staging entry is committed, no sibling can have been handed out as the last one |
| `ProtocolMore.TieIsNotFinal` | ipc/bus1/util/queue.c:346-355 | a join can tie only while no entry of its key was handed out as the last one, other than one about to be removed |
| `ProtocolMore.SyntheticKeepsMore` | ipc/bus1/util/queue.c:334-358 | unless it ties with an entry peeked as the last one, a late join never adds to a transaction whose last entry was handed out |
| `ProtocolMore.CutBreaksMore` | ipc/bus1/peer.c:953-969 | a discard breaks what `more` promised exactly if it takes the last sibling of an entry handed out or peeked with it |
| `ProtocolMore.StepKeepsMore` | ipc/bus1/util/queue.c:407-445 | every action keeps what the continuation flags handed out so far promise |
| `ProtocolOnce.LinkKeepsOnce` | ipc/bus1/util/queue.c:153-164 | the guards keep a node that was dequeued from being linked again |
| `ProtocolOnce.TakeKeepsOnce` | ipc/bus1/util/queue.c:371-405 | dequeuing moves a node from the queue to the history, once |
| `ProtocolOnce.DiscardKeepsOnce` | ipc/bus1/util/queue.c:95-137 | a discard moves exactly its nodes from the queue to the discarded ones |
| `ProtocolOnce.StepKeepsOnce` | ipc/bus1/tx.c:130-360 | after every action each node that was ever linked is queued, was dequeued once, or was itself discarded, and only one of these |
| `ProtocolRuns.StepLater` | ipc/bus1/util/queue.h:258-276 | an action moves no clock back, changes no committed key or history, and stages and seals beyond the current clocks |
| `ProtocolRuns.LaterIsTransitive` | ipc/bus1/util/queue.h:258-276 | so does any sequence of actions |
| `ProtocolRuns.RunInv` | ipc/bus1/tx.c:130-360 | all invariants hold in every state of every run |
| `ProtocolRuns.RunLater` | ipc/bus1/util/queue.h:31-40 | any two states of a run are related in that way |
| `Ordering.DeliveredKey` | ipc/bus1/tx.c:342-357 | everything dequeued of a transaction carries its one commit timestamp |
| `Ordering.DequeuedInOrder` | ipc/bus1/util/queue.h:21-40 | on each queue, over every run, keys come out in order and nothing queued sorts below them |
| `Ordering.ConsistentOrder` | ipc/bus1/util/queue.h:26-40 | any two transactions are dequeued in the same order on any two queues, at any times, also with equal timestamps |
| `Ordering.Contiguous` | ipc/bus1/util/queue.c:407-445 | a queue hands out the entries of a transaction one after the other |
| `Ordering.DeliveredExactlyOnce` | ipc/bus1/tx.c:342-357 | each node of a committed transaction is queued under the commit key, or was dequeued with it once, or was itself discarded; exactly one of these |
| `Ordering.StampArrives` | ipc/bus1/util/queue.c:153-164 | the same for any node with a commit timestamp, transaction or unicast |
| `Ordering.MoreMeansSibling` | ipc/bus1/util/queue.c:419-422 | `more` is true exactly if another entry of the transaction is queued, staged or not |
| `Ordering.MoreIsExact` | ipc/bus1/util/queue.c:419-422 | absent joins that tie with an entry peeked as the last one, and discards that take the last sibling of one handed out with `more`, that flag was given exactly if the next entry handed out was of the same transaction |
| `Ordering.LastIsFinal` | ipc/bus1/util/queue.c:419-422 | absent joins that tie with an entry peeked as the last one, nothing of a transaction follows an entry handed out without `more` |
| `Ordering.TieJoinBreaksMore` | ipc/bus1/util/queue.c:346-355 | a late join adds a sibling to an entry peeked as the last one exactly on the tie branch |
| `Ordering.Causality` | ipc/bus1/tx.c:318-335 | a transaction that stages on, or is sealed by, a destination of a committing transaction gets a strictly greater timestamp |
| `Ordering.CauseBeforeEffect` | ipc/bus1/util/queue.h:31-40 | so every queue hands out the cause before the effect |
| `Ordering.MemberStamp` | ipc/bus1/tx.c:305-316 | a staging timestamp is below, a commit timestamp equal to, the transaction's timestamp |
| `Ordering.DestructionIsOrdered` | ipc/bus1/handle.c:603-642 | a message being received sees a handle live exactly if its timestamp does not exceed the commit timestamp of the destroying transaction, however far that has got |
| `Ordering.LiveUntilCommitted` | ipc/bus1/handle.c:621-642 | at any timestamp, a handle is live until its notification is committed at its holder, and from then on exactly up to the commit timestamp |
| `Ordering.MessagesBeforeNotification` | ipc/bus1/handle.h:53-60 | every message dequeued before the notification has a timestamp at which the handle is live |
| `Sending.StepGives` | ipc/bus1/tx.c:130-180 | no action takes a node from a transaction, and only staging, postponing and joining in time give it one |
| `Sending.SealedMembers` | ipc/bus1/tx.c:290-316 | over every run, the nodes of a sealed transaction are exactly those it was given, the postponed ones included |
| `Sending.GivenArrives` | ipc/bus1/tx.c:272-360 | whatever a transaction was given arrives at its destination under the one commit key, once, when the transaction is committed |
| `Sending.UnicastArrives` | ipc/bus1/util/queue.c:311-318 | a unicast arrives at once, under a timestamp beyond the clock |
| `Sending.OriginIsSynced` | ipc/bus1/tx.c:305-316 | the clock of the origin has reached the timestamp of everything it sealed |
| `Sending.SenderOrder` | ipc/bus1/tx.c:305-316 | transactions of one sender get ascending timestamps and come out of every queue in the order they were sealed |
| `Sending.PendingWasPeeked` | ipc/bus1/util/queue.c:407-445 | what is about to be removed was the front when it was peeked, and its flag told then whether a sibling was queued |
| `Joining.LateJoin` | ipc/bus1/tx.c:182-270 | a join is staged while the transaction is open; later it carries the exact commit key or leaves the entries alone, with the clock synced either way |
| `Joining.LateJoinIsOrdered` | ipc/bus1/tx.c:200-206 | after a late join, accepted or not, whatever is staged on the destination or sealed by it gets a timestamp above the joined transaction's |
| `Joining.SyntheticIsLeftmost` | ipc/bus1/util/queue.c:346-355 | an accepted late join becomes leftmost exactly on the tie branch |
| `Joining.JoinedBehindFront` | ipc/bus1/tx.c:212-270 | a join that does not tie leaves the front in place |
| `Joining.FrontStays` | ipc/bus1/util/queue.c:200-207 | nothing is ever staged or committed in front of an entry that is ready, except by a tie join |
| `Joining.CommitPassesGuards` | ipc/bus1/util/queue.c:153-164 | in every run a commit passes all guards and moves exactly its node from a lower staging key to the commit key |
| `Receiving.StepMisleadsNobody` | ipc/bus1/peer.c:971-973 | with notifications removed in the section that peeks them, no late join ties with an entry about to be removed |
| `Receiving.BusMisleadsNobody` | ipc/bus1/peer.c:925-980 | so it is in every run in which only transactions are joined whose entries are removed that way |
| `Receiving.BusMoreIsExact` | ipc/bus1/peer.c:925-980 | in every such run an entry without `more` is the last one of its transaction, and absent discards that take the last sibling of one handed out with `more`, the flag is exact |
| `Receiving.WrongFlag` | ipc/bus1/util/queue.c:346-355 | a run in which an entry peeked as the last one is followed by another one of its transaction, because a join tied with it before it was removed |
| `Receiving.CutContinuation` | ipc/bus1/peer.c:953-969 | a run of the bus in which an entry with `more` is followed by another transaction, because its sibling was discarded |
| `TxCommit.ForeignStep` | ipc/bus1/tx.c:222-241 | other threads can only add async nodes to an open transaction and cannot touch a sealed one |
| `TxCommit.SyncsBeforeCommits` | ipc/bus1/tx.c:318-357 | in such a sequence of steps every sync precedes every commit, and no node is synced or committed twice |
| `TxCommit.World.StageRound` | ipc/bus1/tx.c:290-303 | the stage round ends with nothing postponed and every postponed node staged into the transaction; the steps of its thread stage each once, in list order |
| `TxCommit.World.AcquireTimestamp` | ipc/bus1/tx.c:305-316 | one sealing step, and the timestamp is strictly above every staging timestamp used |
| `TxCommit.World.SyncPass` | ipc/bus1/tx.c:327-335 | the steps of its thread in one pass sync every node from the cursor on, once, in list order |
| `TxCommit.World.SyncRound` | ipc/bus1/tx.c:318-340 | the loop ends; its steps sync the nodes staged first and, after one splice, those that joined, once each |
| `TxCommit.World.CommitRound` | ipc/bus1/tx.c:342-357 | its steps commit every node of the list once, in order, and the list ends empty |
| `TxCommit.World.Commit` | ipc/bus1/tx.c:272-360 | among any steps of other threads commit ends, with empty lists; the steps its thread took in the run are exactly: stage the postponed nodes, seal, sync every node of the transaction once, commit every one once; everything the transaction was given, staged or postponed, has the returned timestamp; a sealed transaction is left alone |
| `TxCommit.AllCommitted` | ipc/bus1/tx.h:86-100 | with empty lists, every node of the transaction carries the commit key |
| `TxCommit.PostponedIsCommitted` | ipc/bus1/tx.c:165-180 | a run in which a node is given only by postponing it, and the commit stamps it at its destination |
| `HandleSpec.GetConserves` | ipc/bus1/handle.h:206-211 | taking an object reference conserves references |
| `HandleSpec.PutConserves` | ipc/bus1/handle.h:224-229 | dropping one does, also when it frees a remote and thereby the anchor |
| `HandleSpec.LastReference` | ipc/bus1/handle.c:39-50 | a handle freed by its last reference has no link, weak reference, identifier or notification, and an anchor no remotes |
| `HandleSpec.PutOnlyRefs` | ipc/bus1/handle.c:35-50 | dropping references frees only handles that nothing pins and changes nothing else |
| `HandleSpec.PutSpares` | ipc/bus1/handle.h:213-229 | a handle with another caller's reference survives |
| `HandleSpec.PutBack` | ipc/bus1/handle.c:490-494 | dropping a reference that came from a pin costs no caller a reference or a handle |
| `HandleSpec.RepinConserves` | ipc/bus1/handle.c:376-388 | a reference passing between a caller and a pin is conserved |
| `HandleSpec.FlushReleaseKeeps` | ipc/bus1/handle.c:201-218 | taking the notification back unqueues it and conserves its reference |
| `HandleSpec.QueueReleaseKeeps` | ipc/bus1/handle.c:161-199 | queuing the notification at strong count zero keeps the invariants, and at most one is queued |
| `HandleSpec.SpliceConserves` | ipc/bus1/handle.c:288-311 | linking a remote and joining a destruction takes exactly the references they pin |
| `HandleSpec.AttachRemoteKeeps` | ipc/bus1/handle.c:360-385 | attaching a remote keeps the map exact |
| `HandleSpec.DetachRemoteKeeps` | ipc/bus1/handle.c:476-494 | detaching a remote keeps the map exact and passes on both references |
| `HandleSpec.DropLinkConserves` | ipc/bus1/handle.c:449-456 | clearing a link drops the reference it held and nothing the anchor's caller holds |
| `HandleSpec.NewRemoteKeeps` | ipc/bus1/handle.c:89-107 | a new remote pins the anchor |
| `HandleSpec.AddStrongKeeps` | ipc/bus1/handle.c:390-393 | after a strong acquisition no release notification is queued |
| `HandleSpec.SubStrongKeeps` | ipc/bus1/handle.c:484-499 | the last strong release queues it, on a live node |
| `HandleSpec.MarkDestroyedKeeps` | ipc/bus1/handle.c:561-572 | destruction takes a queued release notification back and costs nobody a handle, provided something else holds the anchor |
| `HandleSpec.StagedKeeps` | ipc/bus1/handle.c:574-600 | staging a notification pins its handle |
| `HandleSpec.UnpinnedKeeps` | ipc/bus1/handle.c:768-787 | removing a notification or identifier hands its reference to the remover |
| `Handles.Node.constructor` | ipc/bus1/handle.c:60-76 | a new anchor satisfies all invariants |
| `Handles.Node.AddRemote` | ipc/bus1/handle.c:89-107 | a new remote has the given holder and one reference for its creator, pins the anchor, and changes nothing else |
| `Handles.Node.TrySplice` | ipc/bus1/handle.c:267-314 | a second remote of a holder is reported with a reference to the first; else it is linked and tries once to join |
| `Handles.Node.TakeWeak` | ipc/bus1/handle.c:348-388 | a weak reference to the handle, or the exchange for the one in the map, which drops the caller's reference to the handle and frees it if that was the last one; the warning trips exactly if the one in the map had other than one weak reference; a handle newly attached to a node being destroyed has a pending notification exactly if its holder is active, it had not tried before and the join succeeds, and is marked as having tried |
| `Handles.Node.AcquireLocked` | ipc/bus1/handle.c:316-396 | the handle that ends up acquired is the one its holder has in the map, and its counts go up by what was asked; a reference given up in exchange is dropped, nobody else gains or loses one; notifications change exactly by the one try to join; the warning trips exactly if the handle in the map is another one and had other than one weak reference |
| `Handles.Node.ClearMap` | ipc/bus1/handle.c:449-457 | every remote leaves the map with exactly the reference of its link; no caller loses a handle |
| `Handles.Node.DropAnchor` | ipc/bus1/handle.c:443-459 | releasing the anchor empties the map, takes the notification back and marks the node released |
| `Handles.Node.ReleaseLocked` | ipc/bus1/handle.c:430-500 | counts go down by what was asked, with or without an object reference of the releaser; the handle is freed only with its last weak reference and if no caller has a reference; the node is released exactly with the anchor's last weak one; after a strong release of a live node the notification is queued exactly if the strong count is zero |
| `Handles.Node.DestroyLocked` | ipc/bus1/handle.c:538-601 | the anchor and exactly the attached remotes with an active holder have a pending notification, no reference of a caller changes, and a second call changes nothing; the anchor must be held by something other than its notification, such as its identifier |
| `Handles.Node.DropPin` | ipc/bus1/peer.c:953-976 | a dequeued notification, or a forgotten identifier, gives up its reference and its mark; the handle is freed exactly if that was its last reference, and no caller loses anything |
| `Handles.Node.Export` | ipc/bus1/handle.c:745-765 | the handle is linked under its identifier, with one more reference if it was not before |
| `Handles.DropConflict` | ipc/bus1/handle.c:368-373 | giving up the conflicting handle keeps the one in the map alive and attached |
| `Handles.ExchangeTrades` | ipc/bus1/handle.c:368-373 | it drops exactly the caller's reference to the given-up handle, which is freed exactly if that was the last one |
| `HandleRuns.AnyStep` | ipc/bus1/handle.c:161-601 | any operation or atomic part of one, on any handle, keeps the invariants and every reference another thread has |
| `HandleRuns.AnyRun` | ipc/bus1/handle.c:161-601 | after any sequence of such steps references are conserved, the map is exact, a release notification implies strong count zero on a live node, every strong reference has a weak one, the strong count does not fall short, and with the anchor all strong references are gone |
| `HandleRuns.AnchorIsUnused` | ipc/bus1/handle.c:35-50 | an anchor freed by its last reference has no weak or strong references and no remotes; its strong count is exactly the excess |
| `HandleRuns.ConflictWithMany` | ipc/bus1/handle.c:368-373 | a run in which the handle in the map has n + 1 weak references when a second one gives way to it, for any n, and the warning trips unless n is 0 |
| `HandleThreads.AcquireSlow` | ipc/bus1/handle.h:252-255 | among any steps of other threads the slow path returns the very handle, and giving the first weak reference back leaves one: neither warning trips |
| `HandleThreads.Acquire` | ipc/bus1/handle.h:245-259 | among any steps of other threads between its atomic operations, an acquisition ends with the references it asked for; the strong count gains an excess exactly on the fast path without strong; left alone it takes exactly one weak reference, to the handle in the map |
| `HandleThreads.Release` | ipc/bus1/handle.h:272-283 | among any steps of other threads a release never touches references of others and needs only those it drops; left alone it has the effect of the locked release, and the last strong one on a live node leaves the notification queued exactly if there was no excess |
| `HandleThreads.Lower` | ipc/bus1/handle.h:300-306 | among any steps of other threads neither subtraction leaves a count below one, so neither warning trips |
| `HandleThreads.ReleaseN` | ipc/bus1/handle.h:297-310 | the same for n references at once, to the effect of n releases |
| `HandleThreads.Oversubscribed` | ipc/bus1/handle.h:250-253 | a run in which the strong count exceeds the one strong reference by any given number |
| `HandleThreads.MissedNotification` | ipc/bus1/handle.h:48-51 | then the last strong reference goes without a notification, unless that number is 0 |
| `HandleThreads.FreedWithStrong` | ipc/bus1/handle.c:35-50 | and the anchor is freed with a strong count of that number |
| `HandleIds.KernelIdsRepeat` | ipc/bus1/handle.c:713-718 | two assigned identifiers are equal exactly if the counters agree modulo 2^61 and the kinds agree |
| `HandleIds.KernelIdIsManaged` | ipc/bus1/handle.c:713-718 | an assigned identifier is neither the invalid one nor one a user can choose |
| `HandleIds.KernelIdFlags` | ipc/bus1/handle.c:713-718 | an assigned identifier is the counter with the managed flag, and the remote flag exactly for remote handles |
| `HandleIds.UserChosenMeans` | ipc/bus1/handle.c:684-685 | the user may choose exactly the identifiers with neither flag |
| `HandleIds.Namespace.NeverInvalid` | ipc/bus1/handle.c:684-692 | no handle ever has the invalid identifier |
| `HandleIds.Namespace.Import` | ipc/bus1/handle.c:660-698 | a known identifier gives its handle, an unknown one a new anchor or, if flagged, an error; the table stays injective |
| `HandleIds.Namespace.Identify` | ipc/bus1/handle.c:708-721 | a new identifier was never assigned before; it is managed, and has the remote flag exactly if the handle is not an anchor |
| `HandleIds.Namespace.Export` | ipc/bus1/handle.c:732-766 | the handle is found under its identifier, and no other handle loses its entry |
| `HandleIds.Namespace.Forget` | ipc/bus1/handle.c:768-807 | exactly the handle's entry and identifier go, unless it is public or unlinked |
| `HandleIds.AnyStep` | ipc/bus1/handle.c:660-807 | an operation on any handle keeps the entry of an exported one it does not forget, and assigns and revives no identifier that was assigned before |
| `HandleIds.ImportAfterExport` | ipc/bus1/handle.c:660-807 | after any operations other than forgetting it, an exported handle is found under its identifier; no identifier is assigned twice in the run |
| `HandleIds.ImportAfterForget` | ipc/bus1/handle.c:660-807 | once forgotten, an identifier of the kernel leads nowhere, after any further operations |
| `PoolSpec.PlacingTiles` | ipc/bus1/util/pool.c:290-298 | a slice placed into a gap leaves the pool tiled |
| `PoolSpec.PlacedInFront` | ipc/bus1/util/pool.c:290-298 | the slice takes the front of the gap, the rest of the gap is now its own, and no other slice changes |
| `PoolSpec.RemovedMerges` | ipc/bus1/util/pool.c:332-338 | a removed slice and its gap go to the gap before it, and no other slice changes |
| `PoolSpec.RemovingTiles` | ipc/bus1/util/pool.c:332-338 | merging a slice into the gap before it leaves the pool tiled |
| `PoolSpec.EndsFit` | ipc/bus1/util/pool.c:91-93 | no slice or gap exceeds the 32-bit range |
| `PoolSpec.NoOverlap` | ipc/bus1/util/pool.c:84-111 | slices and their gaps never overlap |
| `PoolSpec.Conservation` | ipc/bus1/util/pool.c:235-247 | allocated and free bytes add up to the pool |
| `PoolSpec.PlacingAddsSize` | ipc/bus1/util/pool.c:75 | the sum of sizes grows by the placed size |
| `PoolSpec.RemovingDropsSize` | ipc/bus1/util/pool.c:329-330 | and shrinks by the removed one, never below zero |
| `Pool.ErasedIndex` | ipc/bus1/util/pool.c:324-334 | erasing a slice leaves a sorted index of exactly the others |
| `Pool.InsertedIndex` | ipc/bus1/util/pool.c:37-48 | linking at the slot of a descent leaves a sorted index of exactly one more |
| `Pool.Link` | ipc/bus1/util/pool.c:29-76 | any path down either tree ends at such a slot |
| `Pool.FirstFitIsBest` | ipc/bus1/util/pool.c:113-134 | the first sufficient gap in the index is a smallest sufficient gap |
| `Pool.Align8` | ipc/bus1/util/pool.c:281 | a size is rounded up to the next multiple of 8, and to 0 if the 64-bit sum wraps |
| `Pool.PlacedKeys` | ipc/bus1/util/pool.c:99-105 | how placing a slice changes what the two indexes must hold |
| `Pool.RemovedKeys` | ipc/bus1/util/pool.c:324-336 | how removing one does |
| `Pool.Pool.constructor` | ipc/bus1/util/pool.c:197-205 | a new pool is the single root slice |
| `Pool.Pool.FindFree` | ipc/bus1/util/pool.c:113-134 | returns a smallest sufficient gap, and none only if none suffices |
| `Pool.Pool.FindPublished` | ipc/bus1/util/pool.c:145-167 | returns exactly the published slice at the offset, if there is one |
| `Pool.Pool.LinkSlice` | ipc/bus1/util/pool.c:99-105 | both indexes hold exactly what the list with the new slice asks for |
| `Pool.Pool.UnlinkSlice` | ipc/bus1/util/pool.c:324-336 | likewise for the list without the slice |
| `Pool.Pool.Place` | ipc/bus1/util/pool.c:290-300 | the range check passes for every gap that was found |
| `Pool.Pool.Merge` | ipc/bus1/util/pool.c:324-338 | tiling, indexes and allocated size stay consistent |
| `Pool.Pool.Alloc` | ipc/bus1/util/pool.c:271-303 | each error exactly under its condition: in use, size 0 or above the largest multiple of 8 in 32 bits, or no gap that suffices; success gives at least the bytes asked for and less than 8 more, at the front of a smallest sufficient gap |
| `Pool.Pool.Dealloc` | ipc/bus1/util/pool.c:305-343 | a published slice is refused, an unallocated one ignored, any other one merged into the gap before it |
| `Pool.Pool.Flush` | ipc/bus1/util/pool.c:383-401 | hands over exactly the published slices of the pool, once each, and unpublishes them |
| `Pool.Pool.FreeAll` | ipc/bus1/util/pool.c:235-247 | freeing everything in any order restores the pool as created |
| `Active.StepKeeps` | ipc/bus1/util/active.c:159-354 | every atomic operation keeps the encoding |
| `Active.BiasFits` | ipc/bus1/util/active.c:184-193 | deactivation makes the counter negative exactly within the limit |
| `Active.CounterDecodes` | ipc/bus1/util/active.c:17-43 | over every interleaving the counter decodes to the life cycle state and the true number of references, and the state predicates tell them |
| `Active.RunLater` | ipc/bus1/util/active.h:20-33 | the life cycle only moves forward, and after deactivation references are only given back |
| `Active.AcquireOnlyWhileActive` | ipc/bus1/util/active.h:102-126 | an acquire succeeds exactly between activation and deactivation |
| `Active.CleanupRunsOnce` | ipc/bus1/util/active.c:251-354 | the callback starts at most once, and from then on no reference is held |
| `Active.CleanupStartsDrained` | ipc/bus1/util/active.c:302-322 | it starts deactivated, with no reference outstanding |
| `Active.DeactivateWinsOnce` | ipc/bus1/util/active.c:165-196 | at most one deactivate call succeeds |
| `Active.ActivateWorks` | ipc/bus1/util/active.c:159-163 | an activate call on a new object activates it and on any other changes nothing |
| `Active.DeactivateWorks` | ipc/bus1/util/active.c:175-196 | each step of a deactivate call: it deactivates a new object, reads the number of references of an active one, and deactivates that if the number is unchanged, else tries again |
| `Active.DeactivateReturns` | ipc/bus1/util/active.c:165-196 | a deactivate call returns only once the object is deactivated |
| `Active.CleanupDecides` | ipc/bus1/util/active.c:302-322 | whoever gets to the right exchange first starts the callback, whether the object was ever active or not; the others wait for one that was started |
| `Active.CleanupReturns` | ipc/bus1/util/active.c:277-354 | a cleanup call on a drained object returns only once the callback has run, exactly once, unless it skips the wait |
| `Active.CleanupCompletes` | ipc/bus1/util/active.c:321-338 | a callback that was started and that no thread is running any more has finished and is marked as done, so whoever waits may go on |
| `Flist.SlotsAreDistinct` | ipc/bus1/util/flist.h:26-35 | the batches of a list give distinct slots, all within their batch |
| `Flist.ChainedCons` | ipc/bus1/util/flist.c:105-110 | a chain is its first batch and the chain its link leads to |
| `Flist.FreeChain` | ipc/bus1/util/flist.c:96-116 | every batch is released once, its link is read before that, and no missing link is followed |
| `Flist.Free` | ipc/bus1/util/flist.c:96-116 | a complete or partial list is released entirely |
| `Flist.New` | ipc/bus1/util/flist.c:55-83 | with enough memory the batches are complete, else all that were allocated are released |
| `Flist.InitInline` | ipc/bus1/util/flist.h:100-106 | an initialised list has nothing allocated beside the embedded batch |
| `Flist.Populate` | ipc/bus1/util/flist.c:28-44 | for every n, the embedded batch and the allocated ones form a complete list, or nothing is left allocated and the list can be deinitialised |
| `Flist.DeinitInline` | ipc/bus1/util/flist.h:117-124 | releases exactly what was allocated beside the embedded batch, also for a list only initialised, not populated for lack of memory, or released before |
| `Flist.CompleteCons` | ipc/bus1/util/flist.h:81-85 | an embedded full batch completes a list that is one batch shorter |
| `Flist.Next` | ipc/bus1/util/flist.h:152-156 | advances by a slot and follows the link exactly at the end of a batch |
| `Flist.Iterate` | ipc/bus1/util/flist.h:126-156 | slot-wise iteration visits the flat array in order |
| `Flist.Walk` | ipc/bus1/util/flist.h:182-200 | the next piece is a batch or the rest, and no link is read at the ends |
| `Flist.WalkAll` | ipc/bus1/util/flist.h:158-200 | the batches of a walk, concatenated, are the same flat array |

## Left out

- Queue.Queue.Add: queue nodes are values named by address, so aliasing of the intrusive links is not captured; the node's own timestamp is passed in.
- Queue.Queue.Stage: timestamps are unbounded; the 62-bit width and the type bits that share the field are not modelled.
- TxCommit.World.Commit: the lists are sequences rather than chained nodes, and the release of the destination peer after each commit is left out.
- Ordering.ConsistentOrder: every transaction has a group tag of its own and every (re-)initialised node an address of its own; reuse of freed stack frames and memory is not modelled.
- Handles.Node.AcquireLocked: the owner is active and its anchor attached whenever remotes are acquired or released; with a deactivated owner remotes stay linked until the owner is cleaned up.
- HandleIds.Namespace.Identify: called within the first 2^61 assignments of a peer; beyond that `HandleIds.KernelIdsRepeat` tells which identifiers repeat.
- Handles.Node.DestroyLocked: the order in which the remotes enter the transaction is not captured.
- Active.CounterDecodes: the wait for drained references is not modelled; it only delays the cleanup call.
- Looking up the handle a peer holds to a node (ipc/bus1/handle.c:234-265), and allocation failures of handles.
- Wake-ups, RCU, memory barriers, lockdep annotations and the balancing of trees.
- ipc/bus1/peer.c and ipc/bus1/main.c beyond the steps of receiving and flushing: argument copying and dispatch.
- ipc/bus1/message.c beyond the liveness check of received handles: file and memory calls of the kernel.
- ipc/bus1/user.c: plain counters of charged resources.
- Mapping and writing of pool memory, and debugfs.
