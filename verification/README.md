# IPC exercises, modelled and proved

The repository holds exercise programs for UNIX inter-process communication. This project models those of
them that are concurrent data structures and protocols, one module for each:

| module | models |
|---|---|
| `QueueSpec` | a message queue as its callers see it, and what each stretch of `mq_send` and `mq_receive` does to it |
| `Arena`, `QueueLists`, `MessageQueue` | the memory-mapped queue of `my_pxmsg_mmp` on bytes: header, slots and two linked lists of byte offsets, proved to refine `QueueSpec` |
| `QueueBlocking` | any number of senders and receivers that sleep on the queue's one condition variable |
| `QueueRuns` | runs of that protocol carried out on the bytes |
| `QueueOpening` | calls of `mq_open` that race to create, initialise and open the queue's file |
| `RwLock` | the reader/writer lock of `mutex/my_rwlock` |
| `ProdCons4`, `MyCat2`, `ProdCons6` | bounded buffers with semaphores (`pxsem`) and with a condition variable (`mutex`) |
| `Semaphore` | the semaphore of `pxsem/my_pxsem_mmap` |
| `ClientServer` | many clients and a file server on one System V message queue (`svmsg/svmsgcliserv`) |
| `ClientServerRoom` | the same on a queue with bounded room |
| `SequenceFile` | the number in a file that is incremented under a lock file (`lock`) |
| `SvSemLock` | the self-initialising System V semaphore lock (`svsem/locksvsem.c`) |
| `Text`, `Sums`, `Basics` | the C library's text conversions; sums over threads; shared types |

How the protocols are modelled. A state holds the shared variables and where each thread stands, for any
number of threads. A step is one stretch of code that nothing can interrupt: what is done between taking a
mutex and releasing it or going to sleep; or one system call. `Enabled` says who can take which step, `Apply`
what it does, a run is any legal sequence of steps. Each module first proves an invariant of every step, then
results about all runs. Mutable structures are classes (`MessageQueue.MqInfo` works in place on the file's
bytes); their methods are proved to do what `Apply`, or the specification in `QueueSpec`, says. Proofs by
induction are written out; where Dafny would induct by itself, `{:induction false}` switches that off.

Where a wished-for property does not hold, the module proves exactly when it does: lost wake-ups
(`QueueBlocking.NeverStrandsIffAtMostTwo`, `Semaphore.NeverStrandsIffSafeUse`), missing notifications
(`QueueBlocking.NeverSilentIffNoPair`), waiters that are never served and readers that starve
(`RwLock.EveryWaiterServed`, `RwLock.StarvesIffTwoThreads`), hanging programs
(`ProdCons4.NeverHangsIffBalanced`, `ProdCons6.NeverHangsIffProduced`), descriptors of a file that was replaced
(`QueueOpening.AlwaysGoodIffNoRisk`), locks entered after a time-out (`SvSemLock.ExclusiveIffInitialised`),
files that do not arrive whole (`ClientServer.WholeFileIffText`), clients and a server that block each other
(`ClientServerRoom.NeverDeadlocksIffRoomForAll`).

To verify the whole project: `dafny verify dfyconfig.toml`.

## Model

| member | source | states |
|---|---|---|
| QueueSpec.InsertAt | my_pxmsg_mmp/mq_send.c:81-102 | inserting a message puts it behind any prefix of at least its priority that is followed by a message of less, which is where the walk of the source stops |
| QueueSpec.InsertSplits | my_pxmsg_mmp/mq_send.c:84-95 | on a queue in descending priority there is one such place: everything in front has at least the new priority, everything behind has less |
| QueueSpec.InsertSorted | my_pxmsg_mmp/mq_send.c:81-102 | insertion keeps the queue in descending priority |
| QueueSpec.InsertStable | my_pxmsg_mmp/mq_send.c:81-102 | for every priority, insertion appends to the messages of that priority and leaves those of the others as they are |
| QueueSpec.AccountsSend | my_pxmsg_mmp/mq_send.c:71-108 | a send extends, for every priority, the account "sent = received followed by queued, in order" |
| QueueSpec.AccountsReceive | my_pxmsg_mmp/mq_receive.c:63-80 | a receive keeps that account: what comes out is the oldest of the highest priority |
| QueueSpec.Conservation | my_pxmsg_mmp/mq_receive.c:57-80 | the multiset sent is the multiset received plus the multiset still queued |
| QueueSpec.Answers | my_pxmsg_mmp/mq_send.c:31-108 | when mq_send and mq_receive refuse, sleep or succeed, and with what: too long exactly beyond mq_msgsize, EAGAIN exactly with O_NONBLOCK on a full or empty queue, otherwise a sleep or the stable insertion or the first message, with signal, notification and waiter count |
| QueueSpec.ServeAccounts | my_pxmsg_mmp/mq_send.c:31-108 | one non-blocking call of either kind, successful or refused, keeps the account, the bound maxmsg, the sizes and the count of waiting receivers |
| QueueSpec.ReplayAccounts | my_pxmsg_mmp/mq_receive.c:32-83 | over every sequence of non-blocking calls on an empty queue, what went in is, priority by priority, what came out followed by what is queued |
| Arena.MsgSizeIsLeastMultiple | my_pxmsg_mmp/mqueue.h:47 | MSGSIZE is the least multiple of the word size not below its argument |
| Arena.SlotLayout | my_pxmsg_mmp/mq_open.c:66-109 | the computed file size ends the last slot; all slots are aligned, inside the file, pairwise disjoint, and have room for a header and msgsize bytes |
| Arena.EncodeDecode | my_pxmsg_mmp/mqueue.h:13-33 | a number stored in n bytes reads back, for every number that fits |
| Arena.StoreMisses | my_pxmsg_mmp/mq_send.c:71-75 | a store outside a slot leaves every byte of that slot alone |
| Arena.HeaderStore | my_pxmsg_mmp/mq_send.c:39-108 | a store into the header changes no slot |
| Arena.SlotStore | my_pxmsg_mmp/mq_send.c:71-75 | a store into one slot changes neither the header nor any other slot |
| QueueLists.StoreInHeader | my_pxmsg_mmp/mqueue.h:13-23 | storing a header field changes that field alone |
| QueueLists.StoreInSlot | my_pxmsg_mmp/mqueue.h:26-33 | storing a field of a slot changes that field of that slot alone |
| QueueLists.StorePayload | my_pxmsg_mmp/mq_send.c:74 | copying a message that fits changes the payload of its own slot and nothing else in the file |
| QueueLists.SlotRead | my_pxmsg_mmp/mq_receive.c:63-68 | the fields read at a slot's addresses are those of the slot |
| QueueLists.CountsAddUp | my_pxmsg_mmp/mq_open.c:98-109 | the lengths of the two lists add up to mq_maxmsg |
| QueueLists.MetOnce | my_pxmsg_mmp/mq_open.c:98-109 | neither list meets a slot twice: both are acyclic |
| QueueLists.NotShared | my_pxmsg_mmp/mq_open.c:98-109 | the two lists share no slot |
| QueueLists.EverySlotListed | my_pxmsg_mmp/mq_open.c:98-109 | every slot is on exactly one of the lists, and the free list has mq_maxmsg - mq_curmsgs slots |
| QueueLists.WalkIsMessages | my_pxmsg_mmp/mq_send.c:84-95 | following the byte offsets from mqh_head for at most mq_maxmsg steps ends and meets exactly the messages of the list |
| QueueLists.SentMessagesLinked | my_pxmsg_mmp/mq_send.c:84-102 | after the stores of a send the offsets from mqh_head visit the old messages with the new slot at its place |
| QueueLists.SentFreeLinked | my_pxmsg_mmp/mq_send.c:75 | ... and those from mqh_free visit the old free list without its first slot |
| QueueLists.SendKeepsRep | my_pxmsg_mmp/mq_send.c:71-108 | a send keeps every slot on exactly one list, the counts and the lengths, and inserts the message at the place of its slot |
| QueueLists.ReceivedMessagesLinked | my_pxmsg_mmp/mq_receive.c:63-64 | after the stores of a receive the offsets from mqh_head visit the old messages without the first |
| QueueLists.ReceivedFreeLinked | my_pxmsg_mmp/mq_receive.c:71-72 | ... and those from mqh_free visit the freed slot and then the old free list |
| QueueLists.ReceiveKeepsRep | my_pxmsg_mmp/mq_receive.c:63-80 | a receive keeps every slot on exactly one list and removes the first message, leaving the others byte for byte |
| MessageQueue.QueueHeld | my_pxmsg_mmp/mq_send.c:81-108 | the queue read from the bytes by walking is the list of messages the slots hold; mq_curmsgs is its length |
| MessageQueue.Memcpy | my_pxmsg_mmp/mq_send.c:74 | the byte-by-byte copy loop is the patch of the whole range and touches nothing else |
| MessageQueue.StoreNext | my_pxmsg_mmp/mq_send.c:89-90 | a store through a pointer to a slot or to mqh_head itself changes the link of that slot, or the head, and nothing else |
| MessageQueue.WriteHeader | my_pxmsg_mmp/mq_open.c:91-99 | the header holds the attributes, no messages, and the first slot as head of the free list |
| MessageQueue.ThreadFreeList | my_pxmsg_mmp/mq_open.c:101-109 | the loop links each slot to the next and ends the list at the last slot |
| MessageQueue.FreshRep | my_pxmsg_mmp/mq_open.c:91-109 | a file so initialised has every slot on the free list exactly once and no message |
| MessageQueue.Initialise | my_pxmsg_mmp/mq_open.c:65-109 | the creator lays out a file of exactly the computed size that holds an empty queue with its attributes |
| MessageQueue.Create | my_pxmsg_mmp/mq_open.c:53-140 | mq_open by the creator fails exactly for attributes that are not positive; otherwise it returns a descriptor of an empty queue with the given attributes, or for 128 messages of 1024 bytes |
| MessageQueue.MqInfo.Fill | my_pxmsg_mmp/mq_send.c:71-74 | the new message is in its slot and every other slot and the header are as before |
| MessageQueue.MqInfo.TakeFree | my_pxmsg_mmp/mq_send.c:65-75 | with room on the queue the free list is not empty (the "free = 0" return is dead code); its first slot is filled and taken off |
| MessageQueue.MqInfo.FindPlace | my_pxmsg_mmp/mq_send.c:81-95 | the walk ends, at the first message of lower priority or at the end, with the address of the link that leads there: a slot, or mqh_head treated as one |
| MessageQueue.MqInfo.LinkIn | my_pxmsg_mmp/mq_send.c:87-102 | both ways of linking the slot in (in the loop, or behind it at the end) come to the same two stores |
| MessageQueue.MqInfo.InsertMessage | my_pxmsg_mmp/mq_send.c:64-102 | slot taken, filled and linked: the records are those of the list with the message inserted where stable descending order has it |
| MessageQueue.MqInfo.Put | my_pxmsg_mmp/mq_send.c:64-108 | on the bytes, a send with room is stable priority insertion, and it signals exactly when the queue was empty |
| MessageQueue.MqInfo.Notify | my_pxmsg_mmp/mq_send.c:39-47 | the registered process is told and unregistered exactly when no receiver is blocked, and nothing else of the queue changes |
| MessageQueue.MqInfo.Send | my_pxmsg_mmp/mq_send.c:15-116 | a stretch of mq_send on the bytes: TooLong exactly for more than mq_msgsize bytes, SendAgain exactly on a full queue with O_NONBLOCK, a sleep on a full one without, else Sent, with the message inserted and the registered process told; only a bad descriptor fails otherwise; the file stays valid |
| MessageQueue.MqInfo.GiveBack | my_pxmsg_mmp/mq_receive.c:63-80 | the first slot moves from the message list to the front of the free list; a signal goes out exactly when the queue was full |
| MessageQueue.MqInfo.Take | my_pxmsg_mmp/mq_receive.c:57-80 | on the bytes, a receive returns the first message with its exact bytes, length and priority and removes it (the "head = 0" return is dead code) |
| MessageQueue.MqInfo.CountWaiter | my_pxmsg_mmp/mq_receive.c:48-54 | mqh_nwait goes up and down by one around the wait and nothing else changes |
| MessageQueue.MqInfo.Receive | my_pxmsg_mmp/mq_receive.c:15-87 | a stretch of mq_receive on the bytes: BufferTooShort exactly for less than mq_msgsize, ReceiveAgain exactly on an empty queue with O_NONBLOCK, a sleep on an empty one without, else the first message, which is gone; the file stays valid |
| MessageQueue.SentFile | my_pxmsg_mmp/mq_send.c:71-108 | if the records after a send are those of the list with the slot inserted, the walked queue is the old one with the message inserted |
| MessageQueue.ReceivedFile | my_pxmsg_mmp/mq_receive.c:63-80 | if the records after a receive are those without the first slot, the walked queue is the old one without its first message |
| MessageQueue.RunCalls | my_pxmsg_mmp/mq_receive.c:15-87 | any sequence of non-blocking calls on a newly created file gives the replies and the queue of the plain sequence, with its order and conservation |
| QueueBlocking.StepInv | my_pxmsg_mmp/mq_send.c:37-110 | each stretch of either call by any thread, and each spurious wake-up, keeps the bound, the account of messages and mqh_nwait equal to the number of receivers in the wait loop |
| QueueBlocking.QueueOverRuns | my_pxmsg_mmp/mq_receive.c:38-83 | in every state any number of threads can reach: at most maxmsg messages, in descending priority; each priority comes out in the order it went in; nothing lost or invented; mqh_nwait counts the blocked receivers |
| QueueBlocking.TwoThreadsNeverMiss | my_pxmsg_mmp/mq_send.c:50-62 | with at most two threads a sleeping receiver means an empty queue and a sleeping sender a full one, so the two never sleep at once |
| QueueBlocking.ReceiverStrands | my_pxmsg_mmp/mq_send.c:104-106 | with a sender and two receivers there is, for every maxmsg, a run that leaves a receiver asleep on a queue with messages and nobody on the way |
| QueueBlocking.SenderStrands | my_pxmsg_mmp/mq_receive.c:74-78 | with two senders and a receiver there is, for every maxmsg, a run that leaves a sender asleep on a queue with room |
| QueueBlocking.NeverStrandsIffAtMostTwo | my_pxmsg_mmp/mq_send.c:104-106 | no interleaving loses a wake-up if and only if at most two threads use the queue or all of them are on one side |
| QueueBlocking.SenderSkipsTest | my_pxmsg_mmp/mq_send.c:37-62 | with a sender and a different receiver there is, for every maxmsg, a run in which a sender that slept puts a message into an empty queue, nobody waiting, and the registered process is not told |
| QueueBlocking.NeverSilentIffNoPair | my_pxmsg_mmp/mq_send.c:37-62 | with a registered process every message that goes into an empty queue with no blocked receiver notifies it, over all runs, if and only if no sender and receiver are different threads |
| QueueRuns.OpenQueue | my_pxmsg_mmp/mq_open.c:53-140 | a new file holds the empty queue with the registered process, mapped for both kinds of call |
| QueueRuns.SendStretch | my_pxmsg_mmp/mq_send.c:15-116 | a stretch of mq_send on the bytes does to queue and threads what the protocol says |
| QueueRuns.ReceiveStretch | my_pxmsg_mmp/mq_receive.c:15-87 | a stretch of mq_receive on the bytes does to queue, threads and received messages what the protocol says |
| QueueRuns.RunSteps | my_pxmsg_mmp/mq_send.c:15-116 | any legal run of any number of blocking and non-blocking callers, with sleepers and spurious wake-ups, carried out on the bytes of one file ends with exactly the queue, the threads and the messages of the protocol, in order and with nothing lost |
| QueueOpening.ImageFor | my_pxmsg_mmp/mq_open.c:65-109 | for all valid attributes there is a file that an initialisation leaves, as the protocol below assumes |
| QueueOpening.StepInv | my_pxmsg_mmp/mq_open.c:32-191 | every step of every call keeps: the name leads to the last file only; every other file was removed by a creator with bad attributes; a file whose user-execute bit is off is complete |
| QueueOpening.OneQueue | my_pxmsg_mmp/mq_open.c:32-191 | for any calls in any interleaving at most one file is ever initialised and it keeps its name; without the three calls below every descriptor maps that file, complete, to the size its creator computed |
| QueueOpening.Overtaken | my_pxmsg_mmp/mq_open.c:143-191 | a call that found the file of a failing creator maps it with the size of another one that has replaced it in between |
| QueueOpening.AlwaysGoodIffNoRisk | my_pxmsg_mmp/mq_open.c:32-213 | every descriptor ever returned is good if and only if there are no three different calls of which one creates with bad attributes, one creates with good ones and one may find a file |
| QueueOpening.RemainingDecreases | my_pxmsg_mmp/mq_open.c:32-191 | every step of a call brings a non-negative measure down, the jumps back to the start included: a call goes back only when a file has gone, and on from there only past a new one |
| QueueOpening.EveryCallEnds | my_pxmsg_mmp/mq_open.c:32-213 | for any calls in any interleaving, with any use of the returned queues in between, the number of their steps is bounded, and when no call can go on each has returned a queue or failed |
| QueueOpening.Directory.RunToTheEnd | my_pxmsg_mmp/mq_open.c:32-213 | under any scheduler all calls end; each that fails has one of the reasons below; without the three calls every descriptor returned is a good one of the file that has the name |
| QueueOpening.FailsIffRefused | my_pxmsg_mmp/mq_open.c:43-171 | a call fails at a step if and only if it must create and the name is taken, or creates with bad attributes, or finds no file and may not create one, or has its tenth look in vain |
| QueueOpening.FailureHasReason | my_pxmsg_mmp/mq_open.c:32-213 | in every run each failed call failed for such a reason, a tenth look coming after nine in a row that found the user-execute bit on |
| QueueOpening.FindsTheQueue | my_pxmsg_mmp/mq_open.c:143-191 | a call that finds a complete file and is not disturbed returns a good descriptor of it, mapped to its end |
| QueueOpening.SeesItComplete | my_pxmsg_mmp/mq_open.c:153-191 | so does a call that is already polling when its file gets complete |
| RwLock.HolderMayRelease | mutex/my_rwlock/pthread_rwlock_unlock.c:14-22 | a holder finds a positive count, with read locks only, or -1 with one write lock: the error exit that keeps the mutex is never taken |
| RwLock.StepInv | mutex/my_rwlock/pthread_rwlock_unlock.c:14-32 | every step of any thread keeps: refcount is -1 exactly for one writer and no reader, else the number of read locks; the wait counters count the wait loops; a free lock with waiting writers has a woken writer on its way; a reader sleeps only while a writer holds or waits |
| RwLock.NobodyStranded | mutex/my_rwlock/pthread_rwlock_unlock.c:14-32 | for any number of threads and any interleaving with spurious wake-ups: with no holder and no woken thread nobody sleeps; a writer excludes everybody |
| RwLock.QuietState | mutex/my_rwlock/pthread_rwlock_destory.c:9-10 | the quiescence test passes exactly when no thread holds the lock or is in a wait loop |
| RwLock.WritersGoFirst | mutex/my_rwlock/pthread_rwlock_rdlock.c:14-22 | as long as some writer waits, no reader gets a lock, over any run |
| RwLock.ReadersDoNotGrow | mutex/my_rwlock/pthread_rwlock_tryrdlock.c:14-17 | no step of any kind adds a read lock while a writer waits |
| RwLock.DrainBoundDecreases | mutex/my_rwlock/pthread_rwlock_unlock.c:24-30 | each release and each resumption brings a bounded measure down |
| RwLock.DrainedWhenStuck | mutex/my_rwlock/pthread_rwlock_unlock.c:24-30 | when no holder is left to release and no woken thread to resume, nobody waits and nobody holds if and only if no thread waits while it holds |
| RwLock.NeverServed | mutex/my_rwlock/pthread_rwlock_rdlock.c:14-22 | a thread that waits for the lock while it holds it is never served, whatever anybody does |
| RwLock.EveryWaiterServed | mutex/my_rwlock/pthread_rwlock_unlock.c:14-32 | from every reachable state releases and resumptions in any order come to an end within a bound, and then everybody has been served, whatever the order, if and only if no thread waits while it holds |
| RwLock.RecursiveRead | mutex/my_rwlock/pthread_rwlock_rdlock.c:14-22 | a reader that takes a second read lock while a writer waits blocks itself and the writer in every continuation |
| RwLock.TakesAgain | mutex/my_rwlock/pthread_rwlock_wrlock.c:14-24 | a writer can release and take the lock again any number of times before a woken reader comes to look |
| RwLock.StarvesIffTwoThreads | mutex/my_rwlock/pthread_rwlock_unlock.c:24-30 | the write lock can be taken any number of times while one reader stays in its wait loop, if and only if there are two threads |
| RwLock.Lock.constructor | mutex/my_rwlock/pthread_rwlock_init.c:20-23 | a new lock satisfies the invariant with nobody holding or waiting |
| RwLock.Lock.RdLock | mutex/my_rwlock/pthread_rwlock_rdlock.c:8-28 | the caller sleeps exactly while a writer holds or waits, with its locks unchanged and itself counted; else it gets 0, refcount is one more and it holds one more read lock; EINVAL without effect on a bad lock |
| RwLock.Lock.WrLock | mutex/my_rwlock/pthread_rwlock_wrlock.c:8-27 | the caller sleeps exactly while anybody holds the lock, with its locks unchanged and itself counted; else it gets 0, refcount is -1 and it holds the write lock; EINVAL without effect on a bad lock |
| RwLock.Lock.TryRdLock | mutex/my_rwlock/pthread_rwlock_tryrdlock.c:8-20 | EBUSY, and nothing changed, exactly when a writer holds or waits; else 0, one more in refcount and one more read lock |
| RwLock.Lock.TryWrLock | mutex/my_rwlock/pthread_rwlock_trywrlock.c:8-20 | EBUSY, and nothing changed, exactly when anybody holds the lock; else 0, refcount -1 and the write lock |
| RwLock.Lock.Unlock | mutex/my_rwlock/pthread_rwlock_unlock.c:8-33 | a holder gets 0 and loses its one lock, refcount likewise; a sleeping writer is woken if the lock is free and writers wait, all sleeping readers if none waits, and nobody else changes |
| RwLock.Lock.Destroy | mutex/my_rwlock/pthread_rwlock_destory.c:6-17 | success exactly on a lock that nobody holds or waits for; only then is the magic number cleared |
| ProdCons4.TokensStep | pxsem/prodcons4.c:77-93 | every sem_wait and sem_post keeps: each semaphore plus the tokens in the threads' hands equals free places, stored items and shutdown posts, or one for the mutex |
| ProdCons4.RoomToPut | pxsem/prodcons4.c:88-90 | a producer about to put finds a free place |
| ProdCons4.ItemToGet | pxsem/prodcons4.c:104-119 | a consumer about to get finds an item even if it came in on a shutdown token |
| ProdCons4.RingStep | pxsem/prodcons4.c:88-90 | every live item k is at buff[k % NBUFF] and the values printed are 0, 1, 2, ... |
| ProdCons4.StepInv | pxsem/prodcons4.c:73-125 | all of this is kept by every step of every thread |
| ProdCons4.RemainingDecreases | pxsem/prodcons4.c:73-125 | every step brings a non-negative measure down |
| ProdCons4.RunBounded | pxsem/prodcons4.c:73-125 | no run is longer than the measure of its start |
| ProdCons4.StuckIsDone | pxsem/prodcons4.c:80-112 | in a balanced program a state in which no thread can go on is one in which every thread has returned |
| ProdCons4.UnbalancedHangs | pxsem/prodcons4.c:42-65 | a program with one kind of thread only, and for producers alone with at least NBUFF items, has a run that ends with a thread blocked for ever |
| ProdCons4.NeverHangsIffBalanced | pxsem/prodcons4.c:73-125 | no run hangs if and only if there are both kinds of thread, or none, or producers alone with fewer items than places |
| ProdCons4.FinishedCounts | pxsem/prodcons4.c:94-123 | at the end the producers' counts and the consumers' counts each add up to nitems |
| ProdCons4.Outcome | pxsem/prodcons4.c:73-125 | every run is bounded, never more than NBUFF ahead, prints 0, 1, 2, ... in order despite the shutdown tokens, and ends with all items through and all counts right |
| ProdCons4.Program.Produce | pxsem/prodcons4.c:73-96 | the next step of produce() on the shared structure is the producer's step |
| ProdCons4.Program.Consume | pxsem/prodcons4.c:98-125 | the next step of consume() on the shared structure is the consumer's step |
| ProdCons4.Program.RunToTheEnd | pxsem/prodcons4.c:42-65 | under any scheduler the program terminates with every thread returned, all values printed in order and both sums equal to nitems |
| MyCat2.StoredAppend | pxsem/mycat2.c:62-70 | filling the next place of the ring keeps the stored bytes and appends the new block |
| MyCat2.ReadKeepsRing | pxsem/mycat2.c:62-70 | a read of any size, outside the mutex, keeps "written, stored and unread make up the file" and the mark of the last block |
| MyCat2.WriteKeepsRing | pxsem/mycat2.c:95-106 | so does a write |
| MyCat2.StepInv | pxsem/mycat2.c:51-110 | and every other step; the semaphores and the tokens in hand account for the ring |
| MyCat2.RemainingDecreases | pxsem/mycat2.c:51-110 | every step brings a non-negative measure down |
| MyCat2.StuckIsDone | pxsem/mycat2.c:51-110 | when neither thread can go on both have returned |
| MyCat2.CopiesTheFile | pxsem/mycat2.c:51-110 | for every file and every splitting into reads: the two threads are never at the same slot at once; written + stored + unread is the file; runs are bounded; both threads return and the output is the file |
| MyCat2.Finished | pxsem/mycat2.c:95-99 | when the consumer has returned the whole file is written |
| MyCat2.Program.Produce | pxsem/mycat2.c:51-73 | the next step of produce() on the shared ring is the producer's step |
| MyCat2.Program.Consume | pxsem/mycat2.c:81-109 | the next step of consume() on the shared ring is the consumer's step |
| MyCat2.Program.RunToTheEnd | pxsem/mycat2.c:35-41 | under any scheduler and any reads the program terminates with the file copied |
| ProdCons6.StepInv | mutex/prodcons6.c:66-105 | every stretch keeps: checked or taken + ready + put but not announced = put; buff[k] == k below nput; a sleeping consumer has seen nothing ready |
| ProdCons6.RemainingDecreases | mutex/prodcons6.c:66-105 | every step but a spurious wake-up brings the measure down |
| ProdCons6.RunBounded | mutex/prodcons6.c:66-105 | the length of a run is bounded by the items, the producers and the spurious wake-ups |
| ProdCons6.StuckIsDone | mutex/prodcons6.c:66-108 | with a producer, or nothing to do, a state in which nothing can happen has every thread returned |
| ProdCons6.NeverHangsIffProduced | mutex/prodcons6.c:90-105 | the consumer is never left waiting if and only if there is a producer or there are no items |
| ProdCons6.ConsumerFindsItems | mutex/prodcons6.c:90-105 | the consumer finds buff[i] == i every time although producers announce out of order; it sleeps only while nothing is ready; at the end the counts add up |
| ProdCons6.Program.Produce | mutex/prodcons6.c:66-87 | one stretch of produce() is the producer's step |
| ProdCons6.Program.Consume | mutex/prodcons6.c:90-108 | one stretch of consume() is the consumer's step |
| ProdCons6.Program.RunToTheEnd | mutex/prodcons6.c:44-60 | under any scheduler every thread returns, the consumer has found every item in its place and the counts add up |
| Semaphore.CountedStep | pxsem/my_pxsem_mmap/sem_post.c:20-24 | every stretch keeps: count is initial value plus posts minus successful waits and not negative; if only holders post, count plus tokens held is the initial value |
| Semaphore.NoneForgottenStep | pxsem/my_pxsem_mmap/sem_post.c:20-24 | with two threads a sleeper has seen zero; as a lock, a positive count with a sleeper has a woken thread on its way, whoever barges in |
| Semaphore.CountAndExclusion | pxsem/my_pxsem_mmap/sem_wait.c:19-24 | in every reachable state, for any number of threads, the count is exact and never underflows; posted by holders only, it and the tokens held add up to the initial value; started at 1, no two threads are inside |
| Semaphore.TwoPostsOneSignal | pxsem/my_pxsem_mmap/sem_post.c:20-24 | otherwise there is a run in which two quick posts signal once and a thread sleeps on a positive count with nobody on the way |
| Semaphore.NeverStrandsIffSafeUse | pxsem/my_pxsem_mmap/sem_post.c:20-24 | no interleaving loses a wake-up if and only if at most two threads use the semaphore or it is used as a lock |
| Semaphore.Sem.Wait | pxsem/my_pxsem_mmap/sem_wait.c:8-26 | 0 exactly with a token, which the caller then has and the count no longer; else it sleeps on a count of 0; EINVAL without effect on a bad semaphore |
| Semaphore.Sem.TryWait | pxsem/my_pxsem_mmap/sem_trywait.c:7-30 | 0 exactly when there was a token, which the caller then has and the count no longer; else EAGAIN and nothing changed |
| Semaphore.Sem.Post | pxsem/my_pxsem_mmap/sem_post.c:8-26 | the count is one more, the caller has one token less if it had one, and one sleeper is woken exactly if the count was 0 |
| Text.ScanPrint | lock/lockmain.c:27-33 | reading a number that was printed with %ld gives it back, whatever stands behind it |
| Text.Decimal | lock/lockmain.c:33 | printing is decimal notation: the ten digits, one digit behind the number for ten times as much, a minus sign in front |
| Text.ScanForm | lock/lockmain.c:27 | scanning skips white space, takes an optional sign and the digits, and stops at anything else |
| Text.LinesWellCut | svmsg/svmsgcliserv/server_main.c:58 | every line read ends with its only newline, or fills the buffer, or is the last |
| Text.CString | svmsg/svmsgcliserv/server_main.c:60 | what strlen() measures: a prefix, equal to the whole exactly when there is no NUL |
| Text.LineLength | svmsg/svmsgcliserv/server_main.c:58 | what fgets() takes: at most the limit, up to the first newline, and something unless at the end |
| Text.ConcatLines | svmsg/svmsgcliserv/server_main.c:58-62 | the lines that fgets() delivers, however long the file's lines are, make up the file |
| ClientServer.ParseRequest | svmsg/svmsgcliserv/server_main.c:34-45 | the server's parsing undoes the client's formatting for every pid and every line, and a request fits the server's buffer with its NUL |
| ClientServer.RequestText | svmsg/svmsgcliserv/client_main.c:26-43 | a request is the pid, a blank and the path without newline |
| ClientServer.WholeFileIffText | svmsg/svmsgcliserv/server_main.c:57-68 | a client that stops at the first empty message gets exactly the file if and only if the file has no NUL in it |
| ClientServer.ReplyEnds | svmsg/svmsgcliserv/server_main.c:66-68 | every reply ends with the empty message |
| ClientServer.PrintedReply | svmsg/svmsgcliserv/client_main.c:48-52 | what a client prints of its reply is the file it asked for (if that has no NUL), or the complaint about it |
| ClientServer.OfTypeAppend | svmsg/svmsgcliserv/svmsg.c:3-6 | sending appends to the messages of its type and to no other |
| ClientServer.OfTypeWithout | svmsg/svmsgcliserv/svmsg.c:8-15 | receiving by type takes the oldest of that type and leaves all others in order |
| ClientServer.StepInv | svmsg/svmsgcliserv/server_main.c:23-69 | every msgsnd and msgrcv of any client or the server keeps, for every client: received + queued + unsent is the reply to its own request; queued requests are those of the clients still waiting, in order |
| ClientServer.OneStepLess | svmsg/svmsgcliserv/client_main.c:45-52 | every step does exactly one of the steps that its client has coming |
| ClientServer.RunBounded | svmsg/svmsgcliserv/client_main.c:45-52 | no run is longer than the steps that all clients have coming |
| ClientServer.StuckIsDone | svmsg/svmsgcliserv/client_main.c:48-52 | when no step is left every client has stopped, with its reply up to the first empty message |
| ClientServer.NobodyTakesAnothers | svmsg/svmsgcliserv/server_main.c:23-69 | for any number of clients with different pids and any interleaving: received + queued + unsent is at every point the reply to the client's own request, in order, and all runs are bounded |
| ClientServer.EveryClientGetsItsOwn | svmsg/svmsgcliserv/server_main.c:23-69 | when no step is left every client has printed the file it asked for, whole if and only if that has no NUL in it, or the complaint about it |
| ClientServer.FormatRequest | svmsg/svmsgcliserv/client_main.c:25-43 | for a typed path that fits the buffer holds the pid, a blank and the path, without the newline; for every line it holds the request |
| ClientServer.AsksForThePath | svmsg/svmsgcliserv/client_main.c:31-43 | typing a path and a newline asks for exactly that path if and only if pid, blank, path and NUL fit 256 characters |
| ClientServer.ParseSplits | svmsg/svmsgcliserv/server_main.c:34-45 | any request is split at the first blank in front of its first NUL and refused exactly when there is none |
| ClientServer.RepliesByLines | svmsg/svmsgcliserv/server_main.c:57-62 | a text file goes out line by line, a longer line in pieces of 255 characters |
| ClientServer.TypedPathIsAnswered | svmsg/svmsgcliserv/server_main.c:23-69 | from a typed path to the end of the run: the client prints exactly the text file of that path, or the path and the reason as far as the server's buffer holds them |
| ClientServer.Service.MesgSend | svmsg/svmsgcliserv/svmsg.c:3-6 | the messages of the type get one more at their end, those of all other types stay |
| ClientServer.Service.MesgRecv | svmsg/svmsgcliserv/svmsg.c:8-15 | the oldest message of the type is returned and taken from those of its type; those of all other types stay |
| ClientServer.Service.ClientAsks | svmsg/svmsgcliserv/client_main.c:25-46 | the client's request is its Ask step |
| ClientServer.Service.ClientReads | svmsg/svmsgcliserv/client_main.c:48-52 | once around the client's loop is its Read step |
| ClientServer.Service.ServerAccepts | svmsg/svmsgcliserv/server_main.c:25-45 | taking and parsing a request is the server's Accept step |
| ClientServer.Service.ServerAnswers | svmsg/svmsgcliserv/server_main.c:53-68 | sending a message of a reply is the server's Answer step |
| ClientServer.Service.SendLines | svmsg/svmsgcliserv/server_main.c:57-62 | the copying loop sends the file's lines, each cut at its first NUL, in order |
| ClientServer.Service.ServeRequest | svmsg/svmsgcliserv/server_main.c:34-69 | the server's loop body sends exactly the reply to the request, or nothing for a bogus one |
| ClientServer.Service.RunToTheEnd | svmsg/svmsgcliserv/server_main.c:23-69 | clients and server under any scheduler come to the end with every client holding its own reply |
| ClientServerRoom.ReplyIsReadToItsEnd | svmsg/svmsgcliserv/server_main.c:57-68 | of a text file's reply only the last message is empty, so its client leaves nothing in the queue |
| ClientServerRoom.SomebodyGoesOn | svmsg/svmsgcliserv/svmsg.c:3-15 | with as much room as clients, somebody can go on as long as some client has not got its reply |
| ClientServerRoom.Jams | svmsg/svmsgcliserv/server_main.c:53-68 | with more clients than room there is a run in which the queue fills with requests while the server waits to answer, for ever |
| ClientServerRoom.NeverDeadlocksIffRoomForAll | svmsg/svmsgcliserv/svmsg.c:3-15 | on a queue with room for k messages clients that ask for text files and the server never block each other if and only if there are at most k clients |
| SequenceFile.WrittenReadsBack | lock/lockmain.c:23-35 | whatever the file held, a number of any machine size written over its start reads back as that number |
| SequenceFile.ReadsAndWrites | lock/lockopen.c:5-21 | the lock file lets one process at a time between lock and unlock, so reads and writes alternate |
| SequenceFile.StepInv | lock/lockmain.c:21-36 | every step keeps: the file reads as the initial number plus the writes so far, the printed numbers are consecutive, the number in front of a write is one more than the file's |
| SequenceFile.RunBounded | lock/lockmain.c:19-37 | every run takes a bounded number of successful steps |
| SequenceFile.CountsEveryRound | lock/lockmain.c:19-37 | any P processes leave a file that reads as initial + 20 * P, having printed initial, initial + 1, ... without gap or repetition |
| SequenceFile.Program.Advance | lock/lockmain.c:19-37 | the next step of main()'s loop on the two files is the process's step |
| SequenceFile.Program.RunToTheEnd | lock/lockmain.c:19-37 | under any scheduler no increment is lost and no number is printed twice |
| SvSemLock.StepInv | svsem/locksvsem.c:15-62 | every semget, semctl, semop and death of any process keeps: at most one creator or SETVAL; from SETVAL on value plus holders is 1; before it nobody can take the semaphore, whatever value it was created with |
| SvSemLock.ValueAndHolder | svsem/locksvsem.c:15-62 | for any number of processes, any interleaving, deaths and time-outs: SETVAL happens at most once and before anyone takes the lock, from then on value plus holders is 1, and a process is kept waiting only by a holder |
| SvSemLock.ReadyStays | svsem/locksvsem.c:28-37 | once sem_otime is set nobody ever times out |
| SvSemLock.TwoInside | svsem/locksvsem.c:28-39 | with a semaphore that nobody has used yet - not created, or created by a process that died before or after SETVAL - two processes suffice for time-outs that let both into the critical region |
| SvSemLock.ExclusiveIffInitialised | svsem/locksvsem.c:9-62 | at most one process at a time is between my_lock() and my_unlock(), over all runs from any left-over state of the semaphore, if and only if its sem_otime was set before or there are fewer than two processes |
| SvSemLock.Program.MyLock | svsem/locksvsem.c:9-57 | a step of my_lock() that returns with the lock leaves the value 0 and nobody else holding; one that times out finds that nobody has used the semaphore; every step keeps the invariant |
| SvSemLock.Program.MyUnlock | svsem/locksvsem.c:59-62 | my_unlock() after a lock leaves the value 1 and nobody holding; after a time-out its operation is still the zero of static storage, which waits for 0 and takes nothing from the holder |
| SvSemLock.Program.Await | svsem/locksvsem.c:28-40 | undisturbed, the polling loop goes on to the semaphore after one look if sem_otime is set and else times out after ten |
| SvSemLock.Program.LockAlone | svsem/locksvsem.c:9-57 | undisturbed, my_lock() gets the lock if it creates the semaphore or finds it free and used, waits if it is held, and times out if it finds it created and never used |
| SvSemLock.Program.Round | svsem/locksvsem.c:9-62 | my_lock() and my_unlock() undisturbed leave a free semaphore free and usable by all |

## Left out

Slips in the source that are modelled by their intent:

- `pxsem/my_pxsem_mmap/sem_post.c:23` increments `sem_cond`; `sem_count` is meant.
- `mutex/my_rwlock/pthread_rwlock_destory.c:9` tests `rw_condwriters`; `rw_nwaitwriters` is meant.
- `my_pxmsg_mmp/mq_open.c:13,76,99,103` and `my_pxmsg_mmp/mq_send.c:13,61` misspell names, types and calls.

Assumptions about the system, which the models share:

- Mutexes, semaphores and atomic system calls behave as POSIX says and memory is sequentially consistent under them; failures of calls other than those the code itself tests for (locks, memory, disk, `fork`) are not modelled.
- `pthread_cond_wait` returns 0. The exits at `pthread_rwlock_rdlock.c:20` and `pthread_rwlock_wrlock.c:19` for another result are not modelled.
- Only a thread that holds the reader/writer lock unlocks it.
- Counters do not overflow: `SequenceFile` requires that the final number fits a long, `MessageQueue` that the file size and the number of waiting receivers do; other counters are unbounded integers.
- `Arena` fixes the sizes and offsets of a 64-bit Linux system and little-endian byte order.
- The `sleep(1)` between two polls and the spinning of the lock-file loop take no step; a failed create changes nothing and is tried again.

Single members and modules:

- MessageQueue.MqInfo.Send: the bytes of the mutex, of the condition variable and of the rest of `struct sigevent` are never read or written; which signal and value are queued is not modelled.
- MessageQueue.MqInfo.Receive: copying the message to the caller's buffer is the returned value; a null `priop` is not modelled.
- MessageQueue.Create: of the creator's part, the exclusive open, the mutex and condition attributes and `fchmod` are in `QueueOpening` or left out.
- QueueOpening.StepInv: initialisation of the file is one step, as no other call looks into a file whose user-execute bit is on; unlinking a finished queue (`mq_unlink`) is not modelled.
- RwLock.EveryWaiterServed: is about runs in which nobody asks for a new lock; `RwLock.StarvesIffTwoThreads` is about the others.
- QueueBlocking.NeverSilentIffNoPair: one process is registered from the start; registering again during a run (`mq_notify`) is not modelled.
- MyCat2.CopiesTheFile: `read` does not fail and `write` writes everything; a failing `read` (length -1) or a short write is not modelled.
- ClientServer.EveryClientGetsItsOwn: the queue is unbounded (bounded room is in `ClientServerRoom`), every client has a pid other than 1, and nobody else uses the queue; a request of the full 256 bytes, for which the server's terminating NUL would be out of bounds, cannot come from a client.
- ClientServer.Service.ServerAccepts: the reply is fixed when the request is taken; a file that changes while it is being sent is not modelled.
- SequenceFile.CountsEveryRound: a process that dies inside the lock leaves the lock file behind; deaths are not modelled there. Behaviour on a file that does not start with a number is not covered.
- SvSemLock.ValueAndHolder: removal of the semaphore while in use and failures of `semget` other than EEXIST are not modelled.

Parts of the repository that are not modelled:

- `mq_notify`, `mq_getattr`, `mq_setattr`, `mq_close`, `mq_unlink`, `sem_open`, `sem_close`, `sem_getvalue`, `sem_unlink`: thin, or the same handshake as `mq_open`.
- The FIFO and System V variants of the semaphore (`pxsem/my_pxsem_fifo`, `pxsem/my_pxsem_svsem`): their return values and keys disagree among their files.
- `pxshm`, `pipe`, `svshm`, `shm`, `rtsignals`, `pxmsg`, the tools in `svsem` and `svmsg`: demonstrations of single system calls, or programs whose natural property does not hold.
- `mutex/prodcons2.c`, `mutex/prodcons3.c`, `pxsem/prodcons1.c` to `prodcons3.c`: simpler relatives of the programs modelled.
- Printing of debug messages, argument parsing, signals and clocks.
