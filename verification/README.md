# Verified model of the FIFO device and its companions

This project models, in Dafny, the synchronisation exercises of the dso-fifo
repository and the self-contained parts of the kernel scheduler it carries, and
proves what they keep over every run.

- **FIFO device** (`Fifo`, `FifoHandles`, `FifoTokens`, `FifoWakeup`, `FifoBroadcast`, `FifoRecords`,
  `FifoLimits`, `FifoDevice`, `ByteRing`).
  Any number of threads open, read, write and release over a 512-byte ring with one mutex,
  two semaphores used as wait queues and hand-kept waiter counts. The transition system cuts the
  code at every operation on a queue semaphore; everything else under the mutex is one step.
  `FifoDevice.Device` runs the critical sections on the real ring and 32-bit counters and is proved to
  leave what the transition system reaches by the steps of the same thread. Four things the device
  does not promise are shown by concrete runs, each with the exact steps that lead there: a wake-up
  can be lost to a thread that came after the signal; the last reader can be taken back by an
  interrupted open that wakes no writer; a waiter count can go below zero after an interruption, and
  the next broadcast then counts down all around the word; and the last writer can leave a reader
  asleep at end of file.
- **Real-time bandwidth** (`TaskGroups`, `RtBandwidth`). The walk over the tree of task groups by
  parent, child and sibling links, and the admission control that runs on it; a group changed between
  the write of a global setting and its check can end above the limit, and it is said exactly when.
- **Load averages** (`LoadAverage`, `CpuLoad`). Fixed-point power and catch-up with error bounds;
  the per-CPU averages, their decay table and their convergence.
- **Scheduling domains** (`SchedDomains`, `SchedGroups`). Incremental repartitioning against a full
  rebuild; the circular list of CPU groups.
- **Accounting and locking** (`LoadAccounting`, `RqLocks`). Runqueue and load counters over sleep,
  wake-up, migration and CPU-down; ordered double locking.
- **Producer/consumer modules** (`ProdCons1`, `ProdCons2`) with interruptions and rollback.
- **Registries** (`Kifs`, `Modlist`). A slot allocator as a finite map; a list under a read/write
  lock as the replay of its updates.

Inputs that come from outside are parameters or nondeterministic choices: which thread runs, who is
interrupted, handle and node identities, the kernel's word length, which tasks are real-time tasks,
the CPU masks, the architecture's topology, jiffies, user data.

Where the code and its comments disagree the code is followed: `parteB/cbuffer.h:8` puts the head
below the capacity, but bulk removal can leave it at the capacity (`ByteRing.HeadLeavesArray`);
`opcional2/include/linux/kifs.h` announces -1 for removing an unknown entry, the code returns
-EINVAL; the rules at the head of `parteB/fifo.c` promise end of file when nobody is left to write,
which holds for a read that looks, not for one already asleep (`FifoLimits.ReaderStranded`). In
`prodcons1.c` a writer interrupted at the mutex gives its slot back but forgets its item
(`ProdCons1.LostExactly`), and in `prodcons2.c` so does every interrupted writer
(`ProdCons2.LostExactly`). `opcional2/kernel/kifs.c` looks a name up under the lock but reads its
callback after giving it back (`Kifs.ChosenExactly`, `Kifs.StaleExactly`).

## Model

| member | source | states |
|---|---|---|
| Fifo.MutualExclusion | parteB/fifo.c:125-354 | in every run two threads inside a critical section are one, and the mutex is then taken |
| Fifo.FirstInFirstOut | parteB/fifo.c:218-354 | in every run, interruptions included, the accepted bytes are those that left, in order, followed by those in the ring, never more than 512 |
| Fifo.NoOverwrite | parteB/fifo.c:324-339 | an accepted write is appended to the unread bytes; this rests on num_cons never being negative |
| Fifo.WriteRules | parteB/fifo.c:289-347 | a write is taken whole and only while there is a reader; EPIPE only without readers, changing nothing; too long a call changes nothing |
| Fifo.WaitingRules | parteB/fifo.c:9-16 | an open waits exactly while the other side is absent; a read exactly while it lacks bytes, unless there is no writer and nothing at all left; a write exactly while it lacks room and has a reader |
| Fifo.WaitersConserved | parteB/fifo.c:57-77 | in every run waiter count plus tokens is the number of registered threads, up to a half-done signal |
| Fifo.HandleCounts | parteB/fifo.c:138-197 | num_cons and num_prod count the handles marked as counted, so they are never negative; which those are is `FifoHandles.CountsAreLiveHandles` |
| FifoHandles.CountsAreLiveHandles | parteB/fifo.c:138-203 | in every run num_cons and num_prod are the numbers of handles of each side that are open, being opened or released, or left behind by a release interrupted at the mutex; an interrupted open is in neither |
| FifoHandles.CountsAreOpenHandles | parteB/fifo.c:125-205 | with no call in progress and no release ever interrupted, they are the numbers of open handles |
| FifoHandles.OpenReturns | parteB/fifo.c:57-68 | an open that returns has opened its handle with the counts as they were, or was interrupted and has taken its own registration back, once, and only if it had registered |
| FifoHandles.AbandonedExactly | parteB/fifo.c:182-187 | a handle is left behind exactly when its release is interrupted at the mutex |
| Fifo.InvStep | parteB/fifo.c:125-354 | one step of any thread keeps exclusion, both waiter balances, the handle counts and the order of the bytes together |
| FifoTokens.CountsAndTokensAreSleepers | parteB/fifo.c:57-77 | without interruptions the counts are never negative, and with a free mutex count plus tokens is the number of sleepers |
| FifoTokens.BroadcastCoversAll | parteB/fifo.c:270-273 | without interruptions, at every turn of a broadcast count and tokens together are the sleepers: one that has counted down to zero has left a token for each |
| FifoTokens.SignalsOnlyForSleepers | parteB/fifo.c:342-345 | without interruptions a signal is sent only while some sleeper has no token yet |
| FifoTokens.UncoveredExactly | parteB/fifo.c:57-68 | every sleeper that could go on has a token or a broadcast under way; a step of any thread, interrupted or not, ends this exactly when a thread that must sleep on takes a token while none is to spare, or an interrupted open takes back the last reader while more writes sleep than tokens are out |
| FifoTokens.CoveredExactly | parteB/fifo.c:57-77 | along a run, interruptions included, the guarantee holds throughout exactly when no such step occurs |
| FifoTokens.NoLostWakeupUnlessBroken | parteB/fifo.c:138-171 | interruptions included: where no such step has occurred, a free mutex and no token left mean that every sleeping call still has its reason to sleep |
| FifoTokens.NeverStuck | parteB/fifo.c:57-77 | interruptions included: when nobody in a call can go on, the mutex is free and every one of them sleeps on a queue without tokens |
| FifoLimits.WakeupLost | parteB/fifo.c:60-62 | a run without interruptions in which a latecomer takes the one token and a reader sleeps on although its byte is there |
| FifoLimits.WriterAbandoned | parteB/fifo.c:147-151 | a run in which an interrupted open takes back the last reader and a writer sleeps on where a write begun now would be refused |
| FifoWakeup.NoLostWakeup | parteB/fifo.c:138-171 | if giving the mutex back and going to sleep were one step, then without interruptions a free mutex would mean that every sleeping call still has its reason to sleep |
| FifoWakeup.CountsAreSleepers | parteB/fifo.c:57-77 | with that one step no token is left over, and a free mutex means count equals sleepers |
| FifoWakeup.OnlyBroadcastsUnblock | parteB/fifo.c:189-203 | a step that takes away a sleeper's reason to sleep enters a broadcast on the sleeper's queue |
| FifoRecords.ReadsWholeRecords | FicherosP3/Ejemplos/DumpUTMP/dump_utmp.c:227-269 | with one record size every read that is not at end of file returns the next whole record written |
| FifoRecords.NeverBothBlocked | parteB/fifo.c:253-326 | with one record size the ring holds whole records and a reader and a writer are never both blocked |
| FifoLimits.CountBelowZero | parteB/fifo.c:62-66 | a reachable state with a waiter count of minus one |
| FifoLimits.BelowZeroExactly | parteB/fifo.c:57-77 | a step takes a count below zero exactly when an interrupted thread takes its registration back from a count of zero |
| FifoLimits.ReaderStranded | parteB/fifo.c:196-201 | a run without interruptions that ends with a reader asleep, no writer, an empty ring and a free mutex |
| FifoLimits.StrandedExactly | parteB/fifo.c:189-267 | a step leaves a sleeping reader stranded exactly when the last writer goes from an empty ring, a reader takes the last bytes after it, or the last end drops what is left |
| FifoLimits.CalmReachable | parteB/fifo.c:57-77 | the runs with atomic release-and-park are among the runs of the device without interruptions |
| FifoDevice.Device.ReadSection | parteB/fifo.c:244-275 | the read section on the array ring and 32-bit counts ends as `TestCore` says: at end of file, asleep, or with the oldest bytes taken and every waiting producer signalled |
| FifoDevice.Device.WriteSection | parteB/fifo.c:316-347 | the same for the write section and the consumers |
| FifoDevice.Device.OpenSection | parteB/fifo.c:138-161 | opening counts the handle and wakes the whole other side |
| FifoDevice.Device.OpenTest | parteB/fifo.c:146-163 | the waiting loop of open sleeps exactly while the other side is absent |
| FifoDevice.Device.ReleaseSection | parteB/fifo.c:189-203 | releasing uncounts it, wakes the producers with the last reader, empties the ring with the last end |
| FifoDevice.TestReached | parteB/fifo.c:244-347 | the steps of the same thread take the transition system to what the read and write sections and the loop of open leave |
| FifoDevice.OpenReached | parteB/fifo.c:138-161 | so for the opening section |
| FifoDevice.ReleaseReached | parteB/fifo.c:189-203 | and for the releasing one |
| FifoDevice.Device.WakeProducers | parteB/fifo.c:270-273 | the loop ends with the count at zero and one token for each of its turns |
| FifoBroadcast.BroadcastSendsCount | parteB/fifo.c:158-161 | in any run, interruptions included, a broadcast that ends has sent exactly as many signals as its count was when it started, whatever other threads did meanwhile |
| FifoBroadcast.BroadcastIssuesAll | parteB/fifo.c:342-345 | run alone, the loop ends after 2n+1 steps with n tokens more and the count at zero |
| FifoDevice.TurnsExactly | parteB/fifo.c:270-273 | on a 32-bit counter the loop ends, after exactly n turns from a count n and 2^32 + n from one below zero |
| ByteRing.InsertManyAppends | parteB/cbuffer.c:111-149 | a bulk insert appends, the oldest items giving way, for every head up to the capacity |
| ByteRing.RemoveManyDrops | parteB/cbuffer.c:152-181 | a bulk remove takes a prefix and leaves the rest |
| ByteRing.InsertManyIsEach | parteB/cbuffer.c:88-149 | a bulk insert leaves the same data, head and size as single inserts |
| ByteRing.RemoveManyIsEach | parteB/cbuffer.c:152-197 | a bulk remove returns what single removes return and leaves the same contents, heads equal modulo the capacity |
| ByteRing.CBuffer.Insert | parteB/cbuffer.c:88-108 | the C code of a single insert meets its specification |
| ByteRing.CBuffer.InsertItems | parteB/cbuffer.c:111-149 | the two block copies put each item at its distance from the first free position |
| ByteRing.CBuffer.RemoveItems | parteB/cbuffer.c:152-181 | the two block copies return the oldest items in order, or nothing when too few are there |
| ByteRing.CBuffer.Remove | parteB/cbuffer.c:185-197 | the C code of a single remove meets its specification |
| TaskGroups.WalkTgTree | opcional2/kernel/sched.c:1438-1468 | the goto-driven walk ends, with the data, callbacks and result of the recursive traversal, for any callbacks |
| TaskGroups.DfsFollowsTour | opcional2/kernel/sched.c:1434-1468 | the callbacks made are the full tour of the tree, cut after the first that fails, each given the data the one before it left |
| RtBandwidth.WalkDecides | opcional2/kernel/sched.c:8790-8855 | the walk accepts exactly the changes that leave the tree admissible and no real-time group without runtime; EINVAL and EBUSY each tell which of the two fails |
| RtBandwidth.AntichainBounded | opcional2/kernel/sched.c:8822-8841 | groups none of which is an ancestor of another share at most the root's ratio, hence at most the global one |
| RtBandwidth.UnlimitedIsWhole | opcional2/kernel/sched.c:8763-8769 | no limit weighs 2^20, what a group with its whole period weighs; every group within its period weighs no more, and less if its runtime is less |
| RtBandwidth.UnlimitedNeedsUnlimited | opcional2/kernel/sched.c:8822-8826 | a group without limit is above every limited global ratio; without a global limit no group that fits its period is above it |
| RtBandwidth.RatioInOrder | opcional2/kernel/sched.c:8763-8769 | ratios are in the order of the shares of the period, while the shift stays in the word |
| RtBandwidth.RtSystem.constructor | opcional2/kernel/sched.c:8165-8170 | the root group starts with the global bandwidth and is admissible |
| RtBandwidth.RtSystem.CreateGroup | opcional2/kernel/sched.c:8615-8640 | creating a group keeps the system valid and changes nothing else |
| RtBandwidth.RtSystem.RtSchedulable | opcional2/kernel/sched.c:8846-8855 | zero exactly when the change is admissible and starves nobody, and otherwise the error that says which fails |
| RtBandwidth.RtSystem.SetBandwidth | opcional2/kernel/sched.c:8857-8885 | the change is made exactly when admissible, otherwise nothing changes; the system stays valid |
| RtBandwidth.RtSystem.SetRtRuntime | opcional2/kernel/sched.c:8887-8897 | accepted exactly when the runtime, in 64-bit nanoseconds, negative for no limit, leaves the groups admissible and fed; the period is kept; rejected changes leave all as it was. No limit is refused under a global limit, and a runtime of zero for a group with real-time tasks; EBUSY names such a group |
| RtBandwidth.RtSystem.SetRtPeriod | opcional2/kernel/sched.c:8911-8922 | EINVAL for a period that is zero after wrapping, else accepted exactly when it leaves the groups admissible and fed; the runtime is kept |
| RtBandwidth.RtSystem.SchedRtHandler | opcional2/kernel/sched.c:8933-9026 | with nothing in between, new global values take effect exactly when every group fits them, otherwise the old ones are put back |
| RtBandwidth.LimitAtRoot | opcional2/kernel/sched.c:8822-8841 | the global limit holds for every group exactly when it holds for the root and every group is within its period and over its children |
| RtBandwidth.OvertakenExactly | opcional2/kernel/sched.c:8998-9026 | after any number of group changes and creations between the write of the values and their check, some group is above the limit then in force exactly when they left the root above the old limit and the new one is refused, for exceeding its period or for a group left without runtime |
| RtBandwidth.RtSystem.HandlerOvertaken | opcional2/kernel/sched.c:8944-9026 | one change in between leaves a group above the limit exactly when it is a change of the root that the new limit lets pass and the old one would not, and the new runtime exceeds the new period |
| RtBandwidth.LimitBroken | opcional2/kernel/sched.c:8998-9026 | such a change leaves the root group above the global ratio |
| RtBandwidth.RtSystem.GroupsWithinGlobal | opcional2/kernel/sched.c:8822-8841 | in every valid system any antichain of groups has total ratio at most the global ratio |
| LoadAverage.FixedPowerInt | opcional2/kernel/sched.c:3147-3167 | for a word of any width that holds the products: at most one, and within n/2 units of the exact power |
| LoadAverage.CalcLoadBetween | opcional2/kernel/sched.c:3093-3100 | a new load lies between the old load and the active count |
| LoadAverage.CalcLoadError | opcional2/kernel/sched.c:3093-3100 | a cycle is off by half a unit at most |
| LoadAverage.CalcLoadsTracks | opcional2/kernel/sched.c:3169-3191 | n cycles one by one stay within n/2 of the exact decay |
| LoadAverage.CalcLoadN | opcional2/kernel/sched.c:3192-3198 | n cycles at once lie between the two loads and differ from n single cycles by at most (n+1)/2 + n*abs(load-active)/(2*FIXED_1) |
| CpuLoad.TickShrinksDistance | opcional2/kernel/sched.c:3413-3432 | a tick takes ceil(d/2^i) off the distance d to the current load and never passes it |
| CpuLoad.ReachesLoad | opcional2/kernel/sched.c:3423-3431 | under constant load the average reaches it exactly in at most d ticks |
| CpuLoad.DecayedShrinks | opcional2/kernel/sched.c:3368-3390 | missed ticks never raise a load |
| CpuLoad.TableIsDecay | opcional2/kernel/sched.c:3352-3361 | each table entry is the exact decay factor of its power of two of ticks in 128ths, rounded down |
| CpuLoad.DecayedNearExact | opcional2/kernel/sched.c:3325-3390 | missed ticks leave at most the exact decay (1 - 1/2^i)^n of a load, and at least that less a 128th of the load, and one, for each of the at most seven factors applied |
| CpuLoad.BetweenDecayedAndCurrent | opcional2/kernel/sched.c:3397-3432 | with missed ticks the new load lies between the decayed and the current one |
| CpuLoad.DecayLoadMissed | opcional2/kernel/sched.c:3368-3390 | the decay loop stays inside its table row and computes the decay over the bits of the missed ticks |
| CpuLoad.StaysBounded | opcional2/kernel/sched.c:3413-3432 | loads below a bound stay below it, and the sums on the way below sixteen times it |
| CpuLoad.Rq.constructor | opcional2/kernel/sched.c:8220-8223 | a queue starts without load and with the current tick as its last update |
| CpuLoad.Rq.UpdateCpuLoad | opcional2/kernel/sched.c:3397-3432 | for jiffies of any word width: all averages are updated once a tick, and not at all on a repeated one |
| SchedDomains.Domains.PartitionSchedDomains | opcional2/kernel/sched.c:7755-7816 | each CPU of entry i of the new masks is attached to the domain of that mask with entry i of the new attributes (-1 without any), the others to none; a mask whose attributes changed, like every other domain that is not in both partitions, is torn down and built; CPUs of domains kept are not touched |
| SchedDomains.IncrementalIsRebuild | opcional2/kernel/sched.c:7771-7803 | the destroy and build loops together equal the full rebuild, compared against everything or against nothing |
| SchedDomains.RebuildIsConsistent | opcional2/kernel/sched.c:7701-7711 | a full rebuild attaches every CPU to the domain of its mask and the others to none |
| SchedDomains.KeptUntouched | opcional2/kernel/sched.c:7735-7740 | neither loop changes a CPU of a domain in both partitions |
| SchedDomains.Domains.Match | opcional2/kernel/sched.c:7773-7777 | the inner loop finds a domain with equal mask and attributes, unless the topology is new |
| SchedGroups.InitSchedBuildGroups | opcional2/kernel/sched.c:6735-6773 | one circle of groups, each with exactly the CPUs of its class, disjoint and covering the span |
| LoadAccounting.AccountsBalance | opcional2/kernel/sched.c:1791-1810 | in every run nr_running counts each queue's tasks, the sum of nr_uninterruptible the off-queue tasks in the load, the sum of calc_load_active the folded counters and deltas in flight |
| LoadAccounting.FoldExact | opcional2/kernel/sched.c:3078-3091 | folding leaves a queue's calc_load_active at nr_running plus nr_uninterruptible, and what it gained over the last fold in the hands of who folded |
| LoadAccounting.KeepsTasksCounted | opcional2/kernel/sched.c:2457-2545 | sleeping, each way of waking, migration, fork and CPU-down keep the task counts: a wake-up subtracts once |
| LoadAccounting.QueuesAfter | opcional2/kernel/sched.c:1791-1810 | what each action does to nr_running and nr_uninterruptible of each queue |
| LoadAccounting.LifeOfTask | opcional2/kernel/sched.c:2457-2545 | which of sleeping, waking, migrating and forking each state of a task allows |
| LoadAccounting.GlobalLoadExact | opcional2/kernel/sched.c:3310-3323 | in every run, when each queue has been folded since its counters last changed and every delta has been added, the global count and the idle one together are the number of tasks that make the load |
| RqLocks.WaitsUpwards | opcional2/kernel/sched.c:1599-1666 | a thread that waits for a lock holds only locks of smaller address |
| RqLocks.AimsStep | opcional2/kernel/sched.c:1599-1683 | task_rq_lock aims at one queue and after a failed recheck at the new one, double_rq_lock at two, double_lock_balance at one more than it holds, an unlock at one less |
| RqLocks.AimsMet | opcional2/kernel/sched.c:1599-1683 | in every run a thread that waits for nothing holds exactly the locks it aims at, so double_rq_lock returns with both |
| RqLocks.OnlyRecheckLeaves | opcional2/kernel/sched.c:945-957 | task_rq_lock goes on until its recheck finds the queue it holds to be the task's; when it is not, the lock is given back |
| RqLocks.NoDeadlock | opcional2/kernel/sched.c:1649-1683 | no reachable state has a circle of waiting threads |
| RqLocks.SomeoneCanGoOn | opcional2/kernel/sched.c:925-957 | while threads wait, one of them waits for a free lock or for a thread that does not wait |
| ProdCons1.Conserved | FicherosP3/Ejemplos/ProdCons1/prodcons1.c:52-110 | the conservation laws of both semaphores and of the mutex, interruptions included |
| ProdCons1.NeverFullNeverEmpty | FicherosP3/Ejemplos/ProdCons1/prodcons1.c:65-104 | nobody inserts into a full ring or removes from an empty one |
| ProdCons1.NeverStuck | FicherosP3/Ejemplos/ProdCons1/prodcons1.c:52-104 | when nobody in a call can go on, all wait for a slot of a full ring or all for an item of an empty one |
| ProdCons1.ItemsInOrderFreedOnce | FicherosP3/Ejemplos/ProdCons1/prodcons1.c:52-115 | items leave in insertion order; none is freed twice or while in the ring |
| ProdCons1.EveryItemAccountedFor | FicherosP3/Ejemplos/ProdCons1/prodcons1.c:38-115 | every item ever allocated is in one thread's hands, in the ring, freed, or forgotten, and a forgotten one is nowhere else |
| ProdCons1.LostExactly | FicherosP3/Ejemplos/ProdCons1/prodcons1.c:59-63 | a step makes an item forgotten exactly when it interrupts its writer at the mutex |
| ProdCons1.ItemLost | FicherosP3/Ejemplos/ProdCons1/prodcons1.c:59-63 | a run after which all slots are free again and the item is forgotten |
| ProdCons1.RingRefines | FicherosP3/Ejemplos/ProdCons1/cbuffer.c:62-105 | the pointer ring inserts and removes as the transition system's ring does |
| ProdCons2.WaitersConserved | FicherosP3/Ejemplos/ProdCons2/prodcons2.c:59-89 | waiter counts and tokens balance the registered threads, interruptions included; one thread inside at most |
| ProdCons2.FirstInFirstOut | FicherosP3/Ejemplos/ProdCons2/prodcons2.c:81-147 | the ring is never overrun and items leave in insertion order |
| ProdCons2.FreedOnce | FicherosP3/Ejemplos/ProdCons2/prodcons2.c:135-154 | no item is freed twice or while in the ring |
| ProdCons2.EveryItemAccountedFor | FicherosP3/Ejemplos/ProdCons2/prodcons2.c:48-154 | every item ever allocated is in one thread's hands, in the ring, freed, or forgotten, and a forgotten one is nowhere else |
| ProdCons2.LostExactly | FicherosP3/Ejemplos/ProdCons2/prodcons2.c:53-78 | a step makes an item forgotten exactly when its write returns interrupted: at either wait for the mutex, or after taking its registration back |
| ProdCons2.CountsNotNegative | FicherosP3/Ejemplos/ProdCons2/prodcons2.c:59-147 | without interruptions no count is negative |
| ProdCons2.EnoughExactly | FicherosP3/Ejemplos/ProdCons2/prodcons2.c:59-89 | while some waiter has no signal yet, tokens and threads on their way suffice for all there is to take; a step ends this exactly when it interrupts a woken thread that is needed |
| ProdCons2.NoLostWakeup | FicherosP3/Ejemplos/ProdCons2/prodcons2.c:59-147 | without interruptions, with a free mutex and more sleepers than tokens, there are no more items, or gaps, than tokens and woken threads to take them |
| ProdCons2.NeverStuck | FicherosP3/Ejemplos/ProdCons2/prodcons2.c:59-147 | without interruptions, when nobody in a call can go on, all sleep as writers before a full ring or all as readers before an empty one |
| ProdCons2.WakeupLost | FicherosP3/Ejemplos/ProdCons2/prodcons2.c:116-131 | a run in which a woken consumer is interrupted and another sleeps on beside the item |
| Kifs.Registry.constructor | opcional2/kernel/kifs.c:95-107 | the registry starts with the two standard entries and no other |
| Kifs.Registry.CreateEntry | opcional2/kernel/kifs.c:149-184 | fails exactly when no slot is free or the cut name exists; otherwise binds it |
| Kifs.Registry.RemoveEntry | opcional2/kernel/kifs.c:187-205 | unbinds the cut name, or fails exactly when it is not bound |
| Kifs.Registry.Lookup | opcional2/kernel/kifs.c:110-145 | with nothing in between, chooses the callback the map has for the cut name, the read one for mode 0 and the write one for mode 1; -1 exactly when that entry has none, -EINVAL exactly for an unknown name or mode |
| Kifs.Registry.Dispatch | opcional2/kernel/kifs.c:122-137 | the part after the lock chooses what the slot holds by then, which is what is registered under its present name if the slot is in use |
| Kifs.ChosenExactly | opcional2/kernel/kifs.c:122-137 | after any calls in between, the callback is another one than that looked up exactly when the last call to take the slot has put another one there |
| Kifs.StaleExactly | opcional2/kernel/kifs.c:122-137 | the callback chosen is registered no longer exactly when the slot has been given back and not taken again |
| Kifs.Registry.Overtaken | opcional2/kernel/kifs.c:122-137 | when the name is removed and another registered in between, the other name's callback is chosen |
| Kifs.Registry.ListKifs | opcional2/kernel/kifs.c:32-67 | all names, or no space, for any count read before the lock; what is written fits the size asked for |
| Kifs.MoveKeepsPartition | opcional2/kernel/kifs.c:169-172 | moving a slot to the used list keeps the two lists a partition of the slots |
| Kifs.DropKeepsPartition | opcional2/kernel/kifs.c:194-195 | so does giving one back |
| Kifs.RegisteredDrop | opcional2/kernel/kifs.c:192-199 | dropping an entry from the list drops exactly its name from the map |
| Modlist.ListIsReplay | opcional1/modlist.c:113-150 | whenever nobody writes the list is the replay of the updates in lock order |
| Modlist.SweepRemovesExactly | opcional1/modlist.c:113-150 | when a removal of n has gone through the list, what is left is the list at its start, in order, without the nodes whose value is n, and its bin holds exactly those; a cleanup leaves nothing on the list |
| Modlist.SweepBegins | opcional1/modlist.c:137-146 | a removal starts from the whole list as it is when the write lock is taken |
| Modlist.ReadersSeeReplay | opcional1/modlist.c:45-67 | a reader prints values of that list from the front, and all of them unless its buffer is used up |
| Modlist.FreedOnce | opcional1/modlist.c:102-150 | no node is freed twice, or while on the list or in a thread's hands |
| Modlist.NoNodeLost | opcional1/modlist.c:102-150 | every allocated node is on the list, freed, or in one thread's hands, never in two threads' |

## Left out

- Module registration, device and /proc glue, debug output, allocation failures and partial copies to or from user space.
- Wake-up at end of file is not claimed; `FifoLimits.ReaderStranded` shows why.
- FifoWakeup.NoLostWakeup: for a device that releases and parks in one step, which the code does not; what holds of the code is `FifoTokens.NoLostWakeupUnlessBroken`, and `FifoLimits.WakeupLost` shows what does not.
- `wait_friend` (parteB/fifo.c:107) is declared nowhere and is not part of this model.
- A release interrupted at the mutex leaves its handle counted for ever, as in the code; the handle counts include such handles.
- FifoDevice.Device.ReadSection: counts wrap at 32 bits, as the kernel is compiled; the number of tokens of a semaphore is not cut.
- FifoDevice.TestReached: like its companions, for counts from zero to 2^31 - 2, where wrapping and unbounded counts agree.
- FifoBroadcast.BroadcastSendsCount: the transition system's counts are unbounded, so from a count below zero it never ends a broadcast; the code's 32-bit count wraps and does (`FifoDevice.TurnsExactly`).
- ByteRing.CBuffer.InsertItems: indices are unbounded, so 32-bit wrap-around of head plus size for capacities above 2^31 is not modelled.
- RtBandwidth.WalkDecides: the sum of the children's ratios is not cut to a word, which needs more than 2^44 children to matter in 64 bits and 4096 in 32; the per-CPU copies of the runtime are not modelled.
- RtBandwidth.RtSystem.CreateGroup: destroying groups is not modelled; the callback reads a group's children from its list.
- RtBandwidth.RtSystem.HandlerOvertaken: for a period above zero. With a period of zero written and not yet refused, a group change in between divides by zero in `to_ratio` (opcional2/kernel/sched.c:8763-8769).
- LoadAverage.FixedPowerInt: requires the products to fit the word, whatever its width.
- CpuLoad.Rq.UpdateCpuLoad: loads are unbounded, so overflow of load times scale is not modelled; `CpuLoad.StaysBounded` says which loads cannot overflow.
- SchedDomains.Domains.PartitionSchedDomains: domain building always succeeds, and a domain is known by mask, attributes and topology.
- LoadAccounting.AccountsBalance: whether a task adds to the load depends on its state alone; freezing is not modelled.
- RqLocks.NoDeadlock: locks of runqueues only; a thread begins with none.
- ProdCons1, ProdCons2, Modlist, LoadAccounting and RqLocks are transition systems on values; list links in memory and aliasing are not modelled.
- The first module of parte A, the duplicate rings, chardev, the text parsing of the /proc handlers, and the rest of the scheduler.
