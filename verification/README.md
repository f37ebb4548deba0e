# Thread stacks, spawning and shared-state protocols, proved

A Dafny model of the shared-state code collected in the repository: the thread-stack
allocator of glibc 2.32 and its recovery after fork, the life of a thread around it,
GLib's process spawning, `system()` and `popen()` of glibc, and the repository's own
hand-off of frames through one shared-memory slot.

| file | subject |
|---|---|
| `Rings.dfy`, `ForkRecovery.dfy` | circular lists over link fields in memory; list operations cut by fork at any store, and their repair |
| `StackArithmetic.dfy`, `StackSpec.dfy`, `StackAllocator.dfy` | 64-bit size computations; best fit, trimming and recycling as specifications; the allocator itself, updating lists, descriptors and page protection in place |
| `ThreadLifecycle.dfy`, `SetxidGate.dfy`, `ThreadSpecificData.dfy`, `KeyBlocks.dfy` | creators, threads, kernel and joiners as interleaved steps; the gate an exiting thread waits at; the destructor loop |
| `SpawnDescriptors.dfy`, `SpawnParent.dfy`, `DecimalNames.dfy`, `PathSearch.dfy` | the child's descriptors through fork and posix_spawn; the parent's descriptors and children on every exit, and what the child of each call finds; reading a descriptor number; the search along PATH |
| `SystemCall.dfy`, `Popen.dfy`, `FrameHandOff.dfy` | the reference-counted signal dispositions; the chain of streams; the frame slot |

`Optional.dfy` holds the option type. `dafny verify dfyconfig.toml` checks everything.

How to read the model:

- `list.h` is not part of this model's sources. `list_add` is taken as its usual four
  stores with the head's `next` last, which is what the repair in `__reclaim_stacks`
  depends on, and `list_del` as its usual two. A fork may cut an addition after any
  subset of the first three stores, and a deletion after any subset of its two.
- Sizes are 64-bit words with explicit wrap-around; masks `& ~(a - 1)` are written as
  arithmetic for alignments that divide the word.
- Whatever the system decides (mmap, mprotect, clone, fork, execve, semop, wait) is a
  parameter of the operation or of the step, so that the results hold for every answer.
- Concurrent code is a set of steps, one per access to shared memory that matters, and
  the results hold for every legal sequence of steps by any number of threads.
- `system()` and `popen()` follow POSIX.1-2017, System Interfaces volume, chapter 3.

Where the code differs from what it is said to do, the model follows the code. The test
for too small a stack can wrap (`StackArithmetic.TooSmallExact`, `TooSmallMissed`); the
two spawn paths disagree on overwritten sources (`SpawnDescriptors.PathsAgree`,
`OverwrittenSource`); the list of descriptors the child is to close ends at its first -1,
so that a program started without a stdin pipe can keep the reading end of its own stdout
(`SpawnParent.Parent.ForkExecWithPipes`, `KeepsReader`); 2.32's `system()` restores the mask only for the last caller
(`SystemCall.MaskAtReturn`, `MaskLost`); the shell's argument vector can lack a terminator
(`PathSearch.ScriptArguments`); a joinable thread nobody joins keeps its stack
(`ThreadLifecycle.LeakedUnlessJoined`), and one whose attributes could not be set keeps it
for good (`SetupFailureLeaks`, `SetupLostReached`); a frame that does not lead with a
non-zero int can be lost (`FrameHandOff.ZeroLead`, `SafeExactly`); and a failed post, not
reported, blocks the channel for good (`FrameHandOff.LostPost`).

## Model

| member | source | states |
|---|---|---|
| `Rings.RingAdd` | Memory/HiddenOOM/ThreadStackLeaked/code/glibc-2.32/补充知识点1相关源码/allocatestack.c:149-160 | Adding at the head of a well-formed circular list gives a well-formed list whose elements are the new node followed by the old ones. |
| `Rings.RingDel` | Memory/HiddenOOM/ThreadStackLeaked/code/glibc-2.32/补充知识点1相关源码/allocatestack.c:134-145 | Deleting the k-th element of a well-formed list leaves a well-formed list of the others in order. |
| `Rings.RingSplice` | Memory/HiddenOOM/ThreadStackLeaked/code/glibc-2.32/补充知识点1相关源码/allocatestack.c:941 | Splicing one well-formed list onto another yields one well-formed list with the spliced elements first; an empty list splices to nothing. |
| `Rings.Walk` | Memory/HiddenOOM/ThreadStackLeaked/code/glibc-2.32/补充知识点1相关源码/allocatestack.c:184-201 | Following `next` from the head meets the elements in order and is back at the head exactly after the last one. |
| `Rings.BackWalk` | Memory/HiddenOOM/ThreadStackLeaked/code/glibc-2.32/补充知识点1相关源码/allocatestack.c:265-290 | Following `prev` meets the elements of the part not yet changed from the last to the first. |
| `ForkRecovery.AddKeeps` | Memory/HiddenOOM/ThreadStackLeaked/code/glibc-2.32/补充知识点1相关源码/allocatestack.c:149-160 | With three lists apart from each other, adding a node that is on none keeps all three well formed and apart. |
| `ForkRecovery.DelKeeps` | Memory/HiddenOOM/ThreadStackLeaked/code/glibc-2.32/补充知识点1相关源码/allocatestack.c:134-145 | Deleting keeps all three lists well formed and apart, and the node is then on none. |
| `ForkRecovery.HeadSeen` | Memory/HiddenOOM/ThreadStackLeaked/code/glibc-2.32/补充知识点1相关源码/allocatestack.c:884-887 | At whatever store an addition was cut, a list's first element fails to point back at the head exactly on the list being added to, and exactly between the back pointer's store and the head's. |
| `ForkRecovery.FinishedAdd` | Memory/HiddenOOM/ThreadStackLeaked/code/glibc-2.32/补充知识点1相关源码/allocatestack.c:877-896 | The head test finds a torn list exactly for the additions cut between those two stores, always the right list, the assertion on the element holds, and the three repairing stores equal the completed addition. |
| `ForkRecovery.UntouchedAdd` | Memory/HiddenOOM/ThreadStackLeaked/code/glibc-2.32/补充知识点1相关源码/allocatestack.c:877-889 | An addition cut before the back pointer left every list as it was. |
| `ForkRecovery.ReplayedDel` | Memory/HiddenOOM/ThreadStackLeaked/code/glibc-2.32/补充知识点1相关源码/allocatestack.c:897-902 | Replaying a deletion on any subset of its own two stores gives exactly the whole deletion. |
| `ForkRecovery.TornUserAdd` | Memory/HiddenOOM/ThreadStackLeaked/code/glibc-2.32/补充知识点1相关源码/allocatestack.c:512-518 | The addition to the list of user stacks, which is not recorded, when cut anywhere leaves the other two lists well formed and the descriptors on it removable without touching them. |
| `ForkRecovery.AddCuts` | Memory/HiddenOOM/ThreadStackLeaked/code/glibc-2.32/补充知识点1相关源码/allocatestack.c:148-160 | A recorded addition with any of its stores made, in an order the barrier admits, is one of the cuts the repair covers. |
| `ForkRecovery.DelCuts` | Memory/HiddenOOM/ThreadStackLeaked/code/glibc-2.32/补充知识点1相关源码/allocatestack.c:133-145 | So is a recorded deletion with any of its two stores made. |
| `ForkRecovery.WatchedMore` | Memory/HiddenOOM/ThreadStackLeaked/code/glibc-2.32/补充知识点1相关源码/allocatestack.c:118-121 | A history whose every moment can be repaired stays one with a store that leads to such a cut. |
| `ForkRecovery.AddRepaired` | Memory/HiddenOOM/ThreadStackLeaked/code/glibc-2.32/补充知识点1相关源码/allocatestack.c:872-903 | After the repair of an interrupted addition the lists are well formed and hold the contents before or after that addition, decided by the back pointer. |
| `ForkRecovery.DelRepaired` | Memory/HiddenOOM/ThreadStackLeaked/code/glibc-2.32/补充知识点1相关源码/allocatestack.c:872-903 | After the repair of an interrupted deletion the lists are well formed and hold the contents after it. |
| `ForkRecovery.UnrecordedRepaired` | Memory/HiddenOOM/ThreadStackLeaked/code/glibc-2.32/补充知识点1相关源码/allocatestack.c:868-872 | With nothing recorded there is nothing to repair on the two library-owned lists. |
| `ForkRecovery.SelfTakenOff` | Memory/HiddenOOM/ThreadStackLeaked/code/glibc-2.32/补充知识点1相关源码/allocatestack.c:940-946 | Splicing the used list onto the cache and deleting the running thread leaves one well-formed cache with everything else, also when the thread was on the list of user stacks. |
| `ForkRecovery.ReclaimShape` | Memory/HiddenOOM/ThreadStackLeaked/code/glibc-2.32/补充知识点1相关源码/allocatestack.c:940-955 | The whole store sequence after the repair ends with three well-formed lists, the running thread alone on its proper one and everything else cached in order. |
| `StackArithmetic.OverflowTestsExact` | Memory/HiddenOOM/ThreadStackLeaked/code/glibc-2.32/补充知识点1相关源码/allocatestack.c:535-538 | The two overflow tests fire exactly when the size plus the guard rounded up to pages does not fit 64 bits; otherwise the wrapping results are the exact ones. |
| `StackArithmetic.TooSmallExact` | Memory/HiddenOOM/ThreadStackLeaked/code/glibc-2.32/补充知识点1相关源码/allocatestack.c:540-545 | The test for too small a stack decides what it means to decide exactly when its own sum does not wrap, and it never turns down a stack with room. |
| `StackArithmetic.TooSmallMissed` | Memory/HiddenOOM/ThreadStackLeaked/code/glibc-2.32/补充知识点1相关源码/allocatestack.c:529-545 | A concrete request for which that sum wraps: 16384 bytes behind a guard of nearly the whole address space are planned although static TLS alone needs more. |
| `StackArithmetic.PlanExact` | Memory/HiddenOOM/ThreadStackLeaked/code/glibc-2.32/补充知识点1相关源码/allocatestack.c:529-548 | An accepted request plans the page-rounded guard and, beside it, the aligned size with room for the descriptor; a request is rejected only if it does not fit 64 bits or leaves no room; the assertion fails exactly for a size under the alignment. |
| `StackSpec.BestFitExists` | Memory/HiddenOOM/ThreadStackLeaked/code/glibc-2.32/补充知识点1相关源码/allocatestack.c:178-201 | There is a best fit exactly when some free cached block is large enough. |
| `StackSpec.SearchStep` | Memory/HiddenOOM/ThreadStackLeaked/code/glibc-2.32/补充知识点1相关源码/allocatestack.c:188-200 | One turn of the scan keeps the best candidate of the entries seen, and an exact match is the best fit of the whole list. |
| `StackSpec.SearchEnd` | Memory/HiddenOOM/ThreadStackLeaked/code/glibc-2.32/补充知识点1相关源码/allocatestack.c:184-203 | A scan that reaches the end holds the best fit, or none exists. |
| `StackSpec.ShortestTrim` | Memory/HiddenOOM/ThreadStackLeaked/code/glibc-2.32/补充知识点1相关源码/allocatestack.c:257-291 | Called over the limit, every shorter tail-first run of free entries would leave the cache over the limit. |
| `StackSpec.OneStop` | Memory/HiddenOOM/ThreadStackLeaked/code/glibc-2.32/补充知识点1相关源码/allocatestack.c:257-291 | The place where the trim stops is determined by the list and the limit, called over the limit or not. |
| `StackSpec.WithinLimit` | Memory/HiddenOOM/ThreadStackLeaked/code/glibc-2.32/补充知识点1相关源码/allocatestack.c:265-290 | Called within the limit, the trim removes the last free entry and no other. |
| `StackSpec.TrimFurther` | Memory/HiddenOOM/ThreadStackLeaked/code/glibc-2.32/补充知识点1相关源码/allocatestack.c:265-290 | Unlinking the last free entry left extends the removed run by exactly that entry and keeps the order of the rest. |
| `StackSpec.OthersWithout` | Memory/HiddenOOM/ThreadStackLeaked/code/glibc-2.32/补充知识点1相关源码/allocatestack.c:907-938 | The stacks recycled are all used ones but the running thread's. |
| `StackSpec.ClearSpecific` | Memory/HiddenOOM/ThreadStackLeaked/code/glibc-2.32/补充知识点1相关源码/allocatestack.c:918-936 | The clearing loop over the key blocks computes the recycled descriptor's data and flag. |
| `StackSpec.RecycledIsClean` | Memory/HiddenOOM/ThreadStackLeaked/code/glibc-2.32/补充知识点1相关源码/allocatestack.c:912-936 | A recycled descriptor has tid 0 and no data in any slot, keeps its allocated blocks, and its flag still tells whether there are any. |
| `StackAllocator.DescriptorInside` | Memory/HiddenOOM/ThreadStackLeaked/code/glibc-2.32/补充知识点1相关源码/allocatestack.c:574-584 | The descriptor of a fresh block lies inside it, aligned, and as high as its alignment permits. |
| `StackAllocator.NotAliased` | Memory/HiddenOOM/ThreadStackLeaked/code/glibc-2.32/补充知识点1相关源码/allocatestack.c:556-560 | No size asked of mmap is a multiple of the aliasing distance, and it exceeds the planned size by one page at most. |
| `StackAllocator.Allocator.constructor` | Memory/HiddenOOM/ThreadStackLeaked/code/glibc-2.32/补充知识点1相关源码/allocatestack.c:106-126 | Three empty well-formed lists and an empty cache satisfy the invariant, and a fork at that moment leaves nothing to repair. |
| `StackAllocator.Allocator.Put` | Memory/HiddenOOM/ThreadStackLeaked/code/glibc-2.32/补充知识点1相关源码/allocatestack.c:118-121 | Each store to a link field or to in_flight_stack is noted with what a fork would then find, which is a cut that can be repaired. |
| `StackAllocator.Allocator.OnOneList` | Memory/HiddenOOM/ThreadStackLeaked/code/glibc-2.32/补充知识点1相关源码/allocatestack.c:103-126 | Conservation: in every state between operations each library-owned block is on exactly one of the two lists, once, and the recorded cache size is the sum of the cached blocks. |
| `StackAllocator.Allocator.StackListDel` | Memory/HiddenOOM/ThreadStackLeaked/code/glibc-2.32/补充知识点1相关源码/allocatestack.c:133-145 | The recorded deletion store by store: the lists lose exactly that node and stay well formed, and at every store in between a fork finds a cut of this very deletion, in_flight_stack included, or, at the last, the list without the node. |
| `StackAllocator.Allocator.StackListAdd` | Memory/HiddenOOM/ThreadStackLeaked/code/glibc-2.32/补充知识点1相关源码/allocatestack.c:148-160 | The recorded addition store by store, the head pointer last: the list gains the node in front, and at every store in between a fork finds a cut of this very addition, in_flight_stack included, or, at the last, the list with the node. |
| `StackAllocator.Allocator.UserListAdd` | Memory/HiddenOOM/ThreadStackLeaked/code/glibc-2.32/补充知识点1相关源码/allocatestack.c:512-518 | The unrecorded addition to the list of user stacks store by store: a fork at any of them finds a cut of it. |
| `StackAllocator.Allocator.Consider` | Memory/HiddenOOM/ThreadStackLeaked/code/glibc-2.32/补充知识点1相关源码/allocatestack.c:188-200 | One turn of the scan: an exact match ends it, a smaller fit replaces the candidate, anything else leaves it. |
| `StackAllocator.Allocator.ScanCache` | Memory/HiddenOOM/ThreadStackLeaked/code/glibc-2.32/补充知识点1相关源码/allocatestack.c:184-201 | The walk over the cache ends at an exact match or with the best candidate of all entries. |
| `StackAllocator.Allocator.FindBestFit` | Memory/HiddenOOM/ThreadStackLeaked/code/glibc-2.32/补充知识点1相关源码/allocatestack.c:178-201 | The scan with its early exit returns the first free entry of minimal sufficient size, and none exactly when nothing fits. |
| `StackAllocator.Allocator.GetCachedStack` | Memory/HiddenOOM/ThreadStackLeaked/code/glibc-2.32/补充知识点1相关源码/allocatestack.c:169-252 | Returns the smallest cached block that is large enough and has a tid of at most zero, the first of them, moved to the used list with futex and cancellation state reset; returns nothing, with nothing changed, exactly when every cached block with a tid of at most zero is too small or over four times the request (with the product's wrap). |
| `StackAllocator.Allocator.FreeStacks` | Memory/HiddenOOM/ThreadStackLeaked/code/glibc-2.32/补充知识点1相关源码/allocatestack.c:256-291 | Removes exactly the free entries from the stopping place on, keeps the order of the rest, unmaps what it removes, each with a tid of at most zero, and accounts for it; a cache still over the limit holds only blocks with a thread. |
| `StackAllocator.Allocator.QueueStack` | Memory/HiddenOOM/ThreadStackLeaked/code/glibc-2.32/补充知识点1相关源码/allocatestack.c:302-314 | The block goes to the front of the cache; over the maximum the cache is trimmed, and the accounting agrees. |
| `StackAllocator.Allocator.DeallocateStack` | Memory/HiddenOOM/ThreadStackLeaked/code/glibc-2.32/补充知识点1相关源码/allocatestack.c:789-809 | A library-owned block leaves the used list for the cache; a user-provided one leaves its list and nothing else changes. |
| `StackAllocator.Allocator.MapStack` | Memory/HiddenOOM/ThreadStackLeaked/code/glibc-2.32/补充知识点1相关源码/allocatestack.c:550-642 | A fresh block of at least the planned size, aliasing page included, is used with its guard alone inaccessible; any failure leaves memory and lists as before. |
| `StackAllocator.Allocator.FitGuard` | Memory/HiddenOOM/ThreadStackLeaked/code/glibc-2.32/补充知识点1相关源码/allocatestack.c:675-739 | After the guard is fitted it is at least the request and at least the requested size remains beside it; a refusal by the kernel unlinks and unmaps the block. |
| `StackAllocator.Allocator.AllocateOnUserStack` | Memory/HiddenOOM/ThreadStackLeaked/code/glibc-2.32/补充知识点1相关源码/allocatestack.c:435-519 | A user-provided stack yields a descriptor inside it, aligned, listed first among user stacks; EINVAL exactly for a given size under the minimum, the failed assertion exactly when descriptor and alignment leave nothing of it, both with nothing changed. |
| `StackAllocator.Allocator.AllocateStack` | Memory/HiddenOOM/ThreadStackLeaked/code/glibc-2.32/补充知识点1相关源码/allocatestack.c:412-786 | Every successful library-owned allocation, fresh or reused any number of times, has a guard of at least the page-rounded request and at least the aligned size beside it, exactly the guard is inaccessible, the block is the smallest large enough of those cached with a tid of at most zero or a new blank one, reset for its new thread, and a failure changes nothing except that a block whose guard could not be fitted is lost; the best fit is reused when it is within four times the size, and then only a refused guard change fails; else the request succeeds exactly when a block can be mapped, protected and given its TLS. |
| `StackAllocator.Allocator.RepairInFlight` | Memory/HiddenOOM/ThreadStackLeaked/code/glibc-2.32/补充知识点1相关源码/allocatestack.c:872-903 | The repair code run on the torn links establishes well-formed lists with the contents the cut decides. |
| `StackAllocator.Allocator.MarkFree` | Memory/HiddenOOM/ThreadStackLeaked/code/glibc-2.32/补充知识点1相关源码/allocatestack.c:905-938 | Every used stack but the running thread's gets tid 0 and cleared data, and its size is added to the cache's. |
| `StackAllocator.Allocator.ReclaimStacks` | Memory/HiddenOOM/ThreadStackLeaked/code/glibc-2.32/补充知识点1相关源码/allocatestack.c:863-965 | For a fork that struck anywhere: the running thread is alone on its proper list, every other formerly used stack is cached with tid 0 and clean data, the lists are well formed, one thread is counted; from a quiescent state the full invariant holds again. The cuts it starts from are those every store of every operation is shown to leave. |
| `ThreadLifecycle.InvKept` | Memory/HiddenOOM/ThreadStackLeaked/code/glibc-2.32/pthread_create.c:60-171 | Every step of creators, threads, kernel, joiners, detachers, reuse and trim keeps the ownership invariant. |
| `ThreadLifecycle.SafeFromTheStart` | Memory/HiddenOOM/ThreadStackLeaked/code/glibc-2.32/pthread_create.c:60-171 | In every interleaving from a process without threads: a block is reused or unmapped only when no thread runs on it, nobody joins it and no creator will touch it; a creator touches only the generation it was given; each block is given back once; user code of a stopped thread runs only after its attributes were applied and the lock released, and never if applying them failed; user code does not run under the descriptor's lock, and a thread created detached is detached. |
| `ThreadLifecycle.ExitingHasRun` | Memory/HiddenOOM/ThreadStackLeaked/code/glibc-2.32/pthread_create.c:434-463 | In every run from a process without threads, a thread that is exiting has run its start routine unless a cancellation landed on it since its block was handed out. |
| `ThreadLifecycle.CreatedThreadRuns` | Memory/HiddenOOM/ThreadStackLeaked/code/glibc-2.32/pthread_create.c:741-860 | From every reachable state and for whatever is asked, stopped start included, a pthread_create on a new or reused block whose calls all succeed reports the thread, which gets to its start routine, detached if it was to be. |
| `ThreadLifecycle.DetachedEnds` | Memory/HiddenOOM/ThreadStackLeaked/code/glibc-2.32/pthread_create.c:344-371 | A running detached thread can end by its own steps and the kernel's alone, and its stack is then cached and free. |
| `ThreadLifecycle.JoinedWhileRunning` | Memory/HiddenOOM/ThreadStackLeaked/code/glibc-2.32/pthread_join_common.c:118-165 | A joinable thread can be joined while it runs; the join then waits for its end and caches the stack, free. |
| `ThreadLifecycle.ThreadKeeps` | Memory/HiddenOOM/ThreadStackLeaked/code/glibc-2.32/pthread_create.c:344-371 | The new thread's steps from start to exit, freeing its own descriptor when detached, keep the slot's invariant. |
| `ThreadLifecycle.CreatorKeeps` | Memory/HiddenOOM/ThreadStackLeaked/code/glibc-2.32/createthread.c:48-153 | The creator's steps, from deciding whether to start stopped over clone and the attribute settings to its failure exits, keep the slot's invariant. |
| `ThreadLifecycle.CreatorOnward` | Memory/HiddenOOM/ThreadStackLeaked/code/glibc-2.32/pthread_create.c:741-860 | What the creator relies on afterwards still holds of its slot. |
| `ThreadLifecycle.CreatorsApart` | Memory/HiddenOOM/ThreadStackLeaked/code/glibc-2.32/pthread_create.c:60-171 | A creator's step does not disturb what creators of other generations of the same block rely on. |
| `ThreadLifecycle.JoinerKeeps` | Memory/HiddenOOM/ThreadStackLeaked/code/glibc-2.32/pthread_join_common.c:130-165 | A join that waits for the kernel's store, marks the thread joined and frees the descriptor keeps the slot's invariant. |
| `ThreadLifecycle.HandOutApart` | Memory/HiddenOOM/ThreadStackLeaked/code/glibc-2.32/补充知识点1相关源码/allocatestack.c:214-252 | Creators of earlier generations have no claim left on a block handed out again. |
| `ThreadLifecycle.TouchMeansClaim` | Memory/HiddenOOM/ThreadStackLeaked/code/glibc-2.32/pthread_create.c:746-860 | Whenever a creator's next instruction touches the descriptor, the block is in use by the very thread it created. |
| `ThreadLifecycle.HandedOver` | Memory/HiddenOOM/ThreadStackLeaked/code/glibc-2.32/createthread.c:55-65 | User code that ran implies the creator succeeded, applied what was asked for and, if it stopped the thread, has released the lock. |
| `ThreadLifecycle.BlockAbandoned` | Memory/HiddenOOM/ThreadStackLeaked/code/glibc-2.32/补充知识点1相关源码/allocatestack.c:130 | A cached block with a tid of at most zero has no thread, no joiner and no creator about to use it. |
| `ThreadLifecycle.LeakedUnlessJoined` | Memory/HiddenOOM/ThreadStackLeaked/code/glibc-2.32/pthread_join_common.c:118-165 | The stack of a joinable thread that has ended stays in use in every run in which nobody joins or detaches it. |
| `ThreadLifecycle.SetupFailureLeaks` | Memory/HiddenOOM/ThreadStackLeaked/code/glibc-2.32/pthread_create.c:818-827 | The stack of a joinable thread that was cloned but whose attributes could not be set stays in use in every run whatsoever. |
| `ThreadLifecycle.SetupLostReached` | Memory/HiddenOOM/ThreadStackLeaked/code/glibc-2.32/createthread.c:117-149 | Such a thread comes about in a run from nothing whenever an affinity or scheduling request is refused. |
| `ThreadLifecycle.SetupLostDies` | Memory/HiddenOOM/ThreadStackLeaked/code/glibc-2.32/pthread_create.c:434-447 | It can then be cancelled before user code and die, its stack still in use. |
| `ThreadLifecycle.JoinedGivesBack` | Memory/HiddenOOM/ThreadStackLeaked/code/glibc-2.32/pthread_join_common.c:118-165 | Joining such a thread, in any reachable state, is possible and puts its stack in the cache, where the next creator can take it. |
| `ThreadLifecycle.DetachedGivesBack` | Memory/HiddenOOM/ThreadStackLeaked/code/glibc-2.32/pthread_create.c:344-371 | Detaching such a thread puts its stack in the cache. |
| `SetxidGate.Kept` | Memory/HiddenOOM/ThreadStackLeaked/code/glibc-2.32/补充知识点1相关源码/allocatestack.c:968-1022 | Every step of a thread, ending normally or by unwinding, of a creator whose clone failed, of the setxid call and of the handler keeps the gate's invariant. |
| `SetxidGate.GateHoldsThroughout` | Memory/HiddenOOM/ThreadStackLeaked/code/glibc-2.32/pthread_create.c:557-571 | In every run of any number of threads and calls: a mark is placed only while EXITING is clear, a thread past the gate is and stays unmarked until its descriptor is recycled, no descriptor is recycled with a mark on it, and no thread is left asleep at the gate once no call is in progress, although the futex waited on differs from the bit tested. |
| `SetxidGate.CallReachesAll` | Memory/HiddenOOM/ThreadStackLeaked/code/glibc-2.32/补充知识点1相关源码/allocatestack.c:1102-1150 | A setxid call misses no thread: in every run the call takes a mark away only from a thread that has run the handler to its end since the call began, or from a descriptor whose clone failed, and it is done with a thread only if that is so or the thread is exiting. |
| `SetxidGate.GateOpens` | Memory/HiddenOOM/ThreadStackLeaked/code/glibc-2.32/pthread_create.c:557-571 | With no call in progress an exiting thread, wherever at the gate, passes it within three of its own steps. |
| `SetxidGate.GateCloses` | Memory/HiddenOOM/ThreadStackLeaked/code/glibc-2.32/pthread_create.c:562-568 | While the mark is on it an exiting thread is asleep within two of its own steps and can then take none until woken. |
| `SetxidGate.CallGetsThrough` | Memory/HiddenOOM/ThreadStackLeaked/code/glibc-2.32/补充知识点1相关源码/allocatestack.c:1068-1150 | A call can be carried through for a thread that runs user code: it is marked, signalled, answers, and is left as it was. |
| `ThreadSpecificData.Thread.VisitSlot` | Memory/HiddenOOM/ThreadStackLeaked/code/glibc-2.32/pthread_create.c:289-317 | One turn of the inner loop clears the slot and calls its destructor with the value held, exactly if key and slot sequence numbers agree and a destructor is registered. |
| `ThreadSpecificData.Thread.Sweep` | Memory/HiddenOOM/ThreadStackLeaked/code/glibc-2.32/pthread_create.c:275-322 | One round visits every slot with the running index equal to its key, also past unallocated blocks, and comes to the specified data, keys, calls and flag; only keys that this round's destructor calls act on are changed otherwise. |
| `ThreadSpecificData.Thread.Round` | Memory/HiddenOOM/ThreadStackLeaked/code/glibc-2.32/pthread_create.c:274-318 | Every value live when a round begins, whose key no destructor called in this round acts on, has its destructor called in this round; a round that leaves the flag clear leaves no data. |
| `ThreadSpecificData.Thread.Deallocate` | Memory/HiddenOOM/ThreadStackLeaked/code/glibc-2.32/pthread_create.c:251-339 | Whatever the destructors do, rounds are made as long as the last one left the flag set, up to four and no further; if data is left after the last round it was the fourth; every round answers for the values it finds; afterwards no slot holds data, only the first block is left and the flag is clear; every call got the value of its own key's slot, found that slot already cleared, and had matching sequence numbers. |
| `ThreadSpecificData.Thread.RunDestructor` | Memory/HiddenOOM/ThreadStackLeaked/code/glibc-2.32/pthread_create.c:315-316 | What destructor code may do: it clears no flag, frees no block, makes no call itself, and leaves other keys alone. |
| `ThreadSpecificData.ClearedSlot` | Memory/HiddenOOM/ThreadStackLeaked/code/glibc-2.32/pthread_create.c:300-301 | Clearing one slot empties it and leaves every other slot alone. |
| `ThreadSpecificData.FirstBlockOnly` | Memory/HiddenOOM/ThreadStackLeaked/code/glibc-2.32/pthread_create.c:326-336 | Dropping the other blocks leaves no data when the first block holds none. |
| `SpawnDescriptors.ForkChild` | Process/StartProcess/code/glib-2.60.7/gspawn.c:1713-1800 | The forked child, or the intermediate child's own child, with the report pipes, the close loop and do_exec's redirections, sees after exec what the step-free description says of every descriptor, and nothing from 3 up when all are to be closed. |
| `SpawnDescriptors.RedirectSlot` | Process/StartProcess/code/glib-2.60.7/gspawn.c:1303-1355 | One redirection of do_exec takes the child's table one stage further, null device opened at the lowest free number and closed again; a source that is not open is the only failure. |
| `SpawnDescriptors.MarkedFirst` | Process/StartProcess/code/glib-2.60.7/gspawn.c:1287-1298 | Marking every descriptor from 3 up close-on-exec before the redirections gives the same view at 0 to 2 as without, and nothing from 3 up. |
| `SpawnDescriptors.CloseListed` | Process/StartProcess/code/glib-2.60.7/gspawn.c:1722-1727 | The close loop closes exactly the descriptors before the first -1. |
| `SpawnDescriptors.ActionsSeen` | Process/StartProcess/code/glib-2.60.7/gspawn.c:1549-1572 | With the three slots recorded and the closes appended, every action works on an open descriptor and the child sees after exec what the step-free description says. |
| `SpawnDescriptors.ClosesLast` | Process/StartProcess/code/glib-2.60.7/gspawn.c:1549-1563 | Closes appended to the actions, one for each of distinct open descriptors, all work and take away exactly those. |
| `SpawnDescriptors.PathsAgree` | Process/StartProcess/code/glib-2.60.7/gspawn.c:1291-1355 | The child sees the same descriptors through fork and through posix_spawn if and only if no slot uses as its source a standard descriptor that a later slot replaces for good. |
| `SpawnDescriptors.RedirectedAsAsked` | Process/StartProcess/code/glib-2.60.7/gspawn.c:1457-1572 | With all sources at 3 or above both paths give exactly the redirection asked for and leave every other descriptor alone, the same descriptor as stdout and stderr included. |
| `SpawnDescriptors.OverwrittenSource` | Process/StartProcess/code/glib-2.60.7/gspawn.c:1549-1563 | A concrete request on which the two paths differ: stdout from 2 and stderr from 5. |
| `SpawnDescriptors.IdleDescriptor` | Process/StartProcess/code/glib-2.60.7/gspawn.c:1465-1479 | A descriptor opened in the parent that no action targets just comes along to the child. |
| `SpawnParent.Parent.OpenPipe` | Process/StartProcess/code/glib-2.60.7/gspawn.c:1677-1681 | Both ends of a new pipe, or neither. |
| `SpawnParent.Parent.AddRedirection` | Process/StartProcess/code/glib-2.60.7/gspawn.c:1479-1547 | Recording one slot opens at most one close-on-exec null device in the parent, takes the recorded actions one slot further, and keeps the close list free of duplicates. |
| `SpawnParent.Parent.AddCloses` | Process/StartProcess/code/glib-2.60.7/gspawn.c:1556-1563 | Recording the closes appends one close for each entry, in order; a negative entry is refused. |
| `SpawnParent.Parent.RecordActions` | Process/StartProcess/code/glib-2.60.7/gspawn.c:1479-1563 | When the recording succeeds, for a usable request, running the actions on the parent's table works at every step and gives the child what the step-free description says. |
| `SpawnParent.Parent.DoPosixSpawn` | Process/StartProcess/code/glib-2.60.7/gspawn.c:1419-1591 | On every exit, each failing library call included, the parent's table is as at entry, and there is a new child exactly on success; that child sees after exec what the step-free description says; with no negative entry to close, the result is the answer of the first of its calls to be refused, and 0 exactly when none of that many calls is. |
| `SpawnParent.Parent.Report` | Process/StartProcess/code/glib-2.60.7/gspawn.c:1806-1905 | The spawn succeeded exactly if the child's redirections worked, it sent fewer than two ints and, with an intermediate child, that one sent the real pid, which is reported; an intermediate child has been waited for. |
| `SpawnParent.Parent.ForkAndReport` | Process/StartProcess/code/glib-2.60.7/gspawn.c:1677-1949 | On every exit of the fork path both report pipes are closed, and a failure leaves no child unwaited for; on success the child, forked with the report pipes open, sees after exec what the step-free description says; for a usable request it succeeds exactly if the pipes open, fork works and the reports read are those of a child that got to exec. |
| `SpawnParent.Parent.ForkExecWithFds` | Process/StartProcess/code/glib-2.60.7/gspawn.c:1600-1949 | On every exit, the fallback after ENOEXEC included, the parent's table is as at entry; the children left to wait for are none on failure or with an intermediate child, and the one reported otherwise; on success the child finds what the request passed asks for, on the path taken; the fork path succeeds exactly on its system answers; the posix_spawn path succeeds when none of its calls is refused, goes on to the fork path and succeeds exactly with it when the first refusal is ENOEXEC, and fails with no further call on any other. |
| `SpawnParent.Parent.ForkExecWithPipes` | Process/StartProcess/code/glib-2.60.7/gspawn.c:1951-2041 | On failure the parent's table is as at entry; on success it has in addition exactly the ends of the pipes asked for, each the other end of what the child's program finds at 0, 1 or 2; slots not asked for are the null device or the caller's as requested, the caller's other descriptors reach the program unless all are to be closed, and nothing else does except, exactly when there is no stdin pipe and pipes are not close-on-exec, the reading end of the program's own stdout; on the fork path it succeeds exactly if every pipe opens, fork works and the reports are good, and otherwise it goes as posix_spawn and its fallback go after the pipes. |
| `SpawnParent.PipesConnected` | Process/StartProcess/code/glib-2.60.7/gspawn.c:1992-2014 | The request built from the three pipes is one on which fork and posix_spawn agree, and a child that gets what it asks for finds its ends of the pipes and everything else as wanted, when 0 to 2 are open. |
| `DecimalNames.FilenameToFd` | Process/StartProcess/code/glib-2.60.7/gspawn.c:1142-1167 | Returns n exactly for a non-empty all-digit numeral of value n up to G_MAXINT and -1 otherwise, with every intermediate value inside int. |
| `DecimalNames.PrefixValue` | Process/StartProcess/code/glib-2.60.7/gspawn.c:1156-1164 | A numeral is worth at least any of its prefixes, which makes the overflow test final. |
| `DecimalNames.ReadsBack` | Process/StartProcess/code/glib-2.60.7/gspawn.c:1142-1167 | The value of a number's decimal name is that number. |
| `PathSearch.PiecesExact` | Process/StartProcess/code/glib-2.60.7/gspawn.c:2144-2158 | The pieces of the path are the one way to cut it at its colons. |
| `PathSearch.StrChrNul` | Process/StartProcess/code/glib-2.60.7/gspawn.c:2080-2088 | The first place with the character at or after the start, or the end of the string. |
| `PathSearch.ScriptArguments` | Process/StartProcess/code/glib-2.60.7/gspawn.c:2048-2077 | The shell's argument vector: /bin/sh, the file, the arguments after the program name; it has a terminator exactly if the original vector is not empty. |
| `PathSearch.CandidateInPlace` | Process/StartProcess/code/glib-2.60.7/gspawn.c:2149-2158 | A piece copied right before the slash makes the buffer hold the candidate's name as a terminated string. |
| `PathSearch.PlaceCandidate` | Process/StartProcess/code/glib-2.60.7/gspawn.c:2144-2158 | The in-place step writes inside the buffer, keeps slash and file name, and reads back as the candidate. |
| `PathSearch.SearchPath` | Process/StartProcess/code/glib-2.60.7/gspawn.c:2131-2222 | The search tries exactly the candidates in order up to the first that runs or fails for a reason not skipped, and otherwise reports EACCES if any attempt did, else the last error. |
| `PathSearch.SearchedOnce` | Process/StartProcess/code/glib-2.60.7/gspawn.c:2141-2219 | That promise determines the attempts and the outcome. |
| `PathSearch.Execute` | Process/StartProcess/code/glib-2.60.7/gspawn.c:2090-2227 | An empty name is ENOENT without an attempt, a name with a slash or no search is tried once with the shell fallback, and otherwise the search goes along the child environment's path if it is asked for and there is one, else this process's if asked for and there is one, else /bin:/usr/bin:. |
| `SystemCall.InvKept` | Process/StartProcess/code/glibc-2.32/system.c:118-188 | Every step of any caller, of either version, failing or cancelled, keeps the protocol's invariant. |
| `SystemCall.ProcessKept` | Process/StartProcess/code/glibc-2.27/system.c:69-109 | The steps under the lock, undo exits included, keep what is saved, ignored and restored in agreement with the reference count. |
| `SystemCall.CallerKept` | Process/StartProcess/code/glibc-2.27/system.c:86-110 | A caller's own mask and the dispositions its command starts with stay as they should along its call. |
| `SystemCall.InsideIgnored` | Process/StartProcess/code/glibc-2.32/system.c:127-136 | Between entering and leaving, whatever others do under the lock, both signals are ignored and the saved dispositions are the program's, so they can be read without the lock. |
| `SystemCall.DispositionsThroughout` | Process/StartProcess/code/glibc-2.32/system.c:90-97 | In every run the counter is the number of callers inside; with the lock free, both signals are ignored and the program's dispositions saved if anyone is inside, and in force if nobody is. |
| `SystemCall.WhileWaiting` | Process/StartProcess/code/glibc-2.32/system.c:127-176 | In every run a waiting caller has SIGINT and SIGQUIT ignored and SIGCHLD blocked, and its command started with each of the two ignored if the program ignores it and with the default action if not. |
| `SystemCall.CallCompletes` | Process/StartProcess/code/glibc-2.32/system.c:118-188 | A caller of either version that finds the lock free, whoever is inside, and that nothing fails for, gets to its command, returns as the last exactly if nobody else is inside, and leaves dispositions, counter and lock as they were. |
| `SystemCall.CancelCompletes` | Process/StartProcess/code/glibc-2.32/system.c:66-97 | A caller cancelled while it waits gives up its reference, and restores both dispositions exactly if it is the last. |
| `SystemCall.RestoredInOrder` | Process/StartProcess/code/glibc-2.32/system.c:66-97 | The last to leave restores SIGINT before SIGQUIT normally, and SIGQUIT before SIGINT after a cancellation or a failure to block. |
| `SystemCall.MaskLost` | Process/StartProcess/code/glibc-2.32/system.c:179-188 | There is a run of 2.32 in which a caller that leaves while another is inside returns with SIGCHLD blocked, which it was not when it came. |
| `SystemCall.MaskAtReturn` | Process/StartProcess/code/glibc-2.32/system.c:179-188 | A caller returns with its own mask in 2.27 always, and in 2.32 exactly if it was the last to leave or had SIGCHLD blocked before. |
| `Popen.ParseMode` | Process/StartProcess/code/glibc-2.32/iopopen.c:121-140 | A mode is accepted exactly if it consists of r, w and e and has exactly one of r and w. |
| `Popen.StillOpenExact` | Process/StartProcess/code/glibc-2.32/iopopen.c:102-103 | A stream is on the chain exactly if some opening of it has no closing after it. |
| `Popen.Streams.constructor` | Process/StartProcess/code/glibc-2.32/iopopen.c:51-54 | Before any opening the chain is empty and well formed. |
| `Popen.Streams.Unlink` | Process/StartProcess/code/glibc-2.32/iopopen.c:253-276 | The walk with a pointer to a pointer takes exactly that stream off the chain, or finds it is not there. |
| `Popen.UnlinkFrom` | Process/StartProcess/code/glibc-2.32/iopopen.c:262-270 | Storing the successor through the pointer leaves the chain of the others in order, at the head and further down. |
| `Popen.Streams.OpenPipe` | Process/StartProcess/code/glibc-2.32/iopopen.c:154-187 | Both ends close-on-exec, the child's end never at the number the child is to use; a failure leaves the table as it was. |
| `Popen.Streams.AddActions` | Process/StartProcess/code/glibc-2.32/iopopen.c:76-86 | The actions, all on open descriptors, give the child its standard end and close every earlier stream whose number was not just replaced. |
| `Popen.Streams.ProcOpen` | Process/StartProcess/code/glibc-2.32/iopopen.c:108-217 | On success the stream is first on the chain with its end of the pipe and the flag asked for, and the child has its standard end on the pipe, no descriptor of an earlier open stream and everything else unchanged; on failure, a stream that is open already included, chain, descriptors and children are as before; and it succeeds when the mode is good, the stream is not open and no call is refused. |
| `Popen.Streams.ProcClose` | Process/StartProcess/code/glibc-2.32/iopopen.c:248-294 | Takes exactly that stream off the chain and closes its descriptor, waits for its child exactly if the close succeeded, and returns the wait's status or -1; fails with nothing changed when the stream is not open. |
| `FrameHandOff.InvKept` | Process/InterProcessComm/code/shm+sem/frame_ipc.c:83-128 | Every step of the producer and of any consumer keeps the hand-off's invariant as long as frames lead with a non-zero int. |
| `FrameHandOff.OneFrameOut` | Process/InterProcessComm/code/shm+sem/frame_ipc.c:83-128 | In every run the semaphore's value and the consumers holding a frame never add up to more than one. |
| `FrameHandOff.NotOverwritten` | Process/InterProcessComm/code/shm+sem/frame_ipc.c:88-97 | From its post to its release a frame stays as it is in the slot, and nothing else is posted. |
| `FrameHandOff.WholeFrames` | Process/InterProcessComm/code/shm+sem/frame_ipc.c:93-122 | What is posted begins with both parts of the frame given; a consumer copies as many words of the one frame not yet received as it asked for, and they stay those of the slot while it uses it. |
| `FrameHandOff.ReceivedAsSent` | Process/InterProcessComm/code/shm+sem/frame_ipc.c:97-122 | The frames received are those sent, in order and once each, up to one still on its way. |
| `FrameHandOff.Sendable` | Process/InterProcessComm/code/shm+sem/frame_ipc.c:83-104 | In every run, whenever the producer is between calls and the slot is free, a frame that fits and leads with a non-zero int can be sent: four steps post it, whole. |
| `FrameHandOff.Receivable` | Process/InterProcessComm/code/shm+sem/frame_ipc.c:116-134 | In every run, whenever a frame is posted, any waiting consumer can take it, copy the part it asks for, and free the slot. |
| `FrameHandOff.LostPost` | Process/InterProcessComm/code/shm+sem/frame_ipc.c:97-101 | After a post that fails, which the sender is not told, the frame is never received and no frame is ever sent again. |
| `FrameHandOff.ZeroLead` | Process/InterProcessComm/code/shm+sem/frame_ipc.c:88-97 | For any free slot and any frame that fits it and does not lead with a non-zero int there is a run that sends only this frame and overwrites it while it waits, with the semaphore at two. |
| `FrameHandOff.SafeExactly` | Process/InterProcessComm/code/shm+sem/frame_ipc.c:88-97 | Sending a frame again and again on a slot never puts more than one in flight if and only if the frame leads with a non-zero int. |

## Left out

- StackAllocator.Allocator.ReclaimStacks: after a fork that cut a list operation, or came between a list change and its size update, only the lists and descriptors are claimed; the recorded cache size is then the old value plus the recycled stacks, whatever the old value was worth.
- StackAllocator.Allocator.Put: the history has the stores in the order of the code; the other orders the barriers admit are covered by ForkRecovery.AddCuts and DelCuts. The stores of ReclaimStacks itself are not in it: nobody else runs in the child, whose own history begins after them.
- StackAllocator.Allocator.AllocateStack: assumes that the permission to execute stacks does not change during an allocation; the branch for that race unmaps a block that is still listed.
- StackAllocator.Allocator.GetCachedStack: the scan is atomic under the lock, so a thread id cleared by the kernel during it counts as cleared before or after; the dynamic thread vector and TLS initialisation are not modelled.
- StackArithmetic.PlanExact: the room for descriptor and static TLS is claimed under the condition that the guard sum does not wrap, which is exactly when the code checks it.
- ThreadLifecycle.SafeFromTheStart: a thread has at most one joiner, pthread_detach is one step of a caller that knows the thread, a thread is known to others once pthread_create returned success or its user code runs, and a trim may take any free cached block rather than the tail-first run; `pthread_join` with block false, robust mutexes, the exit of the last thread and the debugger's event list are not modelled.
- ThreadLifecycle.LeakedUnlessJoined: no claim is made that every stack is eventually freed.
- SetxidGate.CallReachesAll: the signal handler and the delivery of its signal are abstract steps, and the system call it makes is not modelled; tgkill is taken to fail, as the code's comment has it, only for a thread that has not started or is gone; no claim that every call ends.
- ThreadSpecificData.Thread.Deallocate: pthread_setspecific, pthread_key_create and pthread_key_delete are not part of the cited source and act as their usual definitions, from destructors of the same thread only.
- SpawnDescriptors.PathsAgree: descriptors only; the signal dispositions of the two paths differ in SIGPIPE. The mode that closes all descriptors uses fork alone and is in SpawnDescriptors.ForkChild; fdwalk is one step there that visits every open descriptor.
- SpawnParent.Parent.ForkExecWithFds: for requests whose sources are open and whose close list names distinct other descriptors from 3 up, which is what both callers pass; waitpid fails only for interruption or a child already waited for, opening the null device succeeds as the code asserts, and the caller's child_setup function leaves the descriptors alone.
- SpawnParent.Parent.ForkExecWithPipes: the system's answers are numbers given in advance, an int read from a report pipe included, and an error the child meets after its redirections (chdir, exec) is one that the parent reads there.
- SystemCall.DispositionsThroughout: the program changes its dispositions only while nobody is inside, restoring calls succeed, and cancellation is modelled for 2.32 alone.
- SystemCall.MaskAtReturn: no claim for a cancelled caller, whose thread ends.
- Popen.Streams.ProcOpen: the program does not close a stream's descriptor behind its back, and forgets the number of a stream it closes; stream buffers and the lock's cleanup handlers are not modelled.
- Popen.Streams.ProcClose: a wait that is interrupted and repeated is one wait, and a failing close has released the descriptor.
- FrameHandOff.ReceivedAsSent: taking the semaphore does not fail, no process ends in the middle (SEM_UNDO), there is one channel, and the removal of stale segments at creation is the initial state.
- Stacks that grow up, separate register stacks, advise_stack_range and change_stack_perm: platform detail.
- g_spawn_sync's collection of output, shell parsing, error texts, fdwalk's traversal of /proc: input and output.
- The older iopopen.c of glibc 2.27, which has the same chain; ipc.cpp, move.c, backtrace.c, the client and server and the crash demonstrations: mostly input and output.
