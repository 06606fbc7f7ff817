# blog_os batch kernel: a Dafny model

This project models the core of a small kernel written in Rust: its batch
system and the pieces of machine-level logic around it. The trap dispatcher
and the paging code target RISC-V machine mode. The boot binary
(src/main.rs), which holds the second heap allocator, uses an x86_64
bootloader entry point.

- **Tasks and resources.** A task carries a name, ordered arguments, a `u32`
  priority, a two-dimensional resource requirement (`cpu`, `memory`, both
  `u32`) and a status. The resource manager is the authoritative pool. It
  allocates all-or-nothing and releases without a bound check.
- **Scheduler.** A double-ended queue of pending tasks, plus the scheduler's
  own copy of the available resources. `schedule_next_task` pops from the
  front. A task that fits is dispatched and its requirement is taken from the
  local copy. A task that does not fit is pushed to the back, and the loop
  goes on. Priority is never read.
- **Batch run loop.** Dispatch, allocate, execute, release, and count
  completed and failed tasks until the scheduler returns nothing.
- **Trap dispatcher.** Classifies machine-mode traps on a simulated hart that
  holds `mcause`, `mie`, `mstatus` and `mtvec`.
- **Two bump heap allocators.** The library's version rounds with a bit mask.
  The boot binary's version rounds with a remainder.
- **Paging.** Sv39 page-table entries as 64-bit words, and a page bump
  allocator above the kernel heap.

State that the source changes in place is modelled as classes:
`ResourceManager`, `Scheduler`, `BatchSystem`, `Hart`/`TrapFrame`, both
`HeapAllocator`s, `PageTableEntry` and `MemoryManager`. Where a method
computes a new state, its contract is tied to a pure specification function (`Sub`/`Add`, `FirstFit` and
`AfterDispatch`, `InterruptMie`, `AllocStart`, `EntryWord`, `PageAddress`).
The properties are proved about those functions as lemmas.

Rust's debug-mode overflow checks (`+=`, `-=`, `+` on `u32` and `usize`) are
modelled as preconditions that the arithmetic does not overflow. Each such
precondition, and each precondition that stands for a condition the only
caller guarantees, is listed under "Left out". `checked_add` is modelled as an
error path.

Main results:

- `Scheduling.Scheduler.ScheduleNextTask` returns the first task in queue
  order that fits, and the queue ends rotated. `FirstFitIgnoresPriority`
  shows the choice does not depend on priority.
- `Scheduling.UnschedulableQueueCycles` shows the divergence. When the queue
  is non-empty and nothing fits, a full pass of pop and push comes back to
  the start without returning anything.
- `Batch.BatchSystem.Run` keeps the pool back at its total at the top of
  every round. So allocation never fails for a task the scheduler accepted,
  and every task completes.
- `Scheduling.StaleViewStalls` shows that the scheduler's view is never
  restored. Two tasks that each need the whole view do not drain, although
  each fits on its own.
- Each `align_up` returns the least multiple of the alignment that is at
  least the address (`LibHeap.AlignUpIsLeast`, `MainHeap.AlignUpIsLeast`).
  The remainder version agrees with the bit-mask one on powers of two
  (`MainHeap.AlignUpAgrees`).
- Successive successful bump allocations never overlap
  (`LibHeap.SeriesDisjoint`).

The code does not behave like a priority scheduler, and the model follows
the code:

- Selection is first-fit in queue order, not highest priority.
- A non-empty queue in which nothing fits makes `schedule_next_task` loop
  forever. It does not return none.
- Skipped tasks end up behind the ones after the dispatched task, so a
  successful dispatch reorders the queue.
- No operation writes a task's status.

## Model

| member | source | states |
|---|---|---|
| Tasks.Sub | src/resource_manager.rs:20-21 | subtracting a requirement that fits never underflows, stays within the amount, and adding the requirement back gives the amount again |
| Tasks.Add | src/resource_manager.rs:28-31 | adding a requirement (without u32 overflow) gives an amount that both the old amount and the requirement fit in |
| Tasks.AddThenSub | src/resource_manager.rs:16-31 | release followed by allocation of the same requirement restores the availability |
| Resources.ResourceManager.constructor | src/resource_manager.rs:9-14 | total and available both start at the given total |
| Resources.ResourceManager.AllocateResources | src/resource_manager.rs:16-26 | grants iff the requirement fits in both dimensions; on grant, available drops by exactly the requirement; on refusal nothing changes; total never changes |
| Resources.ResourceManager.ReleaseResources | src/resource_manager.rs:28-31 | available rises by exactly the requirement with no check against the total; total unchanged |
| Resources.ResourceManager.GetAvailableResources | src/resource_manager.rs:33-35 | returns the current availability and changes nothing |
| Resources.AccountedBounds | src/resource_manager.rs:16-31 | when available plus all outstanding grants equals the total, available never exceeds the total, and equals it when nothing is held |
| Resources.AllocateKeepsAccount | src/resource_manager.rs:16-26 | a successful allocation keeps available plus outstanding grants equal to the total |
| Resources.ReleaseKeepsAccount | src/resource_manager.rs:28-31 | releasing an outstanding grant cannot overflow u32 and keeps available plus outstanding grants equal to the total |
| Scheduling.FirstFit | src/scheduler.rs:26-36 | the index chosen is that of a task that fits, no earlier task fits, and none is chosen only when no task fits |
| Scheduling.AfterDispatch | src/scheduler.rs:27-33 | the queue left by dispatching the task at k is one shorter and reads the original cyclically from just after k |
| Scheduling.DispatchIsPermutation | src/scheduler.rs:26-36 | after dispatch the queue is one shorter and, with the dispatched task, is the same multiset as before |
| Scheduling.FirstFitIgnoresPriority | src/scheduler.rs:26-41 | queues that agree on requirements dispatch the same index, whatever their priorities |
| Scheduling.Rotations | src/scheduler.rs:31-33 | pop-front-push-back steps keep the queue's length |
| Scheduling.RotationsSplit | src/scheduler.rs:27-34 | n rotations move the first n tasks, in order, behind the rest |
| Scheduling.UnschedulableQueueCycles | src/scheduler.rs:26-36 | on a non-empty queue where nothing fits, every front task fails the check and a full pass returns the queue to its start, so the loop never ends |
| Scheduling.DemandAfterDispatch | src/scheduler.rs:26-36 | dispatch lowers the queue's total demand by exactly the dispatched task's requirement |
| Scheduling.DemandWithinDrains | src/batch_system.rs:33-70 | a queue whose total demand fits the view is drained by repeated dispatch |
| Scheduling.StaleViewStalls | src/scheduler.rs:43-46 | since the view is never restored, two tasks that each need the whole view do not drain, though each alone fits |
| Scheduling.Scheduler.constructor | src/scheduler.rs:14-20 | an empty queue and a local view equal to the given availability |
| Scheduling.Scheduler.AddTask | src/scheduler.rs:22-24 | the task is appended at the back; earlier entries and the view are unchanged |
| Scheduling.Scheduler.CanExecuteTask | src/scheduler.rs:38-41 | a task passes the check exactly when a queue holding only that task would dispatch it |
| Scheduling.Scheduler.UpdateAvailableResources | src/scheduler.rs:43-46 | for a task that fits, the view drops by exactly its requirement without underflow |
| Scheduling.Scheduler.ScheduleNextTask | src/scheduler.rs:26-36 | on an empty queue returns none and changes nothing; otherwise returns the first task in queue order that fits, leaves the tasks after it followed by the skipped ones, and lowers the view by its requirement |
| Scheduling.Scheduler.GetQueueLength | src/scheduler.rs:48-50 | the number of tasks waiting |
| Batch.BatchSystem.constructor | src/batch_system.rs:14-20 | scheduler view and pool both start at the total, with an empty queue |
| Batch.BatchSystem.SubmitTask | src/batch_system.rs:22-24 | the task is appended to the scheduler's queue |
| Batch.BatchSystem.ExecuteTask | src/batch_system.rs:73-91 | the result is always Completed |
| Batch.BatchSystem.GetStatus | src/batch_system.rs:93-99 | reports the queue length and the pool's current availability |
| Batch.BatchSystem.Run | src/batch_system.rs:28-71 | for a queue that drains, ends with an empty queue and the pool back at its total; completed equals the number of tasks submitted and failed is zero; the view ends lowered by the total demand |
| Interrupts.TrapHandler | src/interrupts.rs:17-29 | exceptions resume iff recoverable and only they may move the pc; interrupts always resume, leave the frame alone and update mie as InterruptMie says |
| Interrupts.HandleException | src/interrupts.rs:31-62 | a breakpoint resumes with the saved pc two bytes on; every other exception halts with the frame unchanged |
| Interrupts.InterruptMie | src/interrupts.rs:64-87 | a timer interrupt clears only the timer enable bit, a software interrupt only the software enable bit, any other leaves mie as it was |
| Interrupts.HandleInterrupt | src/interrupts.rs:64-87 | mie becomes InterruptMie of the old mie; mcause, mstatus and mtvec are unchanged |
| Interrupts.Init | src/interrupts.rs:89-101 | mtvec points at the handler in direct mode; only mstatus.MIE is set in mstatus and only the external, timer and software bits in mie |
| Prelude.CheckedAdd | src/lib.rs:83-86 | the sum when it fits in a usize, none exactly when it would wrap |
| LibHeap.AndHighMask | src/lib.rs:101-103 | masking a w-bit number with ones in bits k and up rounds it down to a multiple of 2^k |
| LibHeap.MaskRoundsDown | src/lib.rs:102 | and-ing with !(align - 1) rounds a usize down to a multiple of a power-of-two align |
| LibHeap.AlignUp | src/lib.rs:101-103 | for a power-of-two align and no overflow, the result is a multiple of align in [addr, addr + align) |
| LibHeap.AlignUpIsLeast | src/lib.rs:101-103 | no multiple of align lies between addr and the result: it is the least aligned address at or above addr |
| LibHeap.AllocStart | src/lib.rs:80-94 | a block start is aligned, at or above heap_start and ends by heap_end; there is none exactly when the aligned block would pass heap_end (including a wrapping checked_add) |
| LibHeap.AllocSeries | src/lib.rs:80-94 | a series of allocations gives one outcome per request |
| LibHeap.SeriesWithin | src/lib.rs:80-94 | every block of a series lies in the window the allocator was initialised with |
| LibHeap.SeriesDisjoint | src/lib.rs:88-90 | each successful block begins at or after the end of every earlier one |
| LibHeap.HeapAllocator.constructor | src/lib.rs:66-71 | an empty window at address 0 |
| LibHeap.HeapAllocator.Init | src/lib.rs:73-76 | heap_start is the start and heap_end is start plus size |
| LibHeap.HeapAllocator.Alloc | src/lib.rs:80-94 | returns AllocStart's block and moves heap_start to its end, or returns null and leaves heap_start; heap_end never changes and heap_start never decreases |
| LibHeap.TwoAllocsFollowSeries | src/lib.rs:80-94 | two successive `alloc` calls on one allocator return exactly the first two outcomes of `AllocSeries` (null for a refusal), so the series lemmas hold of the allocator itself |
| LibHeap.HeapAllocator.Dealloc | src/lib.rs:96-98 | changes nothing |
| LibHeap.InitHeap | src/lib.rs:113-119 | the heap is the 100 KiB window at HEAP_START |
| MainHeap.AlignUp | src/main.rs:59-66 | an aligned addr is returned as is; any other moves to a multiple of align strictly between addr and addr + align |
| MainHeap.AlignUpIsLeast | src/main.rs:59-66 | the result is the least multiple of align at or above addr |
| MainHeap.AlignUpAgrees | src/main.rs:59-66 | on power-of-two alignments the remainder rounding is defined wherever the bit-mask rounding is, and gives the same address |
| MainHeap.AllocStart | src/main.rs:69-84 | a block start is aligned, at or above heap_start and ends by heap_end; there is none exactly when the block would pass heap_end |
| MainHeap.AllocStartAgrees | src/main.rs:69-84 | on power-of-two alignments this allocator places every block where the library's does, or both refuse it |
| MainHeap.HeapAllocator.constructor | src/main.rs:46-51 | an empty window at address 0 |
| MainHeap.HeapAllocator.Init | src/main.rs:53-56 | heap_start is the start and heap_end is start plus size |
| MainHeap.HeapAllocator.Alloc | src/main.rs:69-84 | returns AllocStart's block and moves heap_start to its end, or returns null and leaves heap_start; heap_end unchanged |
| MainHeap.HeapAllocator.Dealloc | src/main.rs:86-88 | changes nothing |
| Memory.EntryWord | src/memory.rs:32-34 | the stored entry is valid whatever ppn and flags are; with flags in 10 bits, bits 10-63 hold ppn cut to 54 bits and bits 0-9 hold flags with bit 0 set |
| Memory.PageTableEntry.NewEmpty | src/memory.rs:24-26 | the empty entry is all zeros and not valid |
| Memory.PageTableEntry.IsValid | src/memory.rs:28-30 | an entry is valid exactly when its word is odd, that is, when bit 0 is set |
| Memory.PageTableEntry.SetEntry | src/memory.rs:32-34 | the entry becomes EntryWord of ppn and flags, so it is valid |
| Memory.PageAddress | src/memory.rs:42-52 | the n-th page handed out lies at or above the first page just past the heap |
| Memory.PageAddressAligned | src/memory.rs:5-9 | every page handed out is 4096-aligned, since the first is |
| Memory.PagesDisjoint | src/memory.rs:48-52 | pages handed out later lie at least one page above earlier ones |
| Memory.MemoryManager.constructor | src/memory.rs:42-46 | the next free page is HEAP_START + HEAP_SIZE, just above the heap |
| Memory.MemoryManager.AllocPage | src/memory.rs:48-52 | always returns the old next free page, which is the n-th page address, and advances by exactly one page |

## Left out

- Console output: `println!`, the `print!` macros, `BatchSystemStatus::print` and the trap handlers' diagnostic text. These are I/O only.
- The UART driver (src/uart.rs). It is memory-mapped hardware I/O. The executor (src/executor.rs) is a placeholder.
- `spin::Mutex` and `Arc` locking. The model uses plain owned objects. The scheduler's `resource_manager` handle is never used, so it is not modelled.
- `Scheduler::new` is called with one argument at src/batch_system.rs:17 but takes two at src/scheduler.rs:14. The model builds the scheduler from the total alone.
- `get_last_task` and `get_next_task_priority` are called at src/batch_system.rs:25 and 100 but are defined nowhere. They are not part of this model, so `BatchSystemStatus` has no next-priority field.
- Batch.BatchSystem.ExecuteTask: the busy loop of `execute_task` is not modelled, only its `Completed` result. Its `u32` products `priority * 50_000` and `i * 100` overflow for large priorities, and that is not modelled either.
- Scheduling.Scheduler.ScheduleNextTask: requires that the queue be empty or that some task fit, because otherwise the source loops forever. The divergence itself is stated by `Scheduling.UnschedulableQueueCycles`.
- Batch.BatchSystem.Run: the source returns nothing and only prints the completed and failed counters (src/batch_system.rs:64-67); the model returns that printed summary as the pair `(completedTasks, failedTasks)`.
- Batch.BatchSystem.Run: requires `Drains` of the queue under the scheduler's view, which is exactly when every call to `schedule_next_task` returns. The run loop does not terminate otherwise.
- Resources.ResourceManager.ReleaseResources: requires that the `u32` additions do not overflow. The source panics there in debug builds and wraps in release builds.
- Interrupts.HandleException: requires that `epc + 2` does not overflow `usize` for a breakpoint.
- Interrupts.TrapHandler: `mcause` is modelled as an already-decoded trap cause. `mtval` only feeds diagnostics. The `TrapFrame` register arrays are left out, and only `pc` is kept.
- Interrupts.Init: the CSRs are modelled as sets of bit positions, not 64-bit words. The trap handler's address is a parameter.
- Scheduling.Scheduler.UpdateAvailableResources: requires `CanExecuteTask(task)`, the condition under which the subtractions at src/scheduler.rs:44-45 do not underflow; the only caller checks it first (src/scheduler.rs:28-29).
- LibHeap.AlignUp: requires a power-of-two alignment, as `Layout` guarantees, and that `addr + align` does not overflow `usize` (the sum is formed before 1 is subtracted, so debug builds panic already when it reaches 2^64); `AlignUpIsLeast`, `AllocStart`, `Allocatable`, `HeapAllocator.Alloc` and the `MainHeap` agreement lemmas carry the same bound.
- MainHeap.AlignUp: requires a non-zero alignment, and that the rounded address does not overflow `usize`.
- LibHeap.HeapAllocator.Init: requires that `heap_start + heap_size` does not overflow `usize`. The same holds for MainHeap.HeapAllocator.Init.
- LibHeap.HeapAllocator.Alloc: the null pointer is address 0, so a block placed at address 0 cannot be told apart from failure. The same holds for MainHeap.HeapAllocator.Alloc.
- Memory.MemoryManager.AllocPage: requires that `next_free_page + PAGE_SIZE` does not overflow `usize`. The page count is ghost state.
- `memory::init` is not modelled: the root page table, the SATP write, the TLB flush and the once-guard are hardware and atomics. `PageTableEntry`'s `Copy` semantics are not modelled either.
- `_start`, the panic and allocation-error handlers, `exit_qemu`, `test_runner` and build.rs are boot and test plumbing.
- Cloning a `Task` or a `ResourceRequirements` is value identity in the model.
