# crabos task scheduler in Dafny

This project models the task-switching core of the crabos kernel, `kernel/src/task.rs`. The kernel runs on one CPU and shares that CPU's register context among several tasks. Each task alternates between two modes:

- running user-mode code, whose saved registers are a *trap frame*;
- running a kernel-side continuation, an async state machine that handles the traps the user code raises.

The scheduler keeps:

- a registry of tasks, ordered by id;
- a `current` slot;
- a `next_id` counter.

Each task has a four-way state: `Entry(frame)`, `Wake`, `Sleep` or `User(frame)`.

`switch` works in three phases:

1. It saves the incoming frame into the current task, if that task is in `User`.
2. It walks the ids round robin after the previous task, skipping sleepers.
3. It goes round the ring. Each task it meets with kernel work (`Entry` or `Wake`) is driven one suspension further. The first task it meets in `User` ends the pass, and that task's frame is returned. Tasks with kernel work further round the ring are not polled in that pass.

`dispatch_syscall` records a syscall as `Entry(frame)` on the current task and then switches. A continuation talks to the scheduler through `TaskHandle::step`, which sets `User(frame)`, and `Step::poll`, which hands back the next `Entry` frame.

The project has five modules:

- `Wrappers` (wrappers.dfy) holds `Option` and `Result`.
- `TaskTypes` (task_types.dfy) holds:
  - the trap frame, task id and task state;
  - the step protocol;
  - the echo continuation that `start` gives to both boot tasks. It steps with its initial frame, then forever with the frame it was last given.
  - The continuation is a small state machine, `Echo(initial, started)`. `Resume` is its literal poll. `Advanced` is the one-step transition it is proved to perform.
- `RingOrder` (ring_order.dfy) holds the candidate order `range(prev..).skip(1).chain(range(..=prev))`. It is written literally over the sorted key sequence, and the rotation properties are proved about it.
- `SchedulerSpec` (scheduler_spec.dfy) holds the registry as a value (`Registry`) and every operation as a function over it, with the scheduling properties as lemmas. Every panic of the source is an `Err(Fatal)`.
- `Scheduler` (scheduler.dfy) holds the class `Tasks`, whose fields the methods update in place as the source does. Each method is proved to compute exactly a pure function, so the lemmas about that function carry over. For `Step` and `PollContinuation` the function is `TaskTypes.StepTask` or `TaskTypes.Resume`. For every other method it is the matching function in `SchedulerSpec`.
- `Boot` (boot.dfy) holds:
  - `start` up to its jump to user mode;
  - lemmas that follow the two boot tasks through the first two passes of `switch`.

The ordered map becomes `entries: map<TaskId, Task>` plus `order: seq<TaskId>`, the map's key order (strictly increasing). Each task holds its state cell and its continuation.

The boot scenario follows the code. `start` makes task 1 current before the first `switch`. That switch therefore saves task 1 as the previous id, and the ring starts at task 2. The sequence is:

1. Task 2 is driven from `Wake` to `User`.
2. The ring wraps, and task 1 is driven.
3. Task 2's `User` frame is returned, with task 2 current.

Task 2 is driven before task 1 because the ring starts after the current task, task 1.

## Model

| member | source | states |
|---|---|---|
| RingOrder.AtLeast | kernel/src/task.rs:159 | `range(prev..)`: exactly the keys at or above the bound, still in ascending order |
| RingOrder.AtMost | kernel/src/task.rs:161 | `range(..=prev)`: exactly the keys at or below the bound, still in ascending order |
| RingOrder.Candidates | kernel/src/task.rs:159-161 | the candidate sequence visits only registered ids |
| RingOrder.AtLeastFromKey | kernel/src/task.rs:159-160 | when `prev` is a key, `range(prev..)` starts with `prev`, so `skip(1)` drops exactly `prev` |
| RingOrder.SplitIsPermutation | kernel/src/task.rs:159-161 | the keys above `prev` and the keys up to `prev` together are all keys, each once |
| RingOrder.Rotation | kernel/src/task.rs:159-163 | for `prev` a key: the candidates are the keys above `prev` ascending, then the keys up to `prev` ascending; they are a permutation of the keys, pairwise distinct, with `prev` last |
| RingOrder.SentinelDropsSmallest | kernel/src/task.rs:141-161 | with the sentinel `prev` below every key, the smallest key is not a candidate (the `skip(1)` quirk) |
| RingOrder.CandidatesFollowRing | kernel/src/task.rs:159-163 | an earlier candidate comes no later on the id ring after `prev` than a later one |
| RingOrder.CandidatesCoverKeys | kernel/src/task.rs:159-163 | from a key `prev`, every registered id is a candidate |
| TaskTypes.StepTask | kernel/src/task.rs:263-269 | `TaskHandle::step(f)`: the shared state becomes `User(f)` and the continuation is untouched |
| TaskTypes.PollStep | kernel/src/task.rs:280-287 | `Step::poll`: `Entry(f)` gives `Ready(f)`, `Wake` and `User` give `Pending`, `Sleep` gives the `StepSawSleep` panic, and these are the only cases of each |
| TaskTypes.Resume | kernel/src/task.rs:89-103 | one poll of the echo future: it never completes (always `Pending`); it panics exactly when a started task is asleep; afterwards the task is marked started, keeps its initial frame, and its state is unchanged or `User` |
| TaskTypes.PollStepProtocol | kernel/src/task.rs:263-287 | after `step(f)` the returned `Step` is pending; once a trap records `Entry(g)` it delivers `g` |
| TaskTypes.EchoResume | kernel/src/task.rs:89-103 | one poll of an echo continuation on a coherent, awake task never completes. It moves `Wake` to `User(initial)` and `Entry(f)` to `User(f)`, leaves `User` unchanged, and keeps the task coherent |
| TaskTypes.StartedWakeStalls | kernel/src/task.rs:280-284 | a started echo task put back into `Wake` is not coherent, and polling it changes nothing and is pending |
| TaskTypes.AdvancedIdempotent | kernel/src/task.rs:89-103 | a second drive right after the first changes nothing |
| SchedulerSpec.NewRegistry | kernel/src/task.rs:83-87 | the initial registry is empty, has no current task and is well formed |
| SchedulerSpec.Register | kernel/src/task.rs:51-79 | `create` takes id `next_id` and bumps `next_id` whatever happens. It succeeds exactly when all allocations can be met; the new id was unregistered and maps to a fresh `Wake` task; on failure the map and order are unchanged; well-formedness is kept |
| SchedulerSpec.RegisterAll | kernel/src/task.rs:51-79 | a run of registrations keeps the registry well formed and yields one outcome per attempt |
| SchedulerSpec.RegisteredIdsIncrease | kernel/src/task.rs:54-55 | the i-th registration of a run gets id `next_id + i` even when earlier ones failed. Returned ids are strictly increasing, never 0 and never already registered |
| SchedulerSpec.Save | kernel/src/task.rs:121-145 | `save_current_task` changes only the current task, and only a `User` frame, which becomes the incoming frame. It returns the current id, or the sentinel 0 when there is none; the key set and well-formedness are kept |
| SchedulerSpec.FirstRunnable | kernel/src/task.rs:163-182 | the index found holds a non-sleeping candidate, and every candidate before it (all, when none is found) sleeps |
| SchedulerSpec.FirstRunnableAt | kernel/src/task.rs:163-182 | an awake candidate preceded only by sleepers is the one found |
| SchedulerSpec.Select | kernel/src/task.rs:152-185 | `find_next_work_item` fails only with "no task ready". Otherwise it makes the chosen registered, non-sleeping task current and changes nothing else. It yields kernel work exactly for `Entry`/`Wake`, and for `User(f)` exactly `f` |
| SchedulerSpec.SelectAt | kernel/src/task.rs:163-181 | the first awake candidate after sleepers is selected, with its work item |
| SchedulerSpec.SelectFirstAwake | kernel/src/task.rs:163-184 | selection panics exactly when every candidate sleeps; otherwise it picks an awake candidate with only sleepers before it |
| SchedulerSpec.SelectIsRoundRobin | kernel/src/task.rs:159-184 | from a registered `prev`, selection succeeds exactly when some task is awake, and it picks the first awake task on the id ring after `prev` |
| SchedulerSpec.Drive | kernel/src/task.rs:191-202 | polling a selected kernel-work task never completes (no `task finished!` panic). It advances that task only, to `User`, and takes it out of the kernel-pending set |
| SchedulerSpec.AdvancesCompose | kernel/src/task.rs:189-208 | driving one task and then making a pass is itself a pass |
| SchedulerSpec.SwitchLoop | kernel/src/task.rs:189-208 | the loop exits only through a `User` work item. The returned frame is the stored `User` frame of the task left current; ids, order and `next_id` are unchanged; every task is unchanged or driven once. It terminates because the kernel-pending set shrinks |
| SchedulerSpec.SwitchLoopRound | kernel/src/task.rs:189-208 | one round of the loop: a panic or a `User` frame ends it; kernel work is driven and the loop goes on from the driven id with fewer kernel-pending tasks |
| SchedulerSpec.Switch | kernel/src/task.rs:120-209 | `switch` saves the frame, then returns a frame that is the `User` frame of the new current task, having only driven tasks |
| SchedulerSpec.SleepersUntouched | kernel/src/task.rs:163-170 | a pass neither changes a sleeping task nor makes it current |
| SchedulerSpec.SwitchLoopTotal | kernel/src/task.rs:189-208 | from a registered previous id with some task awake, the loop never panics |
| SchedulerSpec.SaveKeepsAwake | kernel/src/task.rs:129-138 | the save phase changes no task's sleeping status and no task's being in `User` |
| SchedulerSpec.SwitchIsRoundRobin | kernel/src/task.rs:120-209 | when every awake task is in `User`, `switch` drives nothing. It makes current the first awake task on the ring after the current one, and returns its frame; repeated calls therefore cycle through the awake tasks |
| SchedulerSpec.SwitchNeverStuck | kernel/src/task.rs:120-209 | with a current task and some task awake, `switch` always returns a frame |
| SchedulerSpec.Dispatch | kernel/src/task.rs:211-235 | `dispatch_syscall` panics without a current task, and panics with the previous state when that state was not `User`; it succeeds only from `User`. On success its result is `switch`'s on the registry with the syscall recorded as `Entry(frame)`: ids, order and `next_id` unchanged, every task unchanged or driven once, and the returned frame is the `User` frame of the new current task |
| SchedulerSpec.DispatchDelivers | kernel/src/task.rs:211-235 | a syscall from `User` always gets a frame back. The calling task ends holding the syscall frame as `Entry`, or as `User` once its continuation has consumed it |
| SchedulerSpec.SentinelSkipsLowestTask | kernel/src/task.rs:141-161 | with no current task, tasks {1 awake, 2 asleep}: `switch` panics with "no task ready" although task 1 is awake |
| Scheduler.Scan | kernel/src/task.rs:163-182 | the `for` loop passes over sleepers and stops at the first task not asleep, as `FirstRunnable` says |
| Scheduler.Tasks.constructor | kernel/src/task.rs:83-87 | the new registry is the empty one |
| Scheduler.Tasks.Create | kernel/src/task.rs:51-79 | the fields become `Register`'s result: five allocations, each of which may fail, then the insert |
| Scheduler.Tasks.SaveCurrentTask | kernel/src/task.rs:121-145 | the in-place save yields `Save`'s registry and previous id |
| Scheduler.Tasks.FindNextWorkItem | kernel/src/task.rs:152-185 | assigns `current` and returns the work item exactly as `Select` does, or its panic |
| Scheduler.Tasks.Step | kernel/src/task.rs:263-269 | `step(f)` sets the task's state to `User(f)` and nothing else |
| Scheduler.Tasks.PollContinuation | kernel/src/task.rs:89-103 | one poll of a task's echo future updates the task and returns the poll result as `Resume` does, keeping the registry well formed |
| Scheduler.Tasks.DriveTask | kernel/src/task.rs:191-202 | the kernel-work arm updates the registry as `Drive` does |
| Scheduler.Tasks.Switch | kernel/src/task.rs:120-209 | the loop returns `Switch`'s frame or panic, and leaves `Switch`'s registry |
| Scheduler.Tasks.DispatchSyscall | kernel/src/task.rs:211-235 | returns `Dispatch`'s frame or panic, and leaves its registry |
| Boot.BootRegistry | kernel/src/task.rs:82-105 | the two boot tasks get ids 1 and 2; with task 1 current, the registry is the booted one |
| Boot.BootCandidates | kernel/src/task.rs:159-161 | on tasks {1, 2} the ring after 1 is [2, 1], and after 2 it is [1, 2] |
| Boot.FirstRound | kernel/src/task.rs:187-202 | the first round of the first switch selects and drives task 2 |
| Boot.SecondRound | kernel/src/task.rs:189-202 | the second round wraps to task 1 and drives it |
| Boot.ThirdRound | kernel/src/task.rs:189-206 | the third round finds task 2 in `User` and returns its starting frame |
| Boot.FirstSwitch | kernel/src/task.rs:105-111 | the first switch from boot returns task 2's starting frame, with both tasks in `User` and task 2 current |
| Boot.SecondSwitch | kernel/src/task.rs:120-209 | the next switch stores the incoming frame in task 2, then returns task 1's starting frame directly, with task 1 current and nothing driven |
| Boot.Start | kernel/src/task.rs:82-111 | `start` fails with `MemoryExhausted` exactly when either registration runs out of memory. Otherwise it resumes task 2's starting frame, with the registry left by the first switch |

## Left out

- The inline assembly that jumps to `interrupt_return`, and the final `loop {}` of `start`: hardware control transfer. `Boot.Start` returns the frame it would resume.
- The global `TASKS` mutex, the per-task `Arc<Mutex<..>>` cells and their lock order. The model has one owner. The state cell shared between a task and its `TaskHandle` is the task's `state` field, which `Step` and `PollContinuation` update directly.
- The `"TASKS is not Some"` checks: the registry is always present in the model.
- The waker vtable and its panicking stubs: nothing ever wakes a task.
- `Pin`/`Box`/`dyn Future` construction, and what a failed allocation of each one looks like. Allocation is a budget: `create` needs five allocations, and `available` says how many the allocator will still grant. Which allocation fails does not change the outcome.
- `PageCtx` and `page::current_ctx()`: never read by this logic.
- `TrapFrame` internals and `SEG_UCODE`/`SEG_UDATA`. A frame is an (entry, stack) pair compared only for equality.
- Continuations other than the echo loop of `start`. They are boxed closures supplied by callers, and no other caller is part of this model. A continuation that completes would trip the `task finished!` panic. `Drive` models that arm, but it is unreachable for echo tasks.
- How a task enters or leaves `Sleep`: nothing in this file does it. `Sleep` appears only as a state that other code may set.
- SchedulerSpec.WellFormed assumes that no outside code puts a task whose continuation has started back into `Wake`. Waking a sleeper to `Wake` would do that. `Step::poll` is pending on `Wake`, so polling such a task changes nothing (`TaskTypes.StartedWakeStalls`). The source's `switch` would then select it again and again and loop forever. The termination measure, `Drive`'s move to `User`, and `SwitchNeverStuck` all hold only for registries without such a task.
- SchedulerSpec.Register: `next_id` is an unbounded `nat`. The source's `u64` overflow after 2^64 registrations is not modelled.
- The registry left behind by a panic: every `Err(Fatal)` aborts the kernel, so the model does not say what the fields hold afterwards.
