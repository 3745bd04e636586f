/**
 * The scheduler as the kernel runs it: a `Tasks` object whose methods update
 * its fields in place.  Each method is proved to compute exactly the
 * corresponding function of module SchedulerSpec, where the scheduling
 * properties are proved.
 */
module Scheduler {
  import opened Wrappers
  import opened TaskTypes
  import opened RingOrder
  import opened SchedulerSpec

  /** A method's outcome and final state are those of its specification function. */
  ghost predicate Agrees<T>(out: Result<T, Fatal>, now: Registry, spec: Result<(Registry, T), Fatal>) {
    match spec
    case Err(e) => out == Err(e)
    case Ok((r, v)) => out == Ok(v) && now == r
  }

  /**
   * The loop of `find_next_work_item` over the candidates: sleeping tasks are
   * passed over, and the index of the first task that is not asleep is
   * returned (`|cands|` when all of them sleep).
   */
  method Scan(tasks: map<TaskId, Task>, cands: seq<TaskId>) returns (i: nat)
    requires forall x :: x in cands ==> x in tasks
    ensures i == match FirstRunnable(tasks, cands) case Some(k) => k case None => |cands|
  {
    i := 0;
    while i < |cands| && tasks[cands[i]].state.Sleep?
      invariant i <= |cands|
      invariant forall j :: 0 <= j < i ==> tasks[cands[j]].state.Sleep?
    {
      i := i + 1;
    }
    if i < |cands| {
      FirstRunnableAt(tasks, cands, i);
    }
  }

  /** The task registry `Tasks`, with the task states held by value. */
  class Tasks {
    var entries: map<TaskId, Task>
    var order: seq<TaskId>
    var current: Option<TaskId>
    var nextId: nat

    /** The registry as a value. */
    function Snapshot(): Registry
      reads this
    {
      Registry(entries, order, current, nextId)
    }

    ghost predicate Valid()
      reads this
    {
      WellFormed(Snapshot())
    }

    /** The empty registry of `start`: no tasks, no current task, next id 1. */
    constructor ()
      ensures Valid() && Snapshot() == NewRegistry()
    {
      entries := map[];
      order := [];
      current := None;
      nextId := 1;
    }

    /**
     * `Tasks::create` for an echo task starting from `initial`: take the id
     * and bump `nextId`, then allocate the state cell, the future, its cell
     * and the task, and insert it, each of which fails once the allocator's
     * `available` allocations are used up.
     */
    method Create(initial: TrapFrame, available: nat) returns (res: Result<TaskId, MemoryExhausted>)
      requires Valid()
      modifies this
      ensures Valid()
      ensures (Snapshot(), res) == Register(old(Snapshot()), initial, available)
    {
      var id := nextId;
      nextId := nextId + 1;
      var left := available;
      if left == 0 {
        return Err(MemoryExhausted);
      }
      left := left - 1;
      var state := Wake;
      if left == 0 {
        return Err(MemoryExhausted);
      }
      left := left - 1;
      var body := Echo(initial, false);
      if left == 0 {
        return Err(MemoryExhausted);
      }
      left := left - 1;
      if left == 0 {
        return Err(MemoryExhausted);
      }
      left := left - 1;
      var task := Task(state, body);
      if left == 0 {
        return Err(MemoryExhausted);
      }
      // the fresh id exceeds every key, so the ordered insert goes last
      AppendIncreasing(order, id);
      entries := entries[id := task];
      order := order + [id];
      res := Ok(id);
    }

    /** `save_current_task`: overwrite the current task's `User` frame with the incoming one. */
    method SaveCurrentTask(frame: TrapFrame) returns (prev: TaskId)
      requires Valid()
      modifies this`entries
      ensures Valid()
      ensures (Snapshot(), prev) == Save(old(Snapshot()), frame)
    {
      match current
      case Some(id) =>
        var t := entries[id];
        if t.state.User? {
          entries := entries[id := t.(state := User(frame))];
        }
        prev := id;
      case None =>
        prev := Sentinel;
    }

    /** `find_next_work_item`: the first task after `prev` that is not asleep becomes current. */
    method FindNextWorkItem(prev: TaskId) returns (res: Result<(TaskId, WorkItem), Fatal>)
      requires Valid()
      modifies this`current
      ensures Valid()
      ensures match Select(old(Snapshot()), prev)
              case Err(e) => res == Err(e) && Snapshot() == old(Snapshot())
              case Ok((r', id, work)) => res == Ok((id, work)) && Snapshot() == r'
    {
      ghost var r := Snapshot();
      ghost var sel := Select(r, prev);
      var cands := Candidates(order, prev);
      var i := Scan(entries, cands);
      if i == |cands| {
        assert sel == Err(NoTaskReady);
        return Err(NoTaskReady);
      }
      var id := cands[i];
      current := Some(id);
      assert sel == Ok((Snapshot(), id, WorkFor(entries[id].state)));
      match entries[id].state
      case User(f) =>
        res := Ok((id, UserWork(f)));
      case _ =>
        res := Ok((id, KernelWork));
    }

    /**
     * `TaskHandle::step`: the task's state becomes `User(frame)`.  It is
     * called only from inside a continuation's poll (`PollContinuation`),
     * which marks a first step as started; on its own it may leave a task
     * that has not started in `User`, which `Valid` rules out.
     */
    method Step(id: TaskId, frame: TrapFrame)
      requires id in entries
      modifies this`entries
      ensures entries == old(entries)[id := StepTask(old(entries)[id], frame)]
    {
      entries := entries[id := entries[id].(state := User(frame))];
    }

    /**
     * One poll of task `id`'s echo continuation, up to its next suspension:
     * on the first poll it steps with its initial frame; afterwards it polls
     * its `Step` and, when a frame has arrived, steps with that frame.
     */
    method PollContinuation(id: TaskId) returns (res: Result<Poll<()>, Fatal>)
      requires Valid() && id in entries
      modifies this`entries
      ensures Valid()
      ensures match Resume(old(entries)[id])
              case Err(e) => res == Err(e) && entries == old(entries)
              case Ok((t, p)) => res == Ok(p) && entries == old(entries)[id := t]
    {
      var t := entries[id];
      if !t.body.started {
        entries := entries[id := t.(body := t.body.(started := true))];
        Step(id, t.body.initial);
        // awaiting the fresh `Step` sees `User` and suspends
        assert PollStep(entries[id].state) == Ok(Pending);
        return Ok(Pending);
      }
      var polled := PollStep(t.state);
      match polled
      case Err(e) =>
        return Err(e);
      case Ok(Pending) =>
        return Ok(Pending);
      case Ok(Ready(f)) =>
        Step(id, f);
        assert PollStep(entries[id].state) == Ok(Pending);
        return Ok(Pending);
    }

    /**
     * The kernel-work arm of the loop in `switch`: poll the selected task's
     * continuation once.  An echo continuation never completes, so the
     * `Ready` panic of that arm is never reached.
     */
    method DriveTask(id: TaskId)
      requires Valid() && id in entries
      requires entries[id].state.Entry? || entries[id].state.Wake?
      modifies this`entries
      ensures Valid()
      ensures Snapshot() == Drive(old(Snapshot()), id).value
    {
      EchoResume(entries[id]);
      var polled := PollContinuation(id);
      assert polled == Ok(Pending);
    }

    /**
     * `switch`: save the incoming frame, then select and drive tasks until
     * one has a `User` frame, which is returned.
     */
    method Switch(frame: TrapFrame) returns (res: Result<TrapFrame, Fatal>)
      requires Valid()
      modifies this
      ensures Agrees(res, Snapshot(), SchedulerSpec.Switch(old(Snapshot()), frame))
      ensures res.Ok? ==> Valid()
    {
      ghost var spec := SchedulerSpec.Switch(old(Snapshot()), frame);
      var prev := SaveCurrentTask(frame);
      while true
        invariant Valid()
        invariant SwitchLoop(Snapshot(), prev) == spec
        decreases KernelPending(Snapshot())
      {
        ghost var r := Snapshot();
        ghost var sel := Select(r, prev);
        SwitchLoopRound(r, prev);
        var item := FindNextWorkItem(prev);
        match item
        case Err(e) =>
          assert sel == Err(e);
          return Err(e);
        case Ok((id, UserWork(f))) =>
          assert sel == Ok((Snapshot(), id, UserWork(f)));
          return Ok(f);
        case Ok((id, KernelWork)) =>
          assert sel == Ok((Snapshot(), id, KernelWork));
          DriveTask(id);
          prev := id;
      }
    }

    /**
     * `dispatch_syscall`: record the syscall frame as the current task's
     * `Entry`, insisting that the task was in `User`, then `switch`.
     */
    method DispatchSyscall(frame: TrapFrame) returns (res: Result<TrapFrame, Fatal>)
      requires Valid()
      modifies this
      ensures Agrees(res, Snapshot(), Dispatch(old(Snapshot()), frame))
      ensures res.Ok? ==> Valid()
    {
      if current.None? {
        return Err(NoCurrentTask);
      }
      var c := current.value;
      var previous := entries[c].state;
      entries := entries[c := entries[c].(state := Entry(frame))];
      if !previous.User? {
        return Err(SyscallFromKernel(previous));
      }
      assert forall id :: id in entries ==> id in old(entries);
      res := Switch(frame);
    }
  }
}
