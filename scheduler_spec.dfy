/**
 * The scheduler of `kernel/src/task.rs` as functions on a registry value:
 * task registration, the save phase, round-robin selection, one drive of a
 * continuation, the select-and-drive loop of `switch`, and syscall dispatch.
 * The class in module Scheduler is proved to compute exactly these.
 */
module SchedulerSpec {
  import opened Wrappers
  import opened TaskTypes
  import opened RingOrder

  /**
   * The fallible allocations of `Tasks::create`: the state cell, the boxed
   * future, the future's cell, the task's cell and the map insert.
   */
  const Allocations: nat := 5

  /** What selection found: a continuation to drive, or a frame to resume. */
  datatype WorkItem = KernelWork | UserWork(frame: TrapFrame)

  /**
   * `Tasks`: the tasks by id, the ids in ascending order (the order of the
   * `BTreeMap`), the current task and the next id to hand out.
   */
  datatype Registry = Registry(
    entries: map<TaskId, Task>,
    order: seq<TaskId>,
    current: Option<TaskId>,
    nextId: nat)

  /**
   * The registry invariant: `order` lists exactly the registered ids in
   * ascending order, every id lies strictly between the sentinel 0 and
   * `nextId`, the current task is registered, and every task is coherent.
   */
  ghost predicate WellFormed(r: Registry) {
    && StrictlyIncreasing(r.order)
    && (forall id :: id in r.order <==> id in r.entries)
    && (forall id :: id in r.entries ==> Sentinel < id < r.nextId)
    && 0 < r.nextId
    && (r.current.Some? ==> r.current.value in r.entries)
    && (forall id :: id in r.entries ==> Coherent(r.entries[id]))
  }

  /** The registry `start` builds before registering anything. */
  function NewRegistry(): (r: Registry)
    ensures WellFormed(r) && r.entries == map[] && r.current.None?
  {
    Registry(map[], [], None, 1)
  }

  /**
   * `Tasks::create` for an echo task starting from `initial`, when the
   * allocator will satisfy `available` more allocations.  The id is taken and
   * `nextId` bumped before any allocation, so even a failed registration uses
   * up its id; a failure leaves the tasks as they were.
   */
  function Register(r: Registry, initial: TrapFrame, available: nat)
    : (res: (Registry, Result<TaskId, MemoryExhausted>))
    requires WellFormed(r)
    ensures WellFormed(res.0)
    ensures res.0.nextId == r.nextId + 1 && res.0.current == r.current
    ensures res.1.Ok? <==> Allocations <= available
    ensures res.1.Ok? ==>
              && res.1.value == r.nextId
              && res.1.value !in r.entries
              && res.0.entries == r.entries[res.1.value := Task(Wake, Echo(initial, false))]
    ensures res.1.Err? ==> res.0.entries == r.entries && res.0.order == r.order
  {
    var id := r.nextId;
    var bumped := r.(nextId := r.nextId + 1);
    if available < Allocations then
      (bumped, Err(MemoryExhausted))
    else
      AppendIncreasing(r.order, id);
      (bumped.(entries := bumped.entries[id := Task(Wake, Echo(initial, false))],
               order := bumped.order + [id]),
       Ok(id))
  }

  /** A run of registrations, each with its own initial frame and allocator budget. */
  function RegisterAll(r: Registry, attempts: seq<(TrapFrame, nat)>)
    : (res: (Registry, seq<Result<TaskId, MemoryExhausted>>))
    requires WellFormed(r)
    ensures WellFormed(res.0) && |res.1| == |attempts|
    decreases |attempts|
  {
    if attempts == [] then (r, [])
    else
      var (r1, first) := Register(r, attempts[0].0, attempts[0].1);
      var (r2, rest) := RegisterAll(r1, attempts[1..]);
      (r2, [first] + rest)
  }

  /**
   * Ids are never reused: the i-th registration of a run owns id
   * `nextId + i` whether or not it succeeds, so the ids returned are strictly
   * increasing, never 0 and never an id already registered.
   */
  lemma {:induction false} RegisteredIdsIncrease(r: Registry, attempts: seq<(TrapFrame, nat)>)
    requires WellFormed(r)
    ensures RegisterAll(r, attempts).0.nextId == r.nextId + |attempts|
    ensures forall i :: 0 <= i < |attempts| && RegisterAll(r, attempts).1[i].Ok? ==>
              && RegisterAll(r, attempts).1[i].value == r.nextId + i
              && RegisterAll(r, attempts).1[i].value !in r.entries
              && RegisterAll(r, attempts).1[i].value != Sentinel
    ensures var ids := RegisterAll(r, attempts).1;
            forall i, j :: 0 <= i < j < |attempts| && ids[i].Ok? && ids[j].Ok? ==> ids[i].value < ids[j].value
    decreases |attempts|
  {
    if attempts != [] {
      var (r1, first) := Register(r, attempts[0].0, attempts[0].1);
      RegisteredIdsIncrease(r1, attempts[1..]);
      var ids := RegisterAll(r, attempts).1;
      assert ids == [first] + RegisterAll(r1, attempts[1..]).1;
      forall i | 0 <= i < |attempts| && ids[i].Ok?
        ensures ids[i].value == r.nextId + i && ids[i].value !in r.entries
      {
        if i > 0 {
          assert ids[i] == RegisterAll(r1, attempts[1..]).1[i - 1];
        }
      }
    }
  }

  /**
   * `save_current_task`: only the current task can change, and only a `User`
   * state, whose frame becomes the incoming one.  The result is the current
   * task's id, or the sentinel when there is none.
   */
  function Save(r: Registry, frame: TrapFrame): (res: (Registry, TaskId))
    requires WellFormed(r)
    ensures WellFormed(res.0)
    ensures res.1 == if r.current.Some? then r.current.value else Sentinel
    ensures res.0 == r.(entries := res.0.entries) && res.0.entries.Keys == r.entries.Keys
    ensures forall id :: id in r.entries && id != res.1 ==> res.0.entries[id] == r.entries[id]
    ensures r.current.Some? ==>
              res.0.entries[res.1] ==
              if r.entries[res.1].state.User? then r.entries[res.1].(state := User(frame))
              else r.entries[res.1]
  {
    match r.current
    case None => (r, Sentinel)
    case Some(id) =>
      var t := r.entries[id];
      if t.state.User? then (r.(entries := r.entries[id := t.(state := User(frame))]), id)
      else (r, id)
  }

  /** The index of the first candidate that is not asleep. */
  function FirstRunnable(entries: map<TaskId, Task>, cands: seq<TaskId>): (k: Option<nat>)
    requires forall x :: x in cands ==> x in entries
    ensures k.Some? ==> k.value < |cands| && !entries[cands[k.value]].state.Sleep?
    ensures forall j :: 0 <= j < |cands| && (k.None? || j < k.value) ==> entries[cands[j]].state.Sleep?
    decreases |cands|
  {
    if cands == [] then None
    else if !entries[cands[0]].state.Sleep? then Some(0)
    else
      match FirstRunnable(entries, cands[1..])
      case None => None
      case Some(i) => Some(i + 1)
  }

  /** The first candidate that is awake, with every earlier one asleep, is the one found. */
  lemma {:induction false} FirstRunnableAt(entries: map<TaskId, Task>, cands: seq<TaskId>, i: nat)
    requires forall x :: x in cands ==> x in entries
    requires i < |cands| && !entries[cands[i]].state.Sleep?
    requires forall j :: 0 <= j < i ==> entries[cands[j]].state.Sleep?
    ensures FirstRunnable(entries, cands) == Some(i)
  {
    if i > 0 {
      FirstRunnableAt(entries, cands[1..], i - 1);
    }
  }

  /** The work a selected task gives: its frame when in `User`, kernel work otherwise. */
  function WorkFor(s: TaskState): WorkItem {
    match s
    case User(f) => UserWork(f)
    case _ => KernelWork
  }

  /**
   * `find_next_work_item`: walk the candidates after `prev`, skip sleeping
   * tasks, make the first other one current and report kernel work for
   * `Entry`/`Wake` or its frame for `User`.  Panics when every candidate
   * sleeps (in particular when there are no tasks).
   */
  function Select(r: Registry, prev: TaskId): (res: Result<(Registry, TaskId, WorkItem), Fatal>)
    requires WellFormed(r)
    ensures res.Err? ==> res.error == NoTaskReady
    ensures res.Ok? ==>
              var (r', id, work) := res.value;
              && id in r.entries && r' == r.(current := Some(id)) && WellFormed(r')
              && !r.entries[id].state.Sleep?
              && (work.KernelWork? <==> r.entries[id].state.Entry? || r.entries[id].state.Wake?)
              && (work.UserWork? ==> r.entries[id].state == User(work.frame))
  {
    var cands := Candidates(r.order, prev);
    match FirstRunnable(r.entries, cands)
    case None => Err(NoTaskReady)
    case Some(k) =>
      var id := cands[k];
      Ok((r.(current := Some(id)), id, WorkFor(r.entries[id].state)))
  }

  /** The candidate at `i` is selected when it is awake and all before it sleep. */
  lemma SelectAt(r: Registry, prev: TaskId, i: nat)
    requires WellFormed(r)
    requires i < |Candidates(r.order, prev)|
    requires !r.entries[Candidates(r.order, prev)[i]].state.Sleep?
    requires forall j :: 0 <= j < i ==> r.entries[Candidates(r.order, prev)[j]].state.Sleep?
    ensures var id := Candidates(r.order, prev)[i];
            Select(r, prev) == Ok((r.(current := Some(id)), id, WorkFor(r.entries[id].state)))
  {
    FirstRunnableAt(r.entries, Candidates(r.order, prev), i);
  }

  /**
   * Selection picks the first candidate that is not asleep, and panics
   * exactly when every candidate sleeps.
   */
  lemma SelectFirstAwake(r: Registry, prev: TaskId)
    requires WellFormed(r)
    ensures var cands := Candidates(r.order, prev);
            Select(r, prev).Err? <==> forall c :: c in cands ==> r.entries[c].state.Sleep?
    ensures var cands := Candidates(r.order, prev);
            Select(r, prev).Ok? ==>
              var id := Select(r, prev).value.1;
              && !r.entries[id].state.Sleep?
              && exists k :: 0 <= k < |cands| && cands[k] == id &&
                   forall j :: 0 <= j < k ==> r.entries[cands[j]].state.Sleep?
  {
    var cands := Candidates(r.order, prev);
    match FirstRunnable(r.entries, cands)
    case None =>
    case Some(k) =>
      assert cands[k] == Select(r, prev).value.1;
  }

  /**
   * Round robin: from a registered `prev`, selection succeeds exactly when
   * some task is awake, and it picks the first awake task on the ring after
   * `prev`; `prev` itself only comes back after every other task.
   */
  lemma SelectIsRoundRobin(r: Registry, prev: TaskId)
    requires WellFormed(r) && prev in r.entries
    ensures Select(r, prev).Ok? <==> exists id :: id in r.entries && !r.entries[id].state.Sleep?
    ensures Select(r, prev).Ok? ==>
              forall b :: b in r.entries && !r.entries[b].state.Sleep? ==>
                RingPrecedes(prev, Select(r, prev).value.1, b)
  {
    CandidatesCoverKeys(r.order, prev);
    SelectFirstAwake(r, prev);
    var cands := Candidates(r.order, prev);
    if Select(r, prev).Ok? {
      var a := Select(r, prev).value.1;
      var k :| 0 <= k < |cands| && cands[k] == a &&
               forall j :: 0 <= j < k ==> r.entries[cands[j]].state.Sleep?;
      forall b | b in r.entries && !r.entries[b].state.Sleep?
        ensures RingPrecedes(prev, a, b)
      {
        var m :| 0 <= m < |cands| && cands[m] == b;
        CandidatesFollowRing(r.order, prev, k, m);
      }
    }
  }

  /** The tasks whose continuation still has kernel work to do. */
  function KernelPending(r: Registry): set<TaskId> {
    set id | id in r.entries && (r.entries[id].state.Entry? || r.entries[id].state.Wake?)
  }

  /**
   * One poll of the selected task's continuation: `Ready` would be a
   * finished task and panics; `Pending` keeps the task's new state.  An echo
   * task with kernel work always moves to `User`.
   */
  function Drive(r: Registry, id: TaskId): (res: Result<Registry, Fatal>)
    requires WellFormed(r) && id in r.entries
    requires r.entries[id].state.Entry? || r.entries[id].state.Wake?
    ensures res == Ok(r.(entries := r.entries[id := Advanced(r.entries[id])]))
    ensures res.Ok? ==> WellFormed(res.value) && res.value.entries[id].state.User?
    ensures res.Ok? ==> KernelPending(res.value) == KernelPending(r) - {id}
  {
    EchoResume(r.entries[id]);
    match Resume(r.entries[id])
    case Err(e) => Err(e)
    case Ok((_, Ready(_))) => Err(TaskFinished)
    case Ok((t, Pending)) => Ok(r.(entries := r.entries[id := t]))
  }

  /**
   * What a pass of the scheduler may do to the registry: the ids, their
   * order and `nextId` stay, and each task either keeps its value or has
   * been driven once.
   */
  ghost predicate OnlyAdvances(r: Registry, r': Registry) {
    && WellFormed(r')
    && r'.order == r.order && r'.nextId == r.nextId
    && r'.entries.Keys == r.entries.Keys
    && forall id :: id in r.entries ==>
         r'.entries[id] == r.entries[id] || r'.entries[id] == Advanced(r.entries[id])
  }

  /** Driving one task, then making a pass, is itself a pass. */
  lemma AdvancesCompose(r: Registry, id: TaskId, r': Registry)
    requires WellFormed(r) && id in r.entries
    requires OnlyAdvances(r.(entries := r.entries[id := Advanced(r.entries[id])]), r')
    ensures OnlyAdvances(r, r')
  {
    AdvancedIdempotent(r.entries[id]);
  }

  /**
   * The select-and-drive loop of `switch`.  It ends only through a task in
   * `User`, which is then current and whose stored frame is returned; it
   * terminates because every drive moves one task out of kernel work.
   */
  function SwitchLoop(r: Registry, prev: TaskId): (res: Result<(Registry, TrapFrame), Fatal>)
    requires WellFormed(r)
    ensures res.Ok? ==>
              var (r', f) := res.value;
              && OnlyAdvances(r, r')
              && r'.current.Some?
              && r'.entries[r'.current.value].state == User(f)
    decreases KernelPending(r)
  {
    match Select(r, prev)
    case Err(e) => Err(e)
    case Ok((r1, _, UserWork(f))) => Ok((r1, f))
    case Ok((r1, id, KernelWork)) =>
      match Drive(r1, id)
      case Err(e) => Err(e)
      case Ok(r2) =>
        assert KernelPending(r1) == KernelPending(r);
        var res := SwitchLoop(r2, id);
        if res.Ok? then AdvancesCompose(r1, id, res.value.0); res else res
  }

  /** One round of the loop, as the imperative loop takes it. */
  lemma SwitchLoopRound(r: Registry, prev: TaskId)
    requires WellFormed(r)
    ensures match Select(r, prev)
            case Err(e) => SwitchLoop(r, prev) == Err(e)
            case Ok((r1, _, UserWork(f))) => SwitchLoop(r, prev) == Ok((r1, f))
            case Ok((r1, id, KernelWork)) =>
              && Drive(r1, id).Ok?
              && SwitchLoop(r, prev) == SwitchLoop(Drive(r1, id).value, id)
              && KernelPending(Drive(r1, id).value) < KernelPending(r)
  {
    match Select(r, prev)
    case Err(_) =>
    case Ok((r1, _, UserWork(_))) =>
    case Ok((r1, id, KernelWork)) =>
      assert KernelPending(r1) == KernelPending(r);
  }

  /** `switch`: save the incoming frame, then select and drive until a `User` frame is found. */
  function Switch(r: Registry, frame: TrapFrame): (res: Result<(Registry, TrapFrame), Fatal>)
    requires WellFormed(r)
    ensures res.Ok? ==>
              var (r', f) := res.value;
              && OnlyAdvances(Save(r, frame).0, r')
              && r'.current.Some?
              && r'.entries[r'.current.value].state == User(f)
  {
    var (saved, prev) := Save(r, frame);
    SwitchLoop(saved, prev)
  }

  /** A pass never touches a sleeping task, and never makes one current. */
  lemma SleepersUntouched(r: Registry, frame: TrapFrame, id: TaskId)
    requires WellFormed(r) && id in r.entries && r.entries[id].state.Sleep?
    requires Switch(r, frame).Ok?
    ensures Switch(r, frame).value.0.entries[id] == r.entries[id]
    ensures Switch(r, frame).value.0.current != Some(id)
  {
  }

  /** The loop cannot panic while some task is awake and `prev` is registered. */
  lemma SwitchLoopTotal(r: Registry, prev: TaskId)
    requires WellFormed(r) && prev in r.entries
    requires exists id :: id in r.entries && !r.entries[id].state.Sleep?
    ensures SwitchLoop(r, prev).Ok?
    decreases KernelPending(r)
  {
    SelectIsRoundRobin(r, prev);
    match Select(r, prev)
    case Ok((r1, id, KernelWork)) =>
      var r2 := Drive(r1, id).value;
      assert KernelPending(r1) == KernelPending(r);
      assert id in r2.entries && !r2.entries[id].state.Sleep?;
      SwitchLoopTotal(r2, id);
    case Ok((_, _, UserWork(_))) =>
  }

  /**
   * With a current task and at least one awake task, `switch` always
   * returns a frame: the fatal "no task ready" case cannot arise, nor can a
   * continuation finish.
   */
  lemma SwitchNeverStuck(r: Registry, frame: TrapFrame)
    requires WellFormed(r) && r.current.Some?
    requires exists id :: id in r.entries && !r.entries[id].state.Sleep?
    ensures Switch(r, frame).Ok?
  {
    var (saved, prev) := Save(r, frame);
    var id :| id in r.entries && !r.entries[id].state.Sleep?;
    assert !saved.entries[id].state.Sleep?;
    SwitchLoopTotal(saved, prev);
  }

  /**
   * Round robin across calls: when every awake task already has a `User`
   * frame, `switch` drives nothing.  It makes current the first awake task
   * on the id ring after the current one and returns that task's frame, so
   * repeated calls visit the awake tasks in cyclic id order.
   */
  lemma SwitchIsRoundRobin(r: Registry, frame: TrapFrame)
    requires WellFormed(r) && r.current.Some?
    requires exists id :: id in r.entries && !r.entries[id].state.Sleep?
    requires forall id :: id in r.entries && !r.entries[id].state.Sleep? ==> r.entries[id].state.User?
    ensures Switch(r, frame).Ok?
    ensures var (r', f) := Switch(r, frame).value;
            var a := r'.current.value;
            && r' == Save(r, frame).0.(current := Some(a))
            && f == Save(r, frame).0.entries[a].state.frame
            && forall b :: b in r.entries && !r.entries[b].state.Sleep? ==> RingPrecedes(r.current.value, a, b)
  {
    var (saved, prev) := Save(r, frame);
    SaveKeepsAwake(r, frame);
    SelectIsRoundRobin(saved, prev);
    SwitchLoopRound(saved, prev);
    var (r1, a, work) := Select(saved, prev).value;
    assert saved.entries[a].state.User?;
    assert Switch(r, frame) == Ok((r1, work.frame));
  }

  /** The save phase keeps which tasks sleep and which are in `User`. */
  lemma SaveKeepsAwake(r: Registry, frame: TrapFrame)
    requires WellFormed(r)
    ensures var saved := Save(r, frame).0;
            forall id :: id in r.entries ==>
              && (saved.entries[id].state.Sleep? <==> r.entries[id].state.Sleep?)
              && (saved.entries[id].state.User? <==> r.entries[id].state.User?)
  {
  }

  /**
   * `dispatch_syscall`: the current task's state becomes `Entry(frame)`; a
   * previous state other than `User` is fatal, as is having no current
   * task; then `switch` runs with the same frame.
   */
  function Dispatch(r: Registry, frame: TrapFrame): (res: Result<(Registry, TrapFrame), Fatal>)
    requires WellFormed(r)
    ensures r.current.None? ==> res == Err(NoCurrentTask)
    ensures r.current.Some? && !r.entries[r.current.value].state.User? ==>
              res == Err(SyscallFromKernel(r.entries[r.current.value].state))
    ensures res.Ok? ==> r.current.Some? && r.entries[r.current.value].state.User?
    ensures res.Ok? ==>
              var c := r.current.value;
              var recorded := r.(entries := r.entries[c := r.entries[c].(state := Entry(frame))]);
              var (r', f) := res.value;
              && OnlyAdvances(recorded, r')
              && r'.current.Some?
              && r'.entries[r'.current.value].state == User(f)
  {
    match r.current
    case None => Err(NoCurrentTask)
    case Some(c) =>
      var previous := r.entries[c].state;
      var recorded := r.(entries := r.entries[c := r.entries[c].(state := Entry(frame))]);
      if !previous.User? then Err(SyscallFromKernel(previous))
      else
        assert WellFormed(recorded) by {
          assert forall id :: id in recorded.entries ==> id in r.entries;
        }
        assert Save(recorded, frame).0 == recorded;
        Switch(recorded, frame)
  }

  /**
   * Entry delivery: after a syscall from `User`, `switch` always finds a
   * frame, and the calling task ends the pass either still holding the
   * syscall frame as `Entry` or, once its continuation has consumed it,
   * stepped back to `User` with exactly that frame.
   */
  lemma DispatchDelivers(r: Registry, frame: TrapFrame)
    requires WellFormed(r) && r.current.Some? && r.entries[r.current.value].state.User?
    ensures Dispatch(r, frame).Ok?
    ensures var c := r.current.value;
            var after := Dispatch(r, frame).value.0.entries[c].state;
            after == Entry(frame) || after == User(frame)
  {
    var c := r.current.value;
    var recorded := r.(entries := r.entries[c := r.entries[c].(state := Entry(frame))]);
    assert WellFormed(recorded) by {
      assert forall id :: id in recorded.entries ==> id in r.entries;
    }
    assert !recorded.entries[c].state.Sleep?;
    SwitchNeverStuck(recorded, frame);
  }

  /**
   * The `skip(1)` quirk seen from `switch`: with no current task the
   * sentinel 0 is used as `prev`, so the lowest id is never considered.
   * Here task 1 is awake and task 2 sleeps, yet the pass panics.
   */
  lemma SentinelSkipsLowestTask(f: TrapFrame)
    ensures var r := Registry(map[1 := Task(Wake, Echo(f, false)), 2 := Task(Sleep, Echo(f, false))],
                              [1, 2], None, 3);
            WellFormed(r) && Switch(r, f) == Err(NoTaskReady)
  {
    var r := Registry(map[1 := Task(Wake, Echo(f, false)), 2 := Task(Sleep, Echo(f, false))],
                      [1, 2], None, 3);
    SentinelDropsSmallest([1, 2], 0);
    assert Candidates(r.order, 0) == [2];
  }
}
