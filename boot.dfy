/**
 * The boot path `start`: an empty registry, two echo tasks, the first made
 * current, and the first `switch`.  The lemmas follow the registry through
 * the first two passes of the scheduler.
 */
module Boot {
  import opened Wrappers
  import opened TaskTypes
  import opened RingOrder
  import opened SchedulerSpec
  import opened Scheduler

  /** The starting frame of the first task. */
  const InitFrame: TrapFrame := TrapFrame(0x1_0000_0000, 0x0)

  /** The starting frame of the second task. */
  const SecondFrame: TrapFrame := TrapFrame(0x1_0000_1000, 0x0)

  /** The blank frame `start` hands to its first `switch`. */
  const BlankFrame: TrapFrame := TrapFrame(0, 0)

  /** A task registered but not yet polled. */
  function Fresh(initial: TrapFrame): Task {
    Task(Wake, Echo(initial, false))
  }

  /** A task stepped to the frame `frame`. */
  function Running(initial: TrapFrame, frame: TrapFrame): Task {
    Task(User(frame), Echo(initial, true))
  }

  /** The registry of `start` after both tasks are registered: ids 1 and 2. */
  function Pair(first: Task, second: Task, current: TaskId): Registry {
    Registry(map[1 := first, 2 := second], [1, 2], Some(current), 3)
  }

  /** Both tasks registered and awake, the first one current. */
  function Booted(): Registry {
    Pair(Fresh(InitFrame), Fresh(SecondFrame), 1)
  }

  /** Midway through the first pass: task 2 driven and current. */
  function SecondDriven(): Registry {
    Pair(Fresh(InitFrame), Running(SecondFrame, SecondFrame), 2)
  }

  /** Later in the first pass: both tasks driven, task 1 current. */
  function BothDriven(): Registry {
    Pair(Running(InitFrame, InitFrame), Running(SecondFrame, SecondFrame), 1)
  }

  /** Both tasks stepped to their starting frames, the second one current. */
  function AfterFirstSwitch(): Registry {
    Pair(Running(InitFrame, InitFrame), Running(SecondFrame, SecondFrame), 2)
  }

  /** At the start of the second pass: task 2's `User` frame replaced by the incoming one. */
  function Resaved(frame: TrapFrame): Registry {
    Pair(Running(InitFrame, InitFrame), Running(SecondFrame, frame), 2)
  }

  /** Registering the two tasks on an empty registry gives them ids 1 and 2. */
  lemma BootRegistry(firstBudget: nat, secondBudget: nat)
    requires Allocations <= firstBudget && Allocations <= secondBudget
    ensures var (r1, a) := Register(NewRegistry(), InitFrame, firstBudget);
            var (r2, b) := Register(r1, SecondFrame, secondBudget);
            a == Ok(1) && b == Ok(2) && r2.(current := Some(1)) == Booted() && WellFormed(Booted())
  {
    var (r1, a) := Register(NewRegistry(), InitFrame, firstBudget);
    var (r2, b) := Register(r1, SecondFrame, secondBudget);
    assert r2.order == [1, 2];
  }

  /** The candidate orders on the two boot tasks. */
  lemma BootCandidates()
    ensures Candidates([1, 2], 1) == [2, 1]
    ensures Candidates([1, 2], 2) == [1, 2]
  {
    assert AtLeast([1, 2], 1) == [1, 2] && AtMost([1, 2], 1) == [1];
    assert AtLeast([1, 2], 2) == [2] && AtMost([1, 2], 2) == [1, 2];
  }

  lemma PairWellFormed(first: Task, second: Task, current: TaskId)
    requires Coherent(first) && Coherent(second) && (current == 1 || current == 2)
    ensures WellFormed(Pair(first, second, current))
  {
    assert StrictlyIncreasing([1, 2]);
  }

  /** With two tasks, the task after `prev` is the other one; it is selected when awake. */
  lemma PairSelect(first: Task, second: Task, current: TaskId, prev: TaskId)
    requires Coherent(first) && Coherent(second) && (current == 1 || current == 2)
    requires prev == 1 || prev == 2
    requires if prev == 1 then !second.state.Sleep? else !first.state.Sleep?
    ensures WellFormed(Pair(first, second, current))
    ensures Select(Pair(first, second, current), prev)
            == if prev == 1 then Ok((Pair(first, second, 2), 2, WorkFor(second.state)))
               else Ok((Pair(first, second, 1), 1, WorkFor(first.state)))
  {
    var r := Pair(first, second, current);
    PairWellFormed(first, second, current);
    BootCandidates();
    if prev == 1 {
      SelectAt(r, 1, 0);
      assert Select(r, 1) == Ok((Pair(first, second, 2), 2, WorkFor(second.state)));
    } else {
      SelectAt(r, 2, 0);
      assert Select(r, 2) == Ok((Pair(first, second, 1), 1, WorkFor(first.state)));
    }
  }

  /** Driving one of the two tasks advances it and leaves the other. */
  lemma PairDrive(first: Task, second: Task, current: TaskId, id: TaskId)
    requires Coherent(first) && Coherent(second) && (current == 1 || current == 2)
    requires id == 1 || id == 2
    requires Pair(first, second, current).entries[id].state.Entry? || Pair(first, second, current).entries[id].state.Wake?
    ensures Drive(Pair(first, second, current), id)
            == Ok(if id == 1 then Pair(Advanced(first), second, current) else Pair(first, Advanced(second), current))
  {
    PairWellFormed(first, second, current);
    var r := Pair(first, second, current);
    if id == 1 {
      assert r.entries[1 := Advanced(first)] == map[1 := Advanced(first), 2 := second];
    } else {
      assert r.entries[2 := Advanced(second)] == map[1 := first, 2 := Advanced(second)];
    }
  }

  /** First round: task 1 is current, so task 2 is selected first and driven. */
  lemma FirstRound()
    ensures WellFormed(Booted())
    ensures SwitchLoop(Booted(), 1) == SwitchLoop(SecondDriven(), 2)
  {
    PairSelect(Fresh(InitFrame), Fresh(SecondFrame), 1, 1);
    PairDrive(Fresh(InitFrame), Fresh(SecondFrame), 2, 2);
    SwitchLoopRound(Booted(), 1);
  }

  /** Second round: the ring wraps to task 1, which is driven. */
  lemma SecondRound()
    ensures WellFormed(SecondDriven())
    ensures SwitchLoop(SecondDriven(), 2) == SwitchLoop(BothDriven(), 1)
  {
    PairSelect(Fresh(InitFrame), Running(SecondFrame, SecondFrame), 2, 2);
    PairDrive(Fresh(InitFrame), Running(SecondFrame, SecondFrame), 1, 1);
    SwitchLoopRound(SecondDriven(), 2);
  }

  /** Third round: task 2 is in `User`, so its frame is returned. */
  lemma ThirdRound()
    ensures WellFormed(BothDriven())
    ensures SwitchLoop(BothDriven(), 1) == Ok((AfterFirstSwitch(), SecondFrame))
  {
    PairSelect(Running(InitFrame, InitFrame), Running(SecondFrame, SecondFrame), 1, 1);
    SwitchLoopRound(BothDriven(), 1);
  }

  /**
   * The first pass from `start`: task 1 is current, so task 2 comes first
   * and is driven to `User`; the ring wraps to task 1, which is driven too;
   * the next candidate, task 2, now has a `User` frame, which is returned.
   */
  lemma FirstSwitch(frame: TrapFrame)
    ensures WellFormed(Booted())
    ensures Switch(Booted(), frame) == Ok((AfterFirstSwitch(), SecondFrame))
  {
    FirstRound();
    SecondRound();
    ThirdRound();
    assert Save(Booted(), frame) == (Booted(), 1);
  }

  /**
   * The second pass: task 2's `User` frame is replaced by the incoming one,
   * the ring wraps to task 1, whose `User` frame is returned directly
   * without driving any continuation.
   */
  lemma SecondSwitch(frame: TrapFrame)
    ensures WellFormed(AfterFirstSwitch())
    ensures Switch(AfterFirstSwitch(), frame)
            == Ok((Pair(Running(InitFrame, InitFrame), Running(SecondFrame, frame), 1), InitFrame))
  {
    var r := AfterFirstSwitch();
    PairWellFormed(Running(InitFrame, InitFrame), Running(SecondFrame, SecondFrame), 2);
    assert r.entries[2 := Running(SecondFrame, frame)] == Resaved(frame).entries;
    assert Save(r, frame) == (Resaved(frame), 2);
    PairSelect(Running(InitFrame, InitFrame), Running(SecondFrame, frame), 2, 2);
    SwitchLoopRound(Resaved(frame), 2);
  }

  /**
   * `start` up to its jump to user mode: build the registry, register the
   * two echo tasks (either may run out of memory), make the first current
   * and run `switch` on a blank frame.  It returns the frame to resume:
   * the second task's starting frame.
   */
  method Start(firstBudget: nat, secondBudget: nat) returns (tasks: Tasks, res: Result<TrapFrame, MemoryExhausted>)
    ensures res.Err? <==> firstBudget < Allocations || secondBudget < Allocations
    ensures res.Ok? ==> res.value == SecondFrame && tasks.Valid() && tasks.Snapshot() == AfterFirstSwitch()
  {
    tasks := new Tasks();
    var init := tasks.Create(InitFrame, firstBudget);
    if init.Err? {
      return tasks, Err(MemoryExhausted);
    }
    var second := tasks.Create(SecondFrame, secondBudget);
    if second.Err? {
      return tasks, Err(MemoryExhausted);
    }
    tasks.current := Some(init.value);
    BootRegistry(firstBudget, secondBudget);
    assert tasks.Snapshot() == Booted();
    FirstSwitch(BlankFrame);
    var switched := tasks.Switch(BlankFrame);
    assert switched == Ok(SecondFrame);
    res := Ok(switched.value);
  }
}
