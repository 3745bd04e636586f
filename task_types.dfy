/**
 * The per-task data of the scheduler: trap frames, task ids, the four-way
 * task state, the step protocol (`TaskHandle::step` and `Step::poll`) and the
 * echo continuation that `start` gives to both boot tasks.
 */
module TaskTypes {
  import opened Wrappers

  /**
   * A saved register snapshot.  Its layout is defined elsewhere; the
   * scheduler only builds one from an entry point and a stack pointer and
   * compares frames for equality.
   */
  datatype TrapFrame = TrapFrame(entry: nat, stack: nat)

  /** `TaskId(u64)`: ids are ordered as numbers. */
  type TaskId = nat

  /** The id that stands for "no previous task". */
  const Sentinel: TaskId := 0

  /** What a task is doing and the frame that goes with it. */
  datatype TaskState =
    | Entry(frame: TrapFrame)   // a trap has arrived and awaits the continuation
    | Wake                      // runnable, never stepped yet
    | Sleep                     // blocked, skipped by selection
    | User(frame: TrapFrame)    // running (or ready to run) in user mode

  /** Rust's `Poll`. */
  datatype Poll<T> = Ready(value: T) | Pending

  /** The kernel's panics: each one aborts the whole kernel. */
  datatype Fatal =
    | TaskFinished                       // a continuation returned `Ready`
    | NoTaskReady                        // every candidate was asleep
    | NoCurrentTask                      // a syscall arrived with no current task
    | SyscallFromKernel(state: TaskState)// a syscall arrived while not in `User`
    | StepSawSleep                       // a `Step` was polled on a sleeping task

  /** The recoverable allocation failure of task creation. */
  datatype MemoryExhausted = MemoryExhausted

  /**
   * The echo continuation of `start`: it steps to user mode with `initial`,
   * then forever steps with the frame it was last given.  `started` records
   * whether the async state machine has passed its first `step`.
   */
  datatype Echo = Echo(initial: TrapFrame, started: bool)

  /** A registered task: its shared state cell and its continuation. */
  datatype Task = Task(state: TaskState, body: Echo)

  /**
   * What every reachable task satisfies: an awake, not yet started task is
   * in `Wake`, and once its continuation has stepped it is in `Entry` or
   * `User`.  `Sleep` is set from outside this core and is unconstrained.
   */
  predicate Coherent(t: Task) {
    !t.state.Sleep? ==> (t.body.started <==> !t.state.Wake?)
  }

  /** `TaskHandle::step`: the shared state becomes `User(frame)`. */
  function StepTask(t: Task, frame: TrapFrame): (r: Task)
    ensures r.state == User(frame) && r.body == t.body
  {
    t.(state := User(frame))
  }

  /** `Step::poll`: a single look at the shared state, no retry. */
  function PollStep(s: TaskState): (r: Result<Poll<TrapFrame>, Fatal>)
    ensures r.Err? <==> s.Sleep?
    ensures r.Err? ==> r.error == StepSawSleep
    ensures r.Ok? && r.value.Ready? <==> s.Entry?
    ensures s.Entry? ==> r.value.value == s.frame
  {
    match s
    case Entry(f) => Ok(Ready(f))
    case Wake => Ok(Pending)
    case User(_) => Ok(Pending)
    case Sleep => Err(StepSawSleep)
  }

  /**
   * One poll of the echo continuation, up to its next suspension.  On the
   * first poll it steps with `initial`; later it awaits its `Step` and, once a
   * frame has arrived, steps again with that frame.  Each `step` is followed
   * by a poll of the fresh `Step`, which sees `User` and is pending.
   */
  function Resume(t: Task): (r: Result<(Task, Poll<()>), Fatal>)
    ensures r.Err? <==> t.body.started && t.state.Sleep?
    ensures r.Ok? ==>
              var (t', p) := r.value;
              && p == Pending
              && t'.body == t.body.(started := true)
              && (t'.state == t.state || t'.state.User?)
  {
    if !t.body.started then
      Ok((StepTask(t.(body := t.body.(started := true)), t.body.initial), Pending))
    else
      match PollStep(t.state)
      case Err(e) => Err(e)
      case Ok(Pending) => Ok((t, Pending))
      case Ok(Ready(f)) => Ok((StepTask(t, f), Pending))
  }

  /**
   * The one-step transition of an echo task that the scheduler relies on:
   * `Wake` becomes `User(initial)`, `Entry(f)` becomes `User(f)`, any other
   * state is left as it is.
   */
  function Advanced(t: Task): Task {
    match t.state
    case Wake => Task(User(t.body.initial), t.body.(started := true))
    case Entry(f) => t.(state := User(f))
    case _ => t
  }

  /**
   * The step protocol: the `Step` returned by `step(f)` is pending until a
   * trap records `Entry(g)` in the shared state, and then delivers `g`.
   */
  lemma PollStepProtocol(t: Task, f: TrapFrame, g: TrapFrame)
    ensures PollStep(StepTask(t, f).state) == Ok(Pending)
    ensures PollStep(StepTask(t, f).(state := Entry(g)).state) == Ok(Ready(g))
  {
  }

  /**
   * Driving a coherent, awake echo task once is the one-step transition:
   * it always suspends (`Pending`), never finishes, and keeps the task coherent.
   */
  lemma EchoResume(t: Task)
    requires Coherent(t) && !t.state.Sleep?
    ensures Resume(t) == Ok((Advanced(t), Pending))
    ensures Coherent(Advanced(t)) && Advanced(t).body.initial == t.body.initial
    ensures Advanced(t).state.User?
    ensures t.state.Wake? ==> Advanced(t).state == User(t.body.initial)
    ensures t.state.Entry? ==> Advanced(t).state == User(t.state.frame)
    ensures t.state.User? ==> Advanced(t) == t
  {
  }

  /**
   * A task whose continuation has started but whose state is `Wake` again
   * (only code outside this core could set it so) makes no progress when
   * polled: `Step::poll` is pending on `Wake`, so the task stays as it is.
   * `Coherent` excludes this state.
   */
  lemma StartedWakeStalls(initial: TrapFrame)
    ensures var t := Task(Wake, Echo(initial, true));
            !Coherent(t) && Resume(t) == Ok((t, Pending))
  {
  }

  /** Driving twice does nothing more than driving once. */
  lemma AdvancedIdempotent(t: Task)
    ensures Advanced(Advanced(t)) == Advanced(t)
  {
  }
}
