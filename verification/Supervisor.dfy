/** fiveman at run time, as one step system: the status thread's pass, the screen thread's
    event loop, the two signal handlers and the children, interleaved in any order.

    The mutex is explicit. A loop that runs under it takes one step per entry while the
    mutex stays held; a critical section that touches a single entry is one step that needs
    the mutex free. Everything outside the mutex is one step per entry or finer:
    `posix_spawn` and the store to `state->pid` that follows it are separate steps. */
module Supervisor {
  import opened Types

  /** A signal the screen thread sent: which, to which pid, and the time it had read. */
  datatype Sent = Sent(sig: Signal, pid: nat, at: int)

  /** One fiveman_process_state. `children` (every child ever spawned, oldest first) and
      `sent` (what the screen thread sent) are history the program does not keep. */
  datatype Entry = Entry(
    intent: int, desired: int, pid: nat, lastChange: int, sample: Sample,
    children: seq<nat>, sent: seq<Sent>)

  /** One fiveman_ncurses_screen_entry. `pass` is history: the worker pass that filled it,
      or 0 for the rows of thread creation. */
  datatype Row = Row(
    activity: Activity, pid: nat, age: int, pass: nat, sample: Sample, outActive: bool, errActive: bool)

  datatype Holder = Free | ByWorker | ByScreen

  /** Where the status thread is (fiveman_status_thread.c:29-52). */
  datatype WorkerPc =
    | AtLock
    | Reflecting(i: nat)            // mutex held
    | Reaping(i: nat)
    | Converging(i: nat)
    | Spawning(i: nat)              // decided to start entry i, posix_spawn not called yet
    | Adopting(i: nat, child: nat)  // posix_spawn returned, state->pid not stored yet
    | Stopping(i: nat)              // decided to send SIGTERM to entry i
    | Sampling(i: nat)
    | AtPublish
    | Copying(i: nat, half: bool)   // mutex held; `half`: row i is half copied
    | Sleeping
    | Exited
    | Crashed                       // exit(-1) in the default case of converge

  datatype Key = QuitKey | StopKey | LaunchKey | UpKey | DownKey | OtherKey

  /** Where the screen thread is (ncurses_screen.c:331-429, then main.c:70-72). */
  datatype ScreenPc =
    | Drawing(r: nat)
    | AwaitKey
    | Handling(key: Key)
    | CheckTerm
    | Counting(i: nat, alive: nat)             // mutex held
    | Signalling(sig: Signal, i: nat, at: int) // mutex held
    | CheckExit
    | Recording(i: nat)                        // mutex held
    | Left
    | Joining
    | Done

  datatype Reason = NotLeaving | NobodyAlive | TimedOut

  /** What both threads, the handlers and the operating system can reach. `published` is
      history: the rows at creation, then one array per finished pass. */
  datatype Memory = Memory(
    entries: seq<Entry>,
    procs: ProcTable,
    clock: int,
    lock: Holder,
    exitFlag: bool,        // thread_info->exit
    shared: seq<Row>,      // thread_info->cur_entries
    published: seq<seq<Row>>)

  /** The status thread: its program counter and cur_draw_entries. */
  datatype WorkerThread = WorkerThread(pc: WorkerPc, local: seq<Row>)

  /** The screen thread and the two globals only it and the SIGINT handler touch. `frame`
      (the rows of the frame being drawn) and `reason` are history. */
  datatype ScreenThread = ScreenThread(
    pc: ScreenPc,
    quit: bool,            // exit_fiveman
    immediate: bool,       // exit_fiveman_immediately
    terminating: bool,     // is_terminating
    issuedAt: int,         // term_issued_at
    highlighted: nat,      // highlighted_row
    frame: seq<Row>,
    reason: Reason)

  datatype State = State(m: Memory, w: WorkerThread, u: ScreenThread)

  /** What the environment decides for a worker step: the pid posix_spawn returns, whether
      the sampling throttle lets a sample through and its value, and the log flags. */
  datatype Choice = Choice(pid: nat, resample: bool, data: int, outActive: bool, errActive: bool)

  /** What getch returns, and how many seconds the screen thread waited for it. */
  datatype Input = Input(key: Key, waited: nat)

  datatype Step =
    | Work(choice: Choice)
    | Screen(input: Input)
    | ChildExits(pid: nat, zombie: bool)
    | HandleSigchld(i: nat)
    | HandleSigint
    | Tick(seconds: nat)

  // ---------------------------------------------------------------- start of the run

  function InitialEntry(): Entry
  {
    Entry(INTENT_START, INTENT_START, 0, 0, Cleared, [], [])
  }

  function InitialRow(clock: int): Row
  {
    Row(StartingUp, 0, clock, 0, Cleared, false, false)
  }

  /** main.c:61-69: the table is allocated and initialised, the thread information is
      filled, and draw_screen begins. */
  predicate Init(s: State)
  {
    var m := s.m;
    && |m.entries| > 0
    && (forall i :: 0 <= i < |m.entries| ==> m.entries[i] == InitialEntry())
    && m.procs == map[] && m.lock == Free && !m.exitFlag
    && |m.shared| == |m.entries|
    && (forall i :: 0 <= i < |m.shared| ==> m.shared[i] == InitialRow(m.clock))
    && m.published == [m.shared]
    && s.w == WorkerThread(AtLock, m.shared)
    && s.u == ScreenThread(Drawing(0), false, false, false, s.u.issuedAt, 0, [], NotLeaving)
  }

  // ---------------------------------------------------------------- the status thread

  predicate WorkEnabled(s: State, c: Choice)
  {
    match s.w.pc
    case AtLock => s.m.lock == Free
    case Spawning(_) => c.pid > 0 && c.pid !in s.m.procs
    case AtPublish => s.m.lock == Free
    case Exited => false
    case Crashed => false
    case _ => true
  }

  /** Entry i is replaced by e. */
  function SetEntry(m: Memory, i: nat, e: Entry): Memory
    requires i < |m.entries|
  {
    m.(entries := m.entries[i := e])
  }

  function At(s: State, m: Memory, pc: WorkerPc): State
  {
    State(m, WorkerThread(pc, s.w.local), s.u)
  }

  /** fiveman_process_state_reflect_desired_intent. */
  function Reflected(m: Memory, i: nat): Memory
    requires i < |m.entries|
  {
    SetEntry(m, i, m.entries[i].(intent := m.entries[i].desired))
  }

  /** The decision of fiveman_process_state_converge, up to its first foreign call. */
  function Converged(s: State, i: nat): State
    requires i < |s.m.entries|
  {
    var e := s.m.entries[i];
    match Decide(e.intent, IsAlive(s.m.procs, e.pid))
    case Leave => At(s, s.m, Converging(i + 1))
    case Launch => At(s, SetEntry(s.m, i, e.(sample := Cleared)), Spawning(i))
    case Terminate => At(s, s.m, Stopping(i))
    case SendData => At(s, SetEntry(s.m, i, e.(intent := INTENT_NONE)), Converging(i + 1))
    case Abort => At(s, s.m, Crashed)
  }

  /** posix_spawn returns `pid`. */
  function Spawned(m: Memory, i: nat, pid: nat): Memory
    requires i < |m.entries|
  {
    var e := m.entries[i];
    SetEntry(m, i, e.(children := e.children + [pid])).(procs := m.procs[pid := Proc(i, Running)])
  }

  /** state->pid = subchild; time(&state->last_state_change). */
  function Adopted(m: Memory, i: nat, child: nat): Memory
    requires i < |m.entries|
  {
    SetEntry(m, i, m.entries[i].(pid := child, lastChange := m.clock))
  }

  /** fiveman_process_state_child_process_status. */
  function Resampled(e: Entry, procs: ProcTable, c: Choice): Entry
  {
    if IsAlive(procs, e.pid) && c.resample then e.(sample := Taken(e.pid, c.data)) else e
  }

  /** update_screen_entry. */
  function View(e: Entry, m: Memory, c: Choice): Row
  {
    Row(CurrentActivity(e.intent, IsAlive(m.procs, e.pid)), e.pid, m.clock - e.lastChange, |m.published|,
        e.sample, c.outActive, c.errActive)
  }

  function Sampled(s: State, i: nat, c: Choice): State
    requires i < |s.m.entries| && i < |s.w.local|
  {
    var e := Resampled(s.m.entries[i], s.m.procs, c);
    State(SetEntry(s.m, i, e),
          WorkerThread(Sampling(i + 1), s.w.local[i := View(e, s.m, c)]),
          s.u)
  }

  /** A row of which only the first half of the bytes has been overwritten. */
  function HalfCopied(to: Row, from: Row): Row
  {
    Row(from.activity, from.pid, from.age, from.pass, to.sample, to.outActive, to.errActive)
  }

  /** The first or the second half of one row's bytes reaches the shared array. */
  function Copied(m: Memory, local: seq<Row>, i: nat, half: bool): Memory
    requires i < |local| && i < |m.shared|
  {
    var to := m.shared[i];
    m.(shared := m.shared[i :=
      if half then Row(to.activity, to.pid, to.age, to.pass, local[i].sample, local[i].outActive, local[i].errActive)
      else HalfCopied(to, local[i])])
  }

  /** One step of fiveman_update_thread_main. */
  function WorkNext(s: State, c: Choice): State
  {
    var m := s.m;
    var n := |m.entries|;
    match s.w.pc
    case AtLock => At(s, m.(lock := ByWorker), Reflecting(0))
    case Reflecting(i) =>
      if i < n then At(s, Reflected(m, i), Reflecting(i + 1)) else At(s, m.(lock := Free), Reaping(0))
    case Reaping(i) =>
      if i < n then At(s, m.(procs := Reaped(m.procs, m.entries[i].pid)), Reaping(i + 1))
      else At(s, m, Converging(0))
    case Converging(i) => if i < n then Converged(s, i) else At(s, m, Sampling(0))
    case Spawning(i) => if i < n then At(s, Spawned(m, i, c.pid), Adopting(i, c.pid)) else s
    case Adopting(i, child) => if i < n then At(s, Adopted(m, i, child), Converging(i + 1)) else s
    case Stopping(i) =>
      // killpg(pid, SIGTERM): the child reacts, if it does, by exiting at some later step.
      if i < n then At(s, SetEntry(m, i, m.entries[i].(lastChange := m.clock)), Converging(i + 1)) else s
    case Sampling(i) => if i < n && i < |s.w.local| then Sampled(s, i, c) else At(s, m, AtPublish)
    case AtPublish => At(s, m.(lock := ByWorker), Copying(0, false))
    case Copying(i, half) =>
      if i < |s.w.local| && i < |m.shared|
      then At(s, Copied(m, s.w.local, i, half), if half then Copying(i + 1, false) else Copying(i, true))
      else At(s, m.(published := m.published + [s.w.local], lock := Free), if m.exitFlag then Exited else Sleeping)
    case Sleeping => At(s, m, AtLock)
    case Exited => s
    case Crashed => s
  }

  // ---------------------------------------------------------------- the screen thread

  predicate ScreenEnabled(s: State)
  {
    var free := s.m.lock == Free;
    match s.u.pc
    case Drawing(r) => r < |s.m.shared| ==> free
    case Handling(key) => key == StopKey || key == LaunchKey ==> free
    case CheckTerm => s.u.terminating ==> free
    case CheckExit => !s.u.immediate && s.u.quit ==> free
    case Left => free
    case Joining => s.w.pc == Exited
    case Done => false
    case _ => true
  }

  /** fiveman_process_state_desires_intent on row i. */
  function Desire(m: Memory, i: nat, intent: int): Memory
  {
    if i < |m.entries| then SetEntry(m, i, m.entries[i].(desired := intent)) else m
  }

  function Go(s: State, m: Memory, pc: ScreenPc): State
  {
    State(m, s.w, s.u.(pc := pc))
  }

  function MovedUp(row: nat): nat
  {
    if row > 0 then row - 1 else 0
  }

  function MovedDown(row: nat, total: nat): nat
  {
    if row + 1 < total then row + 1 else if total > 0 then total - 1 else 0
  }

  function Handled(s: State, key: Key): State
  {
    match key
    case QuitKey => State(s.m, s.w, s.u.(quit := true, pc := CheckTerm))
    case StopKey => Go(s, Desire(s.m, s.u.highlighted, INTENT_STOP), CheckTerm)
    case LaunchKey => Go(s, Desire(s.m, s.u.highlighted, INTENT_START), CheckTerm)
    case UpKey => State(s.m, s.w, s.u.(highlighted := MovedUp(s.u.highlighted), pc := CheckTerm))
    case DownKey => State(s.m, s.w, s.u.(highlighted := MovedDown(s.u.highlighted, |s.m.entries|), pc := CheckTerm))
    case OtherKey => Go(s, s.m, CheckTerm)
  }

  /** The count is finished: leave, ask again politely, or kill. */
  function Counted(s: State, alive: nat): State
  {
    if alive > 0 then
      var late := Overdue(s.u.issuedAt, s.m.clock);
      State(s.m, s.w, s.u.(immediate := late, reason := if late then TimedOut else NotLeaving,
                           pc := Signalling(if late then SigKill else SigTerm, 0, s.m.clock)))
    else
      State(s.m.(lock := Free), s.w, s.u.(immediate := true, reason := NobodyAlive, pc := CheckExit))
  }

  /** fiveman_process_state_signal, called by the screen thread. */
  function Signalled(m: Memory, i: nat, sig: Signal, at: int): Memory
    requires i < |m.entries|
  {
    var e := m.entries[i];
    if e.pid > 0 then SetEntry(m, i, e.(sent := e.sent + [Sent(sig, e.pid, at)])) else m
  }

  /** The head of the event loop. */
  function Loop(s: State, m: Memory, u: ScreenThread): State
  {
    State(m, s.w, u.(frame := [], pc := Drawing(0)))
  }

  /** One step of draw_screen, and after it of main's tear-down. */
  function ScreenNext(s: State, input: Input): State
  {
    var m := s.m;
    var u := s.u;
    match u.pc
    case Drawing(r) =>
      if r < |m.shared| then State(m, s.w, u.(frame := u.frame + [m.shared[r]], pc := Drawing(r + 1)))
      else Go(s, m, AwaitKey)
    case AwaitKey => Go(s, m.(clock := m.clock + input.waited), Handling(input.key))
    case Handling(k) => Handled(s, k)
    case CheckTerm =>
      if u.terminating then Go(s, m.(lock := ByScreen), Counting(0, 0)) else Go(s, m, CheckExit)
    case Counting(i, alive) =>
      if i < |m.entries|
      then Go(s, m, Counting(i + 1, if IsAlive(m.procs, m.entries[i].pid) then alive + 1 else alive))
      else Counted(s, alive)
    case Signalling(sig, i, at) =>
      if i < |m.entries| then Go(s, Signalled(m, i, sig, at), Signalling(sig, i + 1, at))
      else Go(s, m.(lock := Free), CheckExit)
    case CheckExit =>
      if u.immediate then Go(s, m, Left)
      else if u.quit then State(m.(lock := ByScreen), s.w, u.(issuedAt := m.clock, pc := Recording(0)))
      else Loop(s, m, u)
    case Recording(i) =>
      if i < |m.entries| then Go(s, Desire(m, i, INTENT_STOP), Recording(i + 1))
      else Loop(s, m.(lock := Free), u.(quit := false, terminating := true))
    case Left => Go(s, m.(exitFlag := true), Joining)
    case Joining => Go(s, m, Done)
    case Done => s
  }

  // ---------------------------------------------------------------- all steps, and runs

  predicate Enabled(s: State, step: Step)
  {
    match step
    case Work(c) => WorkEnabled(s, c)
    case Screen(_) => ScreenEnabled(s)
    case ChildExits(pid, _) => pid in s.m.procs && s.m.procs[pid].status == Running
    case HandleSigchld(i) => i < |s.m.entries|
    case HandleSigint => true
    case Tick(_) => true
  }

  /** A child ends. SIGCHLD is installed with SA_NOCLDWAIT, so it may vanish at once. */
  function Ended(procs: ProcTable, pid: nat, zombie: bool): ProcTable
    requires pid in procs
  {
    procs[pid := Proc(procs[pid].owner, if zombie then Zombie else Gone)]
  }

  function Next(s: State, step: Step): State
    requires Enabled(s, step)
  {
    match step
    case Work(c) => WorkNext(s, c)
    case Screen(input) => ScreenNext(s, input)
    case ChildExits(pid, zombie) => State(s.m.(procs := Ended(s.m.procs, pid, zombie)), s.w, s.u)
    case HandleSigchld(i) => State(s.m.(procs := Reaped(s.m.procs, s.m.entries[i].pid)), s.w, s.u)
    case HandleSigint => State(s.m, s.w, s.u.(quit := true))
    case Tick(seconds) => State(s.m.(clock := s.m.clock + seconds), s.w, s.u)
  }

  /** `run` visits the states and `steps[k]` leads from run[k] to run[k + 1]. */
  predicate IsRun(run: seq<State>, steps: seq<Step>)
  {
    && |run| == |steps| + 1
    && forall k {:trigger steps[k]} :: 0 <= k < |steps| ==>
         Enabled(run[k], steps[k]) && run[k + 1] == Next(run[k], steps[k])
  }

  /** The step that handles the launch key 'l' for entry i. */
  predicate Launches(s: State, step: Step, i: nat)
  {
    step.Screen? && s.u.pc == Handling(LaunchKey) && s.u.highlighted == i
  }

  /** The step that ends the critical section of a recorded quit: STOP is everywhere. */
  predicate FinishesRecording(s: State, step: Step)
  {
    step.Screen? && s.u.pc == Recording(|s.m.entries|)
  }

  /** The step that ends the critical section in which the worker reflects the wishes. */
  predicate FinishesReflect(s: State, step: Step)
  {
    step.Work? && s.w.pc == Reflecting(|s.m.entries|)
  }

  /** The step that takes the mutex for a count of the living entries. */
  predicate StartsCount(s: State, step: Step)
  {
    step.Screen? && s.u.pc == CheckTerm && s.u.terminating
  }

  predicate HasLeft(s: State)
  {
    s.u.pc == Left || s.u.pc == Joining || s.u.pc == Done
  }
}
