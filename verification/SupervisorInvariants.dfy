/** What every step of the supervisor keeps, and so what holds in every reachable state. */
module SupervisorInvariants {
  import opened Types
  import opened Supervisor

  // ---------------------------------------------------------------- the invariants

  predicate WorkerInRange(w: WorkerPc, n: nat)
  {
    match w
    case Reflecting(i) => i <= n
    case Reaping(i) => i <= n
    case Converging(i) => i <= n
    case Spawning(i) => i < n
    case Adopting(i, _) => i < n
    case Stopping(i) => i < n
    case Sampling(i) => i <= n
    case Copying(i, half) => i <= n && (half ==> i < n)
    case _ => true
  }

  predicate ScreenInRange(u: ScreenPc, n: nat)
  {
    match u
    case Drawing(r) => r <= n
    case Counting(i, alive) => alive <= i <= n
    case Signalling(_, i, _) => i <= n
    case Recording(i) => i <= n
    case _ => true
  }

  /** The arrays have one row per entry, every loop index is in range, and the mutex is
      held by a thread exactly while that thread is inside one of its locked loops. */
  predicate Shape(s: State)
  {
    var n := |s.m.entries|;
    && n > 0 && |s.w.local| == n && |s.m.shared| == n && s.u.highlighted < n && |s.m.published| > 0
    && WorkerInRange(s.w.pc, n) && ScreenInRange(s.u.pc, n)
    && (s.m.lock == ByWorker <==> s.w.pc.Reflecting? || s.w.pc.Copying?)
    && (s.m.lock == ByScreen <==> s.u.pc.Counting? || s.u.pc.Signalling? || s.u.pc.Recording?)
  }

  /** How the flags of the two threads go with where the threads are. */
  predicate Flags(s: State)
  {
    var u := s.u;
    && (u.pc.Counting? || u.pc.Signalling? ==> u.terminating)
    && (u.pc.Signalling? ==> (u.immediate <==> u.pc.sig == SigKill))
    && (u.immediate ==> u.pc.Signalling? || u.pc == CheckExit || HasLeft(s))
    && (HasLeft(s) ==> u.immediate)
    && (u.immediate <==> u.reason != NotLeaving)
    && (u.pc.Signalling? && u.immediate ==> u.reason == TimedOut)
    && (u.pc.Recording? || u.terminating ==> u.issuedAt <= s.m.clock)
    && (s.m.exitFlag <==> u.pc == Joining || u.pc == Done)
    && (s.w.pc == Exited ==> s.m.exitFlag)
    && (u.pc == Done ==> s.w.pc == Exited)
  }

  predicate StartOrStop(intent: int)
  {
    intent == INTENT_START || intent == INTENT_STOP
  }

  predicate IntentsKnown(s: State)
  {
    && (forall i :: 0 <= i < |s.m.entries| ==>
          StartOrStop(s.m.entries[i].intent) && StartOrStop(s.m.entries[i].desired))
    && s.w.pc != Crashed
  }

  /** While the worker reflects, the entries behind it carry their wish. */
  predicate Reflects(s: State)
  {
    s.w.pc.Reflecting? ==>
      forall k :: 0 <= k < s.w.pc.i && k < |s.m.entries| ==> s.m.entries[k].intent == s.m.entries[k].desired
  }

  /** While the screen thread records a quit, the entries behind it wish to stop. */
  predicate Records(s: State)
  {
    s.u.pc.Recording? ==>
      forall k :: 0 <= k < s.u.pc.i && k < |s.m.entries| ==> s.m.entries[k].desired == INTENT_STOP
  }

  function LastOf(children: seq<nat>): nat
  {
    if children == [] then 0 else children[|children| - 1]
  }

  predicate IsGone(procs: ProcTable, pid: nat)
  {
    pid in procs && procs[pid].status == Gone
  }

  predicate Owns(children: seq<nat>, i: nat, procs: ProcTable)
  {
    forall p :: p in children ==> p > 0 && p in procs && procs[p].owner == i
  }

  predicate AllGone(children: seq<nat>, procs: ProcTable)
  {
    forall p :: p in children ==> IsGone(procs, p)
  }

  /** The history of entry i and its pid: all children but the last are gone; the pid is the
      last child's, except between posix_spawn and the store, when it is the one before. */
  predicate Family(e: Entry, i: nat, procs: ProcTable, w: WorkerPc)
  {
    && Owns(e.children, i, procs)
    && (e.children != [] ==> AllGone(e.children[..|e.children| - 1], procs))
    && (if w.Adopting? && w.i == i
        then e.children != [] && LastOf(e.children) == w.child && e.pid == LastOf(e.children[..|e.children| - 1])
        else e.pid == LastOf(e.children))
    && (w == Spawning(i) && e.children != [] ==> IsGone(procs, LastOf(e.children)))
  }

  predicate Families(s: State)
  {
    && (forall i :: 0 <= i < |s.m.entries| ==> Family(s.m.entries[i], i, s.m.procs, s.w.pc))
    && (forall p :: p in s.m.procs ==> Registered(s.m, p))
  }

  predicate Registered(m: Memory, p: nat)
    requires p in m.procs
  {
    p > 0 && m.procs[p].owner < |m.entries| && p in m.entries[m.procs[p].owner].children
  }

  predicate Inv(s: State)
  {
    Shape(s) && Flags(s) && IntentsKnown(s) && Reflects(s) && Records(s) && Families(s)
  }

  // ---------------------------------------------------------------- kept by every step

  lemma WorkKeepsShape(s: State, c: Choice)
    requires Shape(s) && WorkEnabled(s, c)
    ensures Shape(WorkNext(s, c))
    ensures |WorkNext(s, c).m.entries| == |s.m.entries|
  {
    match s.w.pc
    case Converging(i) => if i < |s.m.entries| { ConvergedKeepsShape(s, i); }
    case _ =>
  }

  lemma ConvergedKeepsShape(s: State, i: nat)
    requires Shape(s) && s.w.pc == Converging(i) && i < |s.m.entries|
    ensures Shape(Converged(s, i))
    ensures |Converged(s, i).m.entries| == |s.m.entries|
  {
  }

  lemma LockedScreenKeepsShape(s: State, input: Input)
    requires Shape(s) && ScreenEnabled(s)
    requires s.u.pc.Counting? || s.u.pc.Signalling? || s.u.pc.Recording?
    ensures Shape(ScreenNext(s, input))
    ensures |ScreenNext(s, input).m.entries| == |s.m.entries|
  {
    match s.u.pc
    case Counting(i, alive) => if i == |s.m.entries| { CountedKeepsShape(s, alive); }
    case _ =>
  }

  lemma ScreenKeepsShape(s: State, input: Input)
    requires Shape(s) && ScreenEnabled(s)
    ensures Shape(ScreenNext(s, input))
    ensures |ScreenNext(s, input).m.entries| == |s.m.entries|
  {
    match s.u.pc
    case Handling(k) => HandledKeepsShape(s, k);
    case Counting(_, _) => LockedScreenKeepsShape(s, input);
    case Signalling(_, _, _) => LockedScreenKeepsShape(s, input);
    case Recording(_) => LockedScreenKeepsShape(s, input);
    case _ =>
  }

  lemma HandledKeepsShape(s: State, key: Key)
    requires Shape(s) && s.u.pc == Handling(key)
    ensures Shape(Handled(s, key))
    ensures |Handled(s, key).m.entries| == |s.m.entries|
  {
  }

  lemma CountedKeepsShape(s: State, alive: nat)
    requires Shape(s) && s.u.pc == Counting(|s.m.entries|, alive)
    ensures Shape(Counted(s, alive))
  {
  }

  lemma ShapeKept(s: State, step: Step)
    requires Shape(s) && Enabled(s, step)
    ensures Shape(Next(s, step))
    ensures |Next(s, step).m.entries| == |s.m.entries|
  {
    match step
    case Work(c) => WorkKeepsShape(s, c);
    case Screen(input) => ScreenKeepsShape(s, input);
    case _ =>
  }

  lemma ScreenKeepsFlags(s: State, input: Input)
    requires Shape(s) && Flags(s) && ScreenEnabled(s)
    ensures Flags(ScreenNext(s, input))
  {
  }

  lemma FlagsKept(s: State, step: Step)
    requires Shape(s) && Flags(s) && Enabled(s, step)
    ensures Flags(Next(s, step))
  {
    if step.Screen? {
      ScreenKeepsFlags(s, step.input);
    }
  }

  lemma WorkKeepsIntents(s: State, c: Choice)
    requires Shape(s) && IntentsKnown(s) && WorkEnabled(s, c)
    ensures IntentsKnown(WorkNext(s, c))
  {
  }

  lemma ScreenKeepsIntents(s: State, input: Input)
    requires Shape(s) && IntentsKnown(s) && ScreenEnabled(s)
    ensures IntentsKnown(ScreenNext(s, input))
  {
  }

  lemma IntentsKept(s: State, step: Step)
    requires Shape(s) && IntentsKnown(s) && Enabled(s, step)
    ensures IntentsKnown(Next(s, step))
  {
    match step
    case Work(c) => WorkKeepsIntents(s, c);
    case Screen(input) => ScreenKeepsIntents(s, input);
    case _ =>
  }

  lemma ReflectsKept(s: State, step: Step)
    requires Shape(s) && Reflects(s) && Enabled(s, step)
    ensures Reflects(Next(s, step))
  {
  }

  lemma RecordsKept(s: State, step: Step)
    requires Shape(s) && Records(s) && Enabled(s, step)
    ensures Records(Next(s, step))
  {
    match step
    case Work(c) =>
      forall k | 0 <= k < |s.m.entries|
        ensures |WorkNext(s, c).m.entries| == |s.m.entries| && WorkNext(s, c).u == s.u
        ensures WorkNext(s, c).m.entries[k].desired == s.m.entries[k].desired
      {
        WorkKeepsWish(s, c, k);
      }
    case Screen(input) => ScreenRecords(s, input);
    case _ =>
  }

  lemma WorkKeepsWish(s: State, c: Choice, k: nat)
    requires k < |s.m.entries|
    ensures |WorkNext(s, c).m.entries| == |s.m.entries| && WorkNext(s, c).u == s.u
    ensures WorkNext(s, c).m.entries[k].desired == s.m.entries[k].desired
  {
  }

  lemma ScreenRecords(s: State, input: Input)
    requires Shape(s) && Records(s) && ScreenEnabled(s)
    ensures Records(ScreenNext(s, input))
  {
  }

  /** Children only ever move towards Gone, and no pid is handed out twice. */
  predicate Progress(before: ProcTable, after: ProcTable)
  {
    forall p :: p in before ==>
      && p in after && after[p].owner == before[p].owner
      && (before[p].status == Gone ==> after[p].status == Gone)
  }

  lemma ProcsProgress(s: State, step: Step)
    requires Enabled(s, step)
    ensures Progress(s.m.procs, Next(s, step).m.procs)
  {
  }

  lemma FamilyProgress(e: Entry, i: nat, before: ProcTable, after: ProcTable, pc: WorkerPc)
    requires Family(e, i, before, pc) && Progress(before, after)
    ensures Family(e, i, after, pc)
  {
  }

  predicate SameFamily(before: Entry, after: Entry)
  {
    after.children == before.children && after.pid == before.pid
  }

  /** The worker is between deciding to start entry i and storing its pid. */
  predicate StartsEntry(pc: WorkerPc, i: nat)
  {
    pc == Spawning(i) || (pc.Adopting? && pc.i == i)
  }

  /** The four things a worker step can be to entry i. */
  datatype WorkKind = Unrelated | Decided | SpawnedIt | AdoptedIt

  predicate WorkOn(kind: WorkKind, s: State, c: Choice, s': State, i: nat)
    requires i < |s.m.entries| && i < |s'.m.entries|
  {
    var e, e' := s.m.entries[i], s'.m.entries[i];
    match kind
    case Unrelated => SameFamily(e, e') && !StartsEntry(s.w.pc, i) && !StartsEntry(s'.w.pc, i)
    case Decided =>
      && SameFamily(e, e') && s.w.pc == Converging(i) && s'.w.pc == Spawning(i)
      && e.intent == INTENT_START && !IsAlive(s.m.procs, e.pid)
    case SpawnedIt =>
      && s.w.pc == Spawning(i) && s'.w.pc == Adopting(i, c.pid)
      && e'.pid == e.pid && e'.children == e.children + [c.pid]
      && c.pid > 0 && c.pid !in s.m.procs && s'.m.procs == s.m.procs[c.pid := Proc(i, Running)]
    case AdoptedIt =>
      && s.w.pc.Adopting? && s.w.pc.i == i && s'.w.pc == Converging(i + 1)
      && e'.children == e.children && e'.pid == s.w.pc.child
  }

  function KindOf(pc: WorkerPc, pc': WorkerPc, i: nat): WorkKind
  {
    if pc == Spawning(i) then SpawnedIt
    else if pc.Adopting? && pc.i == i then AdoptedIt
    else if pc' == Spawning(i) then Decided
    else Unrelated
  }

  lemma WorkIsOneOf(s: State, c: Choice, i: nat)
    requires Shape(s) && WorkEnabled(s, c) && i < |s.m.entries|
    ensures |WorkNext(s, c).m.entries| == |s.m.entries|
    ensures WorkOn(KindOf(s.w.pc, WorkNext(s, c).w.pc, i), s, c, WorkNext(s, c), i)
  {
    hide Converged;
    match s.w.pc
    case Converging(j) => ConvergedIsOneOf(s, c, j, i);
    case _ =>
  }

  lemma ConvergedIsOneOf(s: State, c: Choice, j: nat, i: nat)
    requires Shape(s) && s.w.pc == Converging(j) && i < |s.m.entries|
    ensures |WorkNext(s, c).m.entries| == |s.m.entries|
    ensures WorkOn(KindOf(s.w.pc, WorkNext(s, c).w.pc, i), s, c, WorkNext(s, c), i)
  {
  }

  lemma FamilyUnrelated(e: Entry, e': Entry, i: nat, procs: ProcTable, pc: WorkerPc, pc': WorkerPc)
    requires Family(e, i, procs, pc) && SameFamily(e, e')
    requires !StartsEntry(pc, i) && !StartsEntry(pc', i)
    ensures Family(e', i, procs, pc')
  {
  }

  /** When the worker decides to start entry i, all its children are gone. */
  lemma AllGoneBeforeSpawn(e: Entry, i: nat, procs: ProcTable)
    requires Family(e, i, procs, Spawning(i))
    ensures AllGone(e.children, procs)
  {
    if e.children != [] {
      assert e.children == e.children[..|e.children| - 1] + [LastOf(e.children)];
    }
  }

  lemma FamilySpawned(e: Entry, e': Entry, i: nat, procs: ProcTable, pid: nat)
    requires Family(e, i, procs, Spawning(i)) && pid > 0 && pid !in procs
    requires e'.pid == e.pid && e'.children == e.children + [pid]
    ensures Family(e', i, procs[pid := Proc(i, Running)], Adopting(i, pid))
  {
    AllGoneBeforeSpawn(e, i, procs);
    assert e'.children[..|e'.children| - 1] == e.children;
  }

  lemma WorkKeepsFamily(s: State, c: Choice, i: nat)
    requires Shape(s) && WorkEnabled(s, c) && i < |s.m.entries|
    requires Family(s.m.entries[i], i, s.m.procs, s.w.pc)
    ensures |WorkNext(s, c).m.entries| == |s.m.entries|
    ensures Family(WorkNext(s, c).m.entries[i], i, WorkNext(s, c).m.procs, WorkNext(s, c).w.pc)
  {
    var e, s' := s.m.entries[i], WorkNext(s, c);
    WorkIsOneOf(s, c, i);
    ProcsProgress(s, Work(c));
    FamilyFollows(s, c, s', i);
  }

  lemma FamilyFollows(s: State, c: Choice, s': State, i: nat)
    requires i < |s.m.entries| && i < |s'.m.entries|
    requires WorkOn(KindOf(s.w.pc, s'.w.pc, i), s, c, s', i)
    requires Progress(s.m.procs, s'.m.procs)
    requires Family(s.m.entries[i], i, s.m.procs, s.w.pc)
    ensures Family(s'.m.entries[i], i, s'.m.procs, s'.w.pc)
  {
    var e, e' := s.m.entries[i], s'.m.entries[i];
    match KindOf(s.w.pc, s'.w.pc, i)
    case Unrelated =>
      FamilyUnrelated(e, e', i, s.m.procs, s.w.pc, s'.w.pc);
      FamilyProgress(e', i, s.m.procs, s'.m.procs, s'.w.pc);
    case Decided => FamilyProgress(e', i, s.m.procs, s'.m.procs, s.w.pc);
    case SpawnedIt => FamilySpawned(e, e', i, s.m.procs, c.pid);
    case AdoptedIt => FamilyProgress(e, i, s.m.procs, s'.m.procs, s.w.pc);
  }

  /** The screen thread changes nothing of an entry but its wish and its history. */
  lemma ScreenTouches(s: State, input: Input, i: nat)
    requires i < |s.m.entries|
    ensures |ScreenNext(s, input).m.entries| == |s.m.entries|
    ensures ScreenNext(s, input).w == s.w && ScreenNext(s, input).m.procs == s.m.procs
    ensures
      var e, e' := s.m.entries[i], ScreenNext(s, input).m.entries[i];
      e' == e.(desired := e'.desired, sent := e'.sent)
  {
  }

  lemma FamilyKept(s: State, step: Step, i: nat)
    requires Shape(s) && Enabled(s, step) && i < |s.m.entries|
    requires Family(s.m.entries[i], i, s.m.procs, s.w.pc)
    ensures |Next(s, step).m.entries| == |s.m.entries|
    ensures Family(Next(s, step).m.entries[i], i, Next(s, step).m.procs, Next(s, step).w.pc)
  {
    match step
    case Work(c) => WorkKeepsFamily(s, c, i);
    case Screen(input) => ScreenTouches(s, input, i);
    case _ =>
      ProcsProgress(s, step);
      FamilyProgress(s.m.entries[i], i, s.m.procs, Next(s, step).m.procs, s.w.pc);
  }

  /** Every pid the operating system knows after a step was known before or was just spawned. */
  lemma RegisteredKept(s: State, step: Step, p: nat)
    requires Shape(s) && Families(s) && Enabled(s, step) && p in Next(s, step).m.procs
    ensures Registered(Next(s, step).m, p)
  {
    var s' := Next(s, step);
    ShapeKept(s, step);
    if p in s.m.procs {
      ProcsProgress(s, step);
      var i := s.m.procs[p].owner;
      assert Registered(s.m, p);
      match step {
        case Work(c) => WorkIsOneOf(s, c, i);
        case Screen(input) => ScreenTouches(s, input, i);
        case _ =>
      }
    } else {
      NewPidIsSpawn(s, step, p);
    }
  }

  lemma NewPidIsSpawn(s: State, step: Step, p: nat)
    requires Shape(s) && Enabled(s, step) && p !in s.m.procs && p in Next(s, step).m.procs
    ensures step.Work? && s.w.pc.Spawning? && p == step.choice.pid
    ensures Registered(Next(s, step).m, p)
  {
  }

  lemma FamiliesKept(s: State, step: Step)
    requires Shape(s) && Families(s) && Enabled(s, step)
    ensures Families(Next(s, step))
  {
    var s' := Next(s, step);
    ShapeKept(s, step);
    forall i | 0 <= i < |s'.m.entries|
      ensures Family(s'.m.entries[i], i, s'.m.procs, s'.w.pc)
    {
      FamilyKept(s, step, i);
    }
    forall p | p in s'.m.procs
      ensures Registered(s'.m, p)
    {
      RegisteredKept(s, step, p);
    }
  }

  lemma InvKept(s: State, step: Step)
    requires Inv(s) && Enabled(s, step)
    ensures Inv(Next(s, step)) && |Next(s, step).m.entries| == |s.m.entries|
  {
    ShapeKept(s, step);
    FlagsKept(s, step);
    IntentsKept(s, step);
    ReflectsKept(s, step);
    RecordsKept(s, step);
    FamiliesKept(s, step);
  }

  lemma InitInv(s: State)
    requires Init(s)
    ensures Inv(s)
  {
  }

  lemma {:induction false} Reachable(run: seq<State>, steps: seq<Step>, k: nat)
    requires IsRun(run, steps) && Init(run[0]) && k < |run|
    ensures Inv(run[k]) && |run[k].m.entries| == |run[0].m.entries|
  {
    if k == 0 {
      InitInv(run[0]);
    } else {
      Reachable(run, steps, k - 1);
      InvKept(run[k - 1], steps[k - 1]);
    }
  }

  // ---------------------------------------------------------------- main results

  /** In every reachable state an entry has at most one child that is not gone. It is the
      child in `state->pid`, or the one the worker has spawned and is about to store. */
  lemma OneLiveChild(run: seq<State>, steps: seq<Step>, k: nat, i: nat)
    requires IsRun(run, steps) && Init(run[0]) && k < |run| && i < |run[0].m.entries|
    ensures |run[k].m.entries| == |run[0].m.entries|
    ensures
      var m := run[k].m;
      var current := if run[k].w.pc.Adopting? && run[k].w.pc.i == i then run[k].w.pc.child else m.entries[i].pid;
      forall p :: p in m.procs && m.procs[p].owner == i && p != current ==> m.procs[p].status == Gone
  {
    Reachable(run, steps, k);
    var m := run[k].m;
    forall p | p in m.procs && m.procs[p].owner == i && m.procs[p].status != Gone
      ensures p == LastOf(m.entries[i].children)
    {
      assert Registered(m, p);
      var children := m.entries[i].children;
      assert Family(m.entries[i], i, m.procs, run[k].w.pc);
      assert children == children[..|children| - 1] + [LastOf(children)];
    }
  }

  /** From the start on, every intent and every wish is START or STOP: the signal intent, the
      `exit(-1)` default of converge and the UNKNOWN activity are never reached. */
  lemma ReachableIntents(run: seq<State>, steps: seq<Step>, k: nat, i: nat, alive: bool)
    requires IsRun(run, steps) && Init(run[0]) && k < |run| && i < |run[0].m.entries|
    ensures |run[k].m.entries| == |run[0].m.entries| && run[k].w.pc != Crashed
    ensures
      var e := run[k].m.entries[i];
      && StartOrStop(e.intent) && StartOrStop(e.desired)
      && Decide(e.intent, alive) != SendData && Decide(e.intent, alive) != Abort
      && CurrentActivity(e.intent, alive) != Unknown
  {
    Reachable(run, steps, k);
  }

  /** The mutex excludes: the reflect and publish loops never overlap the count, signal and
      quit-recording loops, and a locked loop always runs with the mutex in its own hands. */
  lemma MutualExclusion(run: seq<State>, steps: seq<Step>, k: nat)
    requires IsRun(run, steps) && Init(run[0]) && k < |run|
    ensures
      var worker := run[k].w.pc.Reflecting? || run[k].w.pc.Copying?;
      var screen := run[k].u.pc.Counting? || run[k].u.pc.Signalling? || run[k].u.pc.Recording?;
      && !(worker && screen)
      && (run[k].m.lock == Free <==> !worker && !screen)
  {
    Reachable(run, steps, k);
  }
}
