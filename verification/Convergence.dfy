/** Convergence whatever else happens: one pass of the status thread leaves every entry that
    wishes to run with a running child, and later passes leave that child and its entry alone.
    The clock, the screen thread, SIGCHLD and the children of other entries may all step in
    between; only a child of the entry itself must not end. */
module Convergence {
  import opened Types
  import opened Supervisor
  import opened SupervisorInvariants

  predicate Runs(procs: ProcTable, pid: nat)
  {
    pid in procs && procs[pid].status == Running
  }

  /** The worker is behind reflecting entry i and not yet done with converging it. */
  predicate Busy(pc: WorkerPc, i: nat)
  {
    match pc
    case Reflecting(j) => i < j
    case Reaping(_) => true
    case Converging(j) => j <= i
    case Spawning(j) => j <= i
    case Adopting(j, _) => j <= i
    case Stopping(j) => j <= i
    case _ => false
  }

  /** The worker has converged entry i in the pass it is in, or has just finished that pass. */
  predicate HasConverged(pc: WorkerPc, i: nat)
  {
    match pc
    case AtLock => false
    case Reflecting(_) => false
    case Reaping(_) => false
    case Converging(j) => i < j
    case Spawning(j) => i < j
    case Adopting(j, _) => i < j
    case Stopping(j) => i < j
    case _ => true
  }

  /** The step ends no child of entry i, and if it reflects entry i, that wishes to run. */
  predicate Leaves(s: State, step: Step, i: nat)
  {
    && (step.ChildExits? && step.pid in s.m.procs ==> s.m.procs[step.pid].owner != i)
    && (step.Work? && s.w.pc == Reflecting(i) && i < |s.m.entries| ==> s.m.entries[i].desired == INTENT_START)
  }

  predicate LeavesAlong(run: seq<State>, steps: seq<Step>, i: nat)
    requires |run| == |steps| + 1
  {
    forall k {:trigger steps[k]} :: 0 <= k < |steps| ==> Leaves(run[k], steps[k], i)
  }

  // ---------------------------------------------------------------- starting

  /** How far the current pass has brought entry i: its intent is START once it is reflected,
      its pid no zombie's once it is reaped, and a running child's once it is converged. */
  predicate Starting(s: State, i: nat)
    requires i < |s.m.entries|
  {
    var e, procs, pc := s.m.entries[i], s.m.procs, s.w.pc;
    && (Busy(pc, i) ==> e.intent == INTENT_START && pc != Stopping(i))
    && (Busy(pc, i) && !pc.Reflecting? && (pc.Reaping? ==> i < pc.i) ==>
          e.pid in procs ==> procs[e.pid].status != Zombie)
    && (pc.Adopting? && pc.i == i ==> Runs(procs, pc.child))
    && (HasConverged(pc, i) ==> Runs(procs, e.pid))
  }

  /** The pid of an entry, and the child about to be stored, are children of that entry. */
  lemma OwnPids(s: State, i: nat)
    requires Inv(s) && i < |s.m.entries|
    ensures s.m.entries[i].pid in s.m.procs ==> s.m.procs[s.m.entries[i].pid].owner == i
    ensures s.w.pc.Adopting? && s.w.pc.i == i ==> s.w.pc.child in s.m.procs && s.m.procs[s.w.pc.child].owner == i
    ensures s.m.entries[i].pid > 0 ==> s.m.entries[i].pid in s.m.procs
    ensures 0 !in s.m.procs
  {
    var e := s.m.entries[i];
    assert Family(e, i, s.m.procs, s.w.pc);
    assert 0 in s.m.procs ==> Registered(s.m, 0);
    if e.children != [] {
      assert LastOf(e.children) in e.children;
      var init := e.children[..|e.children| - 1];
      assert init != [] ==> LastOf(init) in e.children;
    }
  }

  /** No two entries share a child. */
  lemma PidsDistinct(s: State, j: nat, k: nat)
    requires Inv(s) && j < |s.m.entries| && k < |s.m.entries|
    ensures s.m.entries[j].pid == s.m.entries[k].pid > 0 ==> j == k
  {
    OwnPids(s, j);
    OwnPids(s, k);
  }

  lemma OthersKeepStarting(s: State, step: Step, i: nat)
    requires Inv(s) && Enabled(s, step) && !step.Work? && i < |s.m.entries| && Leaves(s, step, i) && Starting(s, i)
    ensures |Next(s, step).m.entries| == |s.m.entries| && Starting(Next(s, step), i)
  {
    OwnPids(s, i);
    if step.Screen? {
      ScreenTouches(s, step.input, i);
    }
  }

  lemma WorkKeepsStarting(s: State, c: Choice, i: nat)
    requires Inv(s) && WorkEnabled(s, c) && i < |s.m.entries| && Leaves(s, Work(c), i) && Starting(s, i)
    ensures |WorkNext(s, c).m.entries| == |s.m.entries| && Starting(WorkNext(s, c), i)
  {
    hide Inv, Starting, WorkNext, Leaves, WorkEnabled;
    match s.w.pc
    case Converging(_) => ConvergingKeepsStarting(s, c, i);
    case Spawning(_) => LaunchKeepsStarting(s, c, i);
    case Adopting(_, _) => LaunchKeepsStarting(s, c, i);
    case Stopping(_) => LaunchKeepsStarting(s, c, i);
    case _ => QuietKeepsStarting(s, c, i);
  }

  lemma QuietKeepsStarting(s: State, c: Choice, i: nat)
    requires Inv(s) && WorkEnabled(s, c) && i < |s.m.entries| && Leaves(s, Work(c), i) && Starting(s, i)
    requires !s.w.pc.Converging? && !s.w.pc.Spawning? && !s.w.pc.Adopting? && !s.w.pc.Stopping?
    ensures |WorkNext(s, c).m.entries| == |s.m.entries| && Starting(WorkNext(s, c), i)
  {
    hide Family, Families, Flags, Records, Reflects, Converged;
    OwnPids(s, i);
  }

  lemma LaunchKeepsStarting(s: State, c: Choice, i: nat)
    requires Inv(s) && WorkEnabled(s, c) && i < |s.m.entries| && Leaves(s, Work(c), i) && Starting(s, i)
    requires s.w.pc.Spawning? || s.w.pc.Adopting? || s.w.pc.Stopping?
    ensures |WorkNext(s, c).m.entries| == |s.m.entries| && Starting(WorkNext(s, c), i)
  {
    hide Family, Families, Flags, Records, Reflects, Converged;
    OwnPids(s, i);
  }

  lemma ConvergingKeepsStarting(s: State, c: Choice, i: nat)
    requires Inv(s) && s.w.pc.Converging? && i < |s.m.entries| && Starting(s, i)
    ensures |WorkNext(s, c).m.entries| == |s.m.entries| && Starting(WorkNext(s, c), i)
  {
    hide Family, Families, Flags, Records, Reflects;
    OwnPids(s, i);
  }

  lemma {:induction false} StartingOverRun(run: seq<State>, steps: seq<Step>, i: nat, k: nat)
    requires IsRun(run, steps) && Inv(run[0]) && i < |run[0].m.entries| && k < |run|
    requires Starting(run[0], i) && LeavesAlong(run, steps, i)
    ensures Inv(run[k]) && |run[k].m.entries| == |run[0].m.entries| && Starting(run[k], i)
  {
    hide Inv, Starting;
    if k > 0 {
      StartingOverRun(run, steps, i, k - 1);
      var s, step := run[k - 1], steps[k - 1];
      InvKept(s, step);
      match step
      case Work(c) => WorkKeepsStarting(s, c, i);
      case _ => OthersKeepStarting(s, step, i);
    }
  }

  // ---------------------------------------------------------------- staying

  /** Entry i has a running child, and nothing is about to be done to it. */
  predicate Kept(s: State, i: nat)
    requires i < |s.m.entries|
  {
    var pc := s.w.pc;
    && Runs(s.m.procs, s.m.entries[i].pid)
    && pc != Spawning(i) && !(pc.Adopting? && pc.i == i) && pc != Stopping(i)
    && (Busy(pc, i) ==> s.m.entries[i].intent == INTENT_START)
  }

  /** Neither the child, nor its start, nor the history of children has changed. */
  predicate SameChild(e: Entry, e': Entry)
  {
    e'.pid == e.pid && e'.lastChange == e.lastChange && e'.children == e.children
  }

  lemma StaysKept(s: State, step: Step, i: nat)
    requires Inv(s) && Enabled(s, step) && i < |s.m.entries| && Leaves(s, step, i) && Kept(s, i)
    ensures |Next(s, step).m.entries| == |s.m.entries|
    ensures Kept(Next(s, step), i) && SameChild(s.m.entries[i], Next(s, step).m.entries[i])
  {
    OwnPids(s, i);
    match step
    case Work(c) => WorkKeepsKept(s, c, i);
    case Screen(input) => ScreenTouches(s, input, i);
    case _ =>
  }

  lemma WorkKeepsKept(s: State, c: Choice, i: nat)
    requires Inv(s) && WorkEnabled(s, c) && i < |s.m.entries| && Leaves(s, Work(c), i) && Kept(s, i)
    ensures |WorkNext(s, c).m.entries| == |s.m.entries|
    ensures Kept(WorkNext(s, c), i) && SameChild(s.m.entries[i], WorkNext(s, c).m.entries[i])
  {
    hide Family, Families, Flags, Records, Reflects, Converged;
    OwnPids(s, i);
    if s.w.pc.Converging? {
      ConvergingKeepsKept(s, c, i);
    }
  }

  lemma ConvergingKeepsKept(s: State, c: Choice, i: nat)
    requires Inv(s) && s.w.pc.Converging? && i < |s.m.entries| && Kept(s, i)
    ensures |WorkNext(s, c).m.entries| == |s.m.entries|
    ensures Kept(WorkNext(s, c), i) && SameChild(s.m.entries[i], WorkNext(s, c).m.entries[i])
  {
    hide Family, Families, Flags, Records, Reflects;
    OwnPids(s, i);
  }

  // ---------------------------------------------------------------- main results

  /** From the head of the worker's loop on, in any run in which no child of entry i ends and
      the entry wishes to run whenever it is reflected: once the worker has converged it, in
      this or any later pass, the entry has a running child. */
  lemma PassStartsEntry(run: seq<State>, steps: seq<Step>, i: nat, k: nat)
    requires IsRun(run, steps) && Inv(run[0]) && run[0].w.pc == AtLock
    requires i < |run[0].m.entries| && LeavesAlong(run, steps, i)
    requires k < |run| && HasConverged(run[k].w.pc, i)
    ensures |run[k].m.entries| == |run[0].m.entries| && Runs(run[k].m.procs, run[k].m.entries[i].pid)
  {
    StartingOverRun(run, steps, i, k);
  }

  /** The fixed point: an entry that has a running child, while the worker is not about to do
      anything to it, keeps pid, last change and children over any number of further passes
      in which it wishes to run and no child of its ends. */
  lemma {:induction false} RunningEntryIsLeftAlone(run: seq<State>, steps: seq<Step>, i: nat, k: nat)
    requires IsRun(run, steps) && Inv(run[0]) && i < |run[0].m.entries| && Kept(run[0], i)
    requires LeavesAlong(run, steps, i) && k < |run|
    ensures Inv(run[k]) && |run[k].m.entries| == |run[0].m.entries|
    ensures Kept(run[k], i) && SameChild(run[0].m.entries[i], run[k].m.entries[i])
  {
    hide Inv, Kept;
    if k > 0 {
      RunningEntryIsLeftAlone(run, steps, i, k - 1);
      InvKept(run[k - 1], steps[k - 1]);
      StaysKept(run[k - 1], steps[k - 1], i);
    }
  }

  /** Both together: what the first pass has started is the child of every later state. */
  lemma StartedOnceAndKept(run: seq<State>, steps: seq<Step>, i: nat, a: nat, b: nat)
    requires IsRun(run, steps) && Inv(run[0]) && run[0].w.pc == AtLock
    requires i < |run[0].m.entries| && LeavesAlong(run, steps, i)
    requires a <= b < |run| && HasConverged(run[a].w.pc, i)
    ensures |run[a].m.entries| == |run[b].m.entries| == |run[0].m.entries|
    ensures Runs(run[b].m.procs, run[b].m.entries[i].pid)
    ensures SameChild(run[a].m.entries[i], run[b].m.entries[i])
  {
    StartingOverRun(run, steps, i, a);
    var rest, more := run[a..], steps[a..];
    assert IsRun(rest, more) by {
      forall k {:trigger more[k]} | 0 <= k < |more|
        ensures Enabled(rest[k], more[k]) && rest[k + 1] == Next(rest[k], more[k])
      {
        assert more[k] == steps[a + k];
      }
    }
    assert LeavesAlong(rest, more, i) by {
      forall k {:trigger more[k]} | 0 <= k < |more|
        ensures Leaves(rest[k], more[k], i)
      {
        assert more[k] == steps[a + k];
      }
    }
    RunningEntryIsLeftAlone(rest, more, i, b - a);
  }

  // ---------------------------------------------------------------- stopping

  /** How far the current pass has come with entry i: not yet reflected, reflected, acting on
      the decision of its convergence, done with it. */
  function Phase(pc: WorkerPc, i: nat): nat
  {
    if HasConverged(pc, i) then 3
    else if pc == Spawning(i) || (pc.Adopting? && pc.i == i) || pc == Stopping(i) then 2
    else if Busy(pc, i) then 1
    else 0
  }

  /** The step in which the worker reflects, converges, or signals entry i. */
  predicate WorksAt(s: State, step: Step, pc: WorkerPc)
  {
    step.Work? && s.w.pc == pc
  }

  /** How often the worker has sent entry i's SIGTERM by state k. */
  function StopsSent(run: seq<State>, steps: seq<Step>, i: nat, k: nat): nat
    requires |run| == |steps| + 1 && k <= |steps|
  {
    if k == 0 then 0
    else StopsSent(run, steps, i, k - 1) + if WorksAt(run[k - 1], steps[k - 1], Stopping(i)) then 1 else 0
  }

  /** The run stays within one pass of the worker. */
  predicate WithinPass(run: seq<State>, steps: seq<Step>)
  {
    && IsRun(run, steps) && Inv(run[0]) && run[0].w.pc == AtLock
    && (forall k {:trigger steps[k]} :: 0 <= k < |steps| ==> run[k].w.pc != Sleeping)
  }

  lemma {:induction false} InvAlong(run: seq<State>, steps: seq<Step>, k: nat)
    requires IsRun(run, steps) && Inv(run[0]) && k < |run|
    ensures Inv(run[k]) && |run[k].m.entries| == |run[0].m.entries|
  {
    hide Inv, Next, Enabled;
    if k > 0 {
      InvAlong(run, steps, k - 1);
      InvKept(run[k - 1], steps[k - 1]);
      EntriesStay(run[k - 1], steps[k - 1]);
    }
  }

  lemma EntriesStay(s: State, step: Step)
    requires Inv(s) && Enabled(s, step)
    ensures |Next(s, step).m.entries| == |s.m.entries|
  {
    ShapeKept(s, step);
  }

  /** One step within a pass: the phase does not go back; it goes from 0 to 1 by reflecting,
      from 1 on by converging, and from Stopping on by signalling. */
  lemma PhaseStep(s: State, step: Step, i: nat)
    requires Inv(s) && Enabled(s, step) && i < |s.m.entries| && s.w.pc != Sleeping
    ensures
      var ph, ph' := Phase(s.w.pc, i), Phase(Next(s, step).w.pc, i);
      && ph <= ph'
      && (ph == 0 && ph' > 0 ==> ph' == 1 && WorksAt(s, step, Reflecting(i)))
      && (ph == 1 && ph' > 1 ==> WorksAt(s, step, Converging(i)))
      && (WorksAt(s, step, Reflecting(i)) ==> ph == 0 && ph' == 1)
      && (WorksAt(s, step, Converging(i)) ==> ph == 1 && ph' > 1)
      && (WorksAt(s, step, Stopping(i)) ==> ph == 2 && ph' == 3)
      && (s.w.pc == Stopping(i) && ph' == 3 ==> WorksAt(s, step, Stopping(i)))
      && (ph == 2 && ph' == 2 ==> (Next(s, step).w.pc == Stopping(i) <==> s.w.pc == Stopping(i)))
  {
    if step.Work? {
      WorkPhase(s, step.choice, i);
    } else if step.Screen? {
      ScreenTouches(s, step.input, i);
    }
  }

  lemma WorkPhase(s: State, c: Choice, i: nat)
    requires Inv(s) && WorkEnabled(s, c) && i < |s.m.entries| && s.w.pc != Sleeping
    ensures
      var ph, ph' := Phase(s.w.pc, i), Phase(WorkNext(s, c).w.pc, i);
      && ph <= ph'
      && (ph == 0 && ph' > 0 ==> ph' == 1 && s.w.pc == Reflecting(i))
      && (ph == 1 && ph' > 1 ==> s.w.pc == Converging(i))
      && (s.w.pc == Reflecting(i) ==> ph == 0 && ph' == 1)
      && (s.w.pc == Converging(i) ==> ph == 1 && ph' > 1)
      && (s.w.pc == Stopping(i) ==> ph == 2 && ph' == 3)
      && (ph == 2 && ph' == 2 ==> (WorkNext(s, c).w.pc == Stopping(i) <==> s.w.pc == Stopping(i)))
  {
    hide Families, Flags, Reflects, Records;
  }

  lemma {:induction false} PhaseGrows(run: seq<State>, steps: seq<Step>, i: nat, a: nat, b: nat)
    requires WithinPass(run, steps) && a <= b < |run| && i < |run[0].m.entries|
    ensures Phase(run[a].w.pc, i) <= Phase(run[b].w.pc, i)
  {
    hide Inv, Next, Enabled, Phase, WorksAt;
    if a < b {
      PhaseGrows(run, steps, i, a, b - 1);
      InvAlong(run, steps, b - 1);
      var step := steps[b - 1];
      PhaseStep(run[b - 1], step, i);
    }
  }

  /** Nothing is sent up to the convergence. */
  lemma {:induction false} NothingSentBefore(run: seq<State>, steps: seq<Step>, i: nat, k: nat)
    requires WithinPass(run, steps) && k < |run| && i < |run[0].m.entries| && Phase(run[k].w.pc, i) <= 1
    ensures StopsSent(run, steps, i, k) == 0
  {
    hide Inv, Next, Enabled, Phase;
    if k > 0 {
      PhaseGrows(run, steps, i, k - 1, k);
      NothingSentBefore(run, steps, i, k - 1);
      InvAlong(run, steps, k - 1);
      var step := steps[k - 1];
      PhaseStep(run[k - 1], step, i);
    }
  }

  /** What was reflected is what is converged. */
  lemma {:induction false} IntentStays(run: seq<State>, steps: seq<Step>, i: nat, r: nat, k: nat)
    requires WithinPass(run, steps) && r < k < |run| && i < |run[0].m.entries|
    requires WorksAt(run[r], steps[r], Reflecting(i)) && Phase(run[k].w.pc, i) == 1
    ensures |run[k].m.entries| == |run[r].m.entries| == |run[0].m.entries|
    ensures run[k].m.entries[i].intent == run[r].m.entries[i].desired
  {
    hide Inv, Next, Enabled, Phase;
    InvAlong(run, steps, r);
    InvAlong(run, steps, k - 1);
    InvAlong(run, steps, k);
    var step := steps[k - 1];
    PhaseStep(run[k - 1], step, i);
    if k == r + 1 {
      ReflectsWish(run[r], step, i);
    } else {
      PhaseStep(run[r], steps[r], i);
      PhaseGrows(run, steps, i, r + 1, k - 1);
      IntentStays(run, steps, i, r, k - 1);
      PhaseKeepsIntent(run[k - 1], step, i);
    }
  }

  lemma ReflectsWish(s: State, step: Step, i: nat)
    requires Enabled(s, step) && WorksAt(s, step, Reflecting(i)) && i < |s.m.entries|
    ensures |Next(s, step).m.entries| == |s.m.entries|
    ensures Next(s, step).m.entries[i].intent == s.m.entries[i].desired
  {
  }

  lemma PhaseKeepsIntent(s: State, step: Step, i: nat)
    requires Inv(s) && Enabled(s, step) && i < |s.m.entries|
    requires Phase(s.w.pc, i) == 1 && Phase(Next(s, step).w.pc, i) == 1
    ensures |Next(s, step).m.entries| == |s.m.entries|
    ensures Next(s, step).m.entries[i].intent == s.m.entries[i].intent
  {
    if step.Screen? {
      ScreenTouches(s, step.input, i);
    }
  }

  /** What the convergence of entry i decides, in terms of its intent and its child. */
  lemma DecidesStop(s: State, step: Step, i: nat)
    requires Inv(s) && Enabled(s, step) && WorksAt(s, step, Converging(i)) && i < |s.m.entries|
    ensures
      var e, pc := s.m.entries[i], Next(s, step).w.pc;
      if e.intent == INTENT_STOP && IsAlive(s.m.procs, e.pid) then pc == Stopping(i) else pc != Stopping(i)
  {
  }

  /** From the convergence on: the signal is still to be sent, or it has been, if it is due. */
  lemma {:induction false} SentAfter(run: seq<State>, steps: seq<Step>, i: nat, c: nat, k: nat, due: bool)
    requires WithinPass(run, steps) && c < k < |run| && i < |run[0].m.entries|
    requires WorksAt(run[c], steps[c], Converging(i)) && (due <==> run[c + 1].w.pc == Stopping(i))
    ensures Phase(run[k].w.pc, i) >= 2
    ensures Phase(run[k].w.pc, i) == 2 ==> StopsSent(run, steps, i, k) == 0 && (due <==> run[k].w.pc == Stopping(i))
    ensures Phase(run[k].w.pc, i) == 3 ==> StopsSent(run, steps, i, k) == if due then 1 else 0
  {
    hide Inv, Next, Enabled, Phase;
    InvAlong(run, steps, k - 1);
    var step := steps[k - 1];
    PhaseStep(run[k - 1], step, i);
    if k == c + 1 {
      NothingSentBefore(run, steps, i, c);
      StoppingIsPhase2(run[k].w.pc, i);
    } else {
      SentAfter(run, steps, i, c, k - 1, due);
      StoppingIsPhase2(run[k - 1].w.pc, i);
      PhaseBound(run[k].w.pc, i);
    }
  }

  lemma StoppingIsPhase2(pc: WorkerPc, i: nat)
    ensures pc == Stopping(i) ==> Phase(pc, i) == 2
  {
  }

  lemma PhaseBound(pc: WorkerPc, i: nat)
    ensures Phase(pc, i) <= 3
  {
  }

  /** Within a pass, whatever else happens: entry i is reflected in step r and converged in step
      c. Once it is converged, the worker has sent it SIGTERM exactly once if it wished to stop
      when it was reflected and its child answered when it was converged, and not at all
      otherwise. */
  lemma StopSignalledOnce(run: seq<State>, steps: seq<Step>, i: nat, r: nat, c: nat, k: nat)
    requires WithinPass(run, steps) && i < |run[0].m.entries| && r < |steps| && c < |steps| && k < |run|
    requires WorksAt(run[r], steps[r], Reflecting(i)) && WorksAt(run[c], steps[c], Converging(i))
    requires HasConverged(run[k].w.pc, i)
    ensures |run[r].m.entries| == |run[c].m.entries| == |run[0].m.entries|
    ensures
      var wish, m := run[r].m.entries[i].desired, run[c].m;
      StopsSent(run, steps, i, k) == if wish == INTENT_STOP && IsAlive(m.procs, m.entries[i].pid) then 1 else 0
  {
    hide Inv, Next, Enabled;
    InvAlong(run, steps, r);
    InvAlong(run, steps, c);
    Ordered(run, steps, i, r, c, k);
    IntentStays(run, steps, i, r, c);
    DecidesStop(run[c], steps[c], i);
    SentAfter(run, steps, i, c, k, run[c + 1].w.pc == Stopping(i));
  }

  lemma Ordered(run: seq<State>, steps: seq<Step>, i: nat, r: nat, c: nat, k: nat)
    requires WithinPass(run, steps) && i < |run[0].m.entries| && r < |steps| && c < |steps| && k < |run|
    requires WorksAt(run[r], steps[r], Reflecting(i)) && WorksAt(run[c], steps[c], Converging(i))
    requires HasConverged(run[k].w.pc, i)
    ensures r < c < k && Phase(run[c].w.pc, i) == 1 && run[c + 1] == Next(run[c], steps[c]) && Enabled(run[c], steps[c])
  {
    hide Inv, Next, Enabled;
    InvAlong(run, steps, r);
    InvAlong(run, steps, c);
    PhaseStep(run[r], steps[r], i);
    PhaseStep(run[c], steps[c], i);
    if c <= r {
      PhaseGrows(run, steps, i, c, r);
    }
    if k <= c {
      PhaseGrows(run, steps, i, k, c);
    }
  }
}
