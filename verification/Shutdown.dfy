/** What recording STOP achieves: how often the worker may still spawn, and when leaving the
    event loop means that no child is left. */
module Shutdown {
  import opened Types
  import opened Supervisor
  import opened SupervisorInvariants

  predicate AllDesireStop(m: Memory)
  {
    forall i :: 0 <= i < |m.entries| ==> m.entries[i].desired == INTENT_STOP
  }

  predicate NobodyLeft(procs: ProcTable)
  {
    forall p :: p in procs ==> procs[p].status == Gone
  }

  /** The worker will still try to start entry i in the pass it is in. */
  predicate Armed(s: State, i: nat)
    requires i < |s.m.entries|
  {
    || s.w.pc == Spawning(i)
    || (&& s.m.entries[i].intent == INTENT_START
        && match s.w.pc
           case Reflecting(j) => i < j
           case Reaping(_) => true
           case Converging(j) => j <= i
           case Spawning(j) => j < i
           case Adopting(j, _) => j < i
           case Stopping(j) => j < i
           case _ => false)
  }

  /** No step of `steps[a..b]` handles the launch key for entry i. */
  predicate NoLaunch(run: seq<State>, steps: seq<Step>, a: nat, b: nat, i: nat)
    requires |run| == |steps| + 1 && b <= |steps|
  {
    forall k {:trigger steps[k]} :: a <= k < b ==> !Launches(run[k], steps[k], i)
  }

  predicate NoLaunchAtAll(run: seq<State>, steps: seq<Step>, a: nat, b: nat)
    requires |run| == |steps| + 1 && b <= |steps|
  {
    forall k {:trigger steps[k]} :: a <= k < b ==> !(steps[k].Screen? && run[k].u.pc == Handling(LaunchKey))
  }

  // ---------------------------------------------------------------- one step

  lemma StopStays(s: State, step: Step, i: nat)
    requires Shape(s) && Enabled(s, step) && i < |s.m.entries|
    requires s.m.entries[i].desired == INTENT_STOP && !Launches(s, step, i)
    ensures |Next(s, step).m.entries| == |s.m.entries|
    ensures Next(s, step).m.entries[i].desired == INTENT_STOP
  {
  }

  function Budget(s: State, i: nat): nat
    requires i < |s.m.entries|
  {
    |s.m.entries[i].children| + if Armed(s, i) then 1 else 0
  }

  lemma WorkKeepsBudget(s: State, c: Choice, i: nat)
    requires Shape(s) && WorkEnabled(s, c) && i < |s.m.entries|
    requires s.m.entries[i].desired == INTENT_STOP
    ensures |WorkNext(s, c).m.entries| == |s.m.entries|
    ensures Budget(WorkNext(s, c), i) <= Budget(s, i)
    ensures s.m.entries[i].children <= WorkNext(s, c).m.entries[i].children
    ensures s.w.pc == Reflecting(i) ==> !Armed(WorkNext(s, c), i)
  {
    hide Converged;
    if s.w.pc.Converging? {
      ConvergingKeepsBudget(s, c, i);
    }
  }

  lemma ConvergingKeepsBudget(s: State, c: Choice, i: nat)
    requires Shape(s) && s.w.pc.Converging? && i < |s.m.entries|
    ensures |WorkNext(s, c).m.entries| == |s.m.entries|
    ensures Budget(WorkNext(s, c), i) <= Budget(s, i)
    ensures s.m.entries[i].children <= WorkNext(s, c).m.entries[i].children
  {
  }

  lemma BudgetKept(s: State, step: Step, i: nat)
    requires Shape(s) && Enabled(s, step) && i < |s.m.entries|
    requires s.m.entries[i].desired == INTENT_STOP
    ensures |Next(s, step).m.entries| == |s.m.entries|
    ensures Budget(Next(s, step), i) <= Budget(s, i)
    ensures s.m.entries[i].children <= Next(s, step).m.entries[i].children
  {
    match step
    case Work(c) => WorkKeepsBudget(s, c, i);
    case Screen(input) => ScreenTouches(s, input, i);
    case _ =>
  }

  lemma {:induction false} BudgetOverRun(run: seq<State>, steps: seq<Step>, i: nat, a: nat, b: nat)
    requires IsRun(run, steps) && Init(run[0]) && i < |run[0].m.entries| && a <= b < |run|
    requires i < |run[a].m.entries| && run[a].m.entries[i].desired == INTENT_STOP
    requires NoLaunch(run, steps, a, b, i)
    ensures i < |run[b].m.entries| && run[b].m.entries[i].desired == INTENT_STOP
    ensures Budget(run[b], i) <= Budget(run[a], i)
    ensures run[a].m.entries[i].children <= run[b].m.entries[i].children
  {
    if a < b {
      BudgetOverRun(run, steps, i, a, b - 1);
      Reachable(run, steps, b - 1);
      StopStays(run[b - 1], steps[b - 1], i);
      BudgetKept(run[b - 1], steps[b - 1], i);
    }
  }

  /** Once STOP is recorded for an entry, and until its next launch, the worker spawns it at
      most once more; and from the first reflect of that entry on it spawns it no more. */
  lemma SpawnAtMostOnceAfterStop(run: seq<State>, steps: seq<Step>, i: nat, a: nat, b: nat)
    requires IsRun(run, steps) && Init(run[0]) && i < |run[0].m.entries| && a <= b < |run|
    requires i < |run[a].m.entries| && run[a].m.entries[i].desired == INTENT_STOP
    requires NoLaunch(run, steps, a, b, i)
    ensures i < |run[b].m.entries|
    ensures run[a].m.entries[i].children <= run[b].m.entries[i].children
    ensures |run[b].m.entries[i].children| <= |run[a].m.entries[i].children| + 1
    ensures forall c :: a <= c < b && steps[c].Work? && run[c].w.pc == Reflecting(i) ==>
      i < |run[c].m.entries| && run[b].m.entries[i].children == run[c].m.entries[i].children
  {
    BudgetOverRun(run, steps, i, a, b);
    forall c | a <= c < b && steps[c].Work? && run[c].w.pc == Reflecting(i)
      ensures i < |run[c].m.entries| && run[b].m.entries[i].children == run[c].m.entries[i].children
    {
      BudgetOverRun(run, steps, i, a, c);
      Reachable(run, steps, c);
      WorkKeepsBudget(run[c], steps[c].choice, i);
      BudgetOverRun(run, steps, i, c, c + 1);
      assert Budget(run[c + 1], i) == |run[c].m.entries[i].children|;
      BudgetOverRun(run, steps, i, c + 1, b);
    }
  }

  // ---------------------------------------------------------------- quiet states

  /** STOP is everywhere and the worker knows it: nothing will be spawned any more. */
  predicate Quiet(s: State)
  {
    && AllDesireStop(s.m)
    && forall i :: 0 <= i < |s.m.entries| ==> !Armed(s, i)
  }

  lemma QuietKept(s: State, step: Step)
    requires Shape(s) && Enabled(s, step) && Quiet(s)
    requires !(step.Screen? && s.u.pc == Handling(LaunchKey))
    ensures Quiet(Next(s, step))
    ensures !step.Work? || !s.w.pc.Spawning?
  {
    var s' := Next(s, step);
    ShapeKept(s, step);
    forall i | 0 <= i < |s'.m.entries|
      ensures s'.m.entries[i].desired == INTENT_STOP && !Armed(s', i)
    {
      StopStays(s, step, i);
      BudgetKept(s, step, i);
    }
    if s.w.pc.Spawning? {
      assert Armed(s, s.w.pc.i);
    }
  }

  /** In a quiet state nothing is spawned, so an empty process table stays empty. */
  lemma NobodyStays(s: State, step: Step)
    requires Shape(s) && Enabled(s, step) && Quiet(s) && NobodyLeft(s.m.procs)
    requires !(step.Screen? && s.u.pc == Handling(LaunchKey))
    ensures NobodyLeft(Next(s, step).m.procs)
  {
    QuietKept(s, step);
    forall p | p in Next(s, step).m.procs
      ensures Next(s, step).m.procs[p].status == Gone
    {
      ProcsProgress(s, step);
      if p !in s.m.procs {
        NewPidIsSpawn(s, step, p);
      }
    }
  }

  /** The worker holds the mutex, so the wishes it reflects are the recorded STOPs. */
  lemma ReflectQuiets(s: State, step: Step)
    requires Inv(s) && Enabled(s, step) && FinishesReflect(s, step) && AllDesireStop(s.m)
    ensures Quiet(Next(s, step))
  {
  }

  lemma RecordingStopsAll(s: State, step: Step)
    requires Inv(s) && Enabled(s, step) && FinishesRecording(s, step)
    ensures AllDesireStop(Next(s, step).m)
  {
  }

  // ---------------------------------------------------------------- the deciding count

  predicate KillSent(e: Entry)
  {
    e.pid > 0 ==> exists k :: 0 <= k < |e.sent| && e.sent[k].sig == SigKill && e.sent[k].pid == e.pid
  }

  /** What the screen thread has established by the point it has reached. */
  predicate Deciding(s: State)
  {
    var es := s.m.entries;
    && (s.u.pc.Counting? && s.u.pc.alive == 0 ==>
          forall k :: 0 <= k < s.u.pc.i && k < |es| ==> !IsAlive(s.m.procs, es[k].pid))
    && (s.u.pc.Signalling? && s.u.pc.sig == SigKill ==>
          forall k :: 0 <= k < s.u.pc.i && k < |es| ==> KillSent(es[k]))
    && (s.u.reason == NobodyAlive ==> NobodyLeft(s.m.procs))
    && (s.u.reason == TimedOut && !s.u.pc.Signalling? ==>
          forall k :: 0 <= k < |es| ==> KillSent(es[k]))
  }

  /** If no entry's pid answers and no spawn is under way, no child is left at all. */
  lemma NoneAnswersNoneLeft(s: State)
    requires Inv(s) && !s.w.pc.Adopting?
    requires forall k :: 0 <= k < |s.m.entries| ==> !IsAlive(s.m.procs, s.m.entries[k].pid)
    ensures NobodyLeft(s.m.procs)
  {
    forall p | p in s.m.procs
      ensures s.m.procs[p].status == Gone
    {
      assert Registered(s.m, p);
      var i := s.m.procs[p].owner;
      var children := s.m.entries[i].children;
      assert Family(s.m.entries[i], i, s.m.procs, s.w.pc);
      assert children == children[..|children| - 1] + [LastOf(children)];
    }
  }

  /** Quiet, and no spawned child is waiting to be stored. */
  predicate Settled(s: State)
  {
    Quiet(s) && !s.w.pc.Adopting?
  }

  lemma SettledKept(s: State, step: Step)
    requires Inv(s) && Enabled(s, step) && Settled(s)
    requires !(step.Screen? && s.u.pc == Handling(LaunchKey))
    ensures Settled(Next(s, step))
  {
    QuietKept(s, step);
  }

  lemma SentGrows(s: State, step: Step, i: nat)
    requires Shape(s) && Enabled(s, step) && i < |s.m.entries|
    ensures |Next(s, step).m.entries| == |s.m.entries|
    ensures s.m.entries[i].sent <= Next(s, step).m.entries[i].sent
  {
  }

  /** A settled worker leaves pids and children as they are. */
  lemma SettledKeepsPid(s: State, step: Step, i: nat)
    requires Inv(s) && Enabled(s, step) && Settled(s) && i < |s.m.entries|
    ensures |Next(s, step).m.entries| == |s.m.entries|
    ensures SameFamily(s.m.entries[i], Next(s, step).m.entries[i])
  {
    assert s.w.pc.Spawning? ==> Armed(s, s.w.pc.i);
    match step
    case Work(c) => WorkIsOneOf(s, c, i);
    case Screen(input) => ScreenTouches(s, input, i);
    case _ =>
  }

  /** No child comes back to life. */
  lemma DeadStaysDead(s: State, step: Step, i: nat)
    requires Inv(s) && Enabled(s, step) && i < |s.m.entries|
    requires !IsAlive(s.m.procs, s.m.entries[i].pid)
    ensures !IsAlive(Next(s, step).m.procs, s.m.entries[i].pid)
  {
    var e := s.m.entries[i];
    ProcsProgress(s, step);
    assert Family(e, i, s.m.procs, s.w.pc);
    if e.pid > 0 {
      assert e.pid in e.children;
    }
  }

  /** Whatever step is taken, what was true of the first entries stays true of them. */
  lemma PrefixKept(s: State, step: Step, i: nat)
    requires Inv(s) && Enabled(s, step) && Settled(s) && i < |s.m.entries|
    ensures |Next(s, step).m.entries| == |s.m.entries|
    ensures !IsAlive(s.m.procs, s.m.entries[i].pid) ==> !IsAlive(Next(s, step).m.procs, Next(s, step).m.entries[i].pid)
    ensures KillSent(s.m.entries[i]) ==> KillSent(Next(s, step).m.entries[i])
  {
    SettledKeepsPid(s, step, i);
    SentGrows(s, step, i);
    if !IsAlive(s.m.procs, s.m.entries[i].pid) {
      DeadStaysDead(s, step, i);
    }
    if KillSent(s.m.entries[i]) && s.m.entries[i].pid > 0 {
      var e := s.m.entries[i];
      var k :| 0 <= k < |e.sent| && e.sent[k].sig == SigKill && e.sent[k].pid == e.pid;
      assert Next(s, step).m.entries[i].sent[k] == s.m.entries[i].sent[k];
    }
  }

  lemma CountDecides(s: State, i: nat, alive: nat)
    requires Inv(s) && Settled(s) && Deciding(s) && s.u.pc == Counting(i, alive)
    ensures Deciding(ScreenNext(s, Input(OtherKey, 0)))
  {
    if i == |s.m.entries| && alive == 0 {
      NoneAnswersNoneLeft(s);
    }
  }

  lemma SignalDecides(s: State, sig: Signal, i: nat, at: int)
    requires Inv(s) && Settled(s) && Deciding(s) && s.u.pc == Signalling(sig, i, at)
    ensures Deciding(ScreenNext(s, Input(OtherKey, 0)))
  {
    if i < |s.m.entries| {
      var m' := Signalled(s.m, i, sig, at);
      if s.m.entries[i].pid > 0 {
        var sent := m'.entries[i].sent;
        assert sent[|sent| - 1] == Sent(sig, m'.entries[i].pid, at);
      }
      forall k | 0 <= k < i && KillSent(s.m.entries[k])
        ensures KillSent(m'.entries[k])
      {
        assert m'.entries[k] == s.m.entries[k];
      }
    }
  }

  /** Outside the count and the signals the screen thread touches neither pids nor children
      nor what it sent. */
  lemma ElsewhereNothingSent(s: State, input: Input, i: nat)
    requires ScreenEnabled(s) && !s.u.pc.Counting? && !s.u.pc.Signalling? && i < |s.m.entries|
    ensures |ScreenNext(s, input).m.entries| == |s.m.entries|
    ensures ScreenNext(s, input).m.entries[i].sent == s.m.entries[i].sent
    ensures ScreenNext(s, input).m.entries[i].pid == s.m.entries[i].pid
    ensures ScreenNext(s, input).m.procs == s.m.procs && ScreenNext(s, input).u.reason == s.u.reason
    ensures !ScreenNext(s, input).u.pc.Signalling?
    ensures ScreenNext(s, input).u.pc.Counting? ==> ScreenNext(s, input).u.pc.i == 0
  {
    hide Handled, ScreenEnabled;
    match s.u.pc
    case Handling(key) => HandledSendsNothing(s, key, i);
    case _ =>
  }

  lemma HandledSendsNothing(s: State, key: Key, i: nat)
    requires i < |s.m.entries|
    ensures
      var s' := Handled(s, key);
      && |s'.m.entries| == |s.m.entries| && s'.m.entries[i].sent == s.m.entries[i].sent
      && s'.m.entries[i].pid == s.m.entries[i].pid
      && s'.m.procs == s.m.procs && s'.u.reason == s.u.reason && s'.u.pc == CheckTerm
  {
  }

  /** The screen thread's own progress through the count and the signals. */
  lemma ScreenDecides(s: State, input: Input)
    requires Inv(s) && ScreenEnabled(s) && Settled(s) && Deciding(s)
    requires s.u.pc != Handling(LaunchKey)
    ensures Deciding(ScreenNext(s, input))
  {
    if s.u.pc.Counting? {
      CountDecides(s, s.u.pc.i, s.u.pc.alive);
      assert ScreenNext(s, input) == ScreenNext(s, Input(OtherKey, 0));
    } else if s.u.pc.Signalling? {
      SignalDecides(s, s.u.pc.sig, s.u.pc.i, s.u.pc.at);
      assert ScreenNext(s, input) == ScreenNext(s, Input(OtherKey, 0));
    } else {
      ElsewhereDecides(s, input, ScreenNext(s, input));
    }
  }

  lemma ElsewhereDecides(s: State, input: Input, s': State)
    requires Inv(s) && ScreenEnabled(s) && Deciding(s)
    requires !s.u.pc.Counting? && !s.u.pc.Signalling? && s' == ScreenNext(s, input)
    ensures Deciding(s')
  {
    ElsewhereNothingSent(s, input, 0);
    forall k | 0 <= k < |s'.m.entries|
      ensures KillSent(s.m.entries[k]) ==> KillSent(s'.m.entries[k])
    {
      ElsewhereNothingSent(s, input, k);
    }
  }

  lemma DecidingKept(s: State, step: Step)
    requires Inv(s) && Enabled(s, step) && Settled(s) && Deciding(s)
    requires !(step.Screen? && s.u.pc == Handling(LaunchKey))
    ensures Deciding(Next(s, step))
  {
    if step.Screen? {
      ScreenDecides(s, step.input);
    } else {
      InvKept(s, step);
      forall k | 0 <= k < |s.m.entries|
        ensures KillSent(s.m.entries[k]) ==> KillSent(Next(s, step).m.entries[k])
        ensures !IsAlive(s.m.procs, s.m.entries[k].pid) ==>
          !IsAlive(Next(s, step).m.procs, Next(s, step).m.entries[k].pid)
      {
        PrefixKept(s, step, k);
      }
      if NobodyLeft(s.m.procs) {
        NobodyStays(s, step);
      }
      OthersLeaveScreen(s, step);
    }
  }

  lemma OthersLeaveScreen(s: State, step: Step)
    requires Enabled(s, step) && !step.Screen?
    ensures Next(s, step).u.pc == s.u.pc && Next(s, step).u.reason == s.u.reason
  {
  }

  // ---------------------------------------------------------------- over a run

  lemma {:induction false} StopOverRun(run: seq<State>, steps: seq<Step>, a: nat, b: nat)
    requires IsRun(run, steps) && Init(run[0]) && a <= b < |run|
    requires AllDesireStop(run[a].m) && NoLaunchAtAll(run, steps, a, b)
    ensures AllDesireStop(run[b].m)
  {
    if a < b {
      StopOverRun(run, steps, a, b - 1);
      Reachable(run, steps, b - 1);
      ShapeKept(run[b - 1], steps[b - 1]);
      forall i | 0 <= i < |run[b].m.entries|
        ensures run[b].m.entries[i].desired == INTENT_STOP
      {
        StopStays(run[b - 1], steps[b - 1], i);
      }
    }
  }

  lemma {:induction false} SettledOverRun(run: seq<State>, steps: seq<Step>, a: nat, b: nat)
    requires IsRun(run, steps) && Init(run[0]) && a <= b < |run|
    requires Settled(run[a]) && NoLaunchAtAll(run, steps, a, b)
    ensures Settled(run[b])
  {
    if a < b {
      SettledOverRun(run, steps, a, b - 1);
      Reachable(run, steps, b - 1);
      SettledKept(run[b - 1], steps[b - 1]);
    }
  }

  lemma {:induction false} DecidingOverRun(run: seq<State>, steps: seq<Step>, a: nat, b: nat)
    requires IsRun(run, steps) && Init(run[0]) && a <= b < |run|
    requires Settled(run[a]) && Deciding(run[a]) && NoLaunchAtAll(run, steps, a, b)
    ensures Settled(run[b]) && Deciding(run[b])
  {
    if a < b {
      DecidingOverRun(run, steps, a, b - 1);
      Reachable(run, steps, b - 1);
      SettledKept(run[b - 1], steps[b - 1]);
      DecidingKept(run[b - 1], steps[b - 1]);
    }
  }

  /** A quit finishes recording STOP (step a), then a worker pass finishes reflecting
      (step b), then the screen thread takes the mutex for a count (step c), and by state d it
      has left its loop; no launch key is handled after a. Then no child is left if it left
      because nobody answered; and if it left on the timeout, every entry's latest child was
      sent SIGKILL and all its older children are gone. */
  lemma ShutdownSafety(run: seq<State>, steps: seq<Step>, a: nat, b: nat, c: nat, d: nat)
    requires IsRun(run, steps) && Init(run[0]) && a < b < c < d < |run|
    requires FinishesRecording(run[a], steps[a])
    requires FinishesReflect(run[b], steps[b])
    requires StartsCount(run[c], steps[c])
    requires NoLaunchAtAll(run, steps, a + 1, d)
    requires HasLeft(run[d])
    ensures run[d].u.reason == NobodyAlive || run[d].u.reason == TimedOut
    ensures run[d].u.reason == NobodyAlive ==> NobodyLeft(run[d].m.procs)
    ensures run[d].u.reason == TimedOut ==>
      forall i :: 0 <= i < |run[d].m.entries| ==>
        var e := run[d].m.entries[i];
        && KillSent(e) && e.pid == LastOf(e.children)
        && (forall p :: p in e.children && p != e.pid ==> IsGone(run[d].m.procs, p))
  {
    hide Inv;
    Reachable(run, steps, a);
    RecordingStopsAll(run[a], steps[a]);
    StopOverRun(run, steps, a + 1, b);
    Reachable(run, steps, b);
    ReflectQuiets(run[b], steps[b]);
    SettledOverRun(run, steps, b + 1, c);
    Reachable(run, steps, c);
    SettledKept(run[c], steps[c]);
    CountBegins(run[c], steps[c]);
    DecidingOverRun(run, steps, c + 1, d);
    Reachable(run, steps, d);
    LatestIsPid(run[d]);
    LeavesForAReason(run[d]);
  }

  lemma CountBegins(s: State, step: Step)
    requires Inv(s) && Enabled(s, step) && StartsCount(s, step)
    ensures Deciding(Next(s, step))
  {
  }

  lemma LeavesForAReason(s: State)
    requires Inv(s) && HasLeft(s)
    ensures s.u.reason != NotLeaving && !s.u.pc.Signalling?
  {
  }

  /** Unless a spawned child is waiting to be stored, an entry's pid is its latest child, and
      all older ones are gone. */
  lemma LatestIsPid(s: State)
    requires Inv(s) && !s.w.pc.Adopting?
    ensures forall i :: 0 <= i < |s.m.entries| ==>
      var e := s.m.entries[i];
      && e.pid == LastOf(e.children)
      && (forall p :: p in e.children && p != e.pid ==> IsGone(s.m.procs, p))
  {
    forall i | 0 <= i < |s.m.entries|
      ensures
        var e := s.m.entries[i];
        && e.pid == LastOf(e.children)
        && (forall p :: p in e.children && p != e.pid ==> IsGone(s.m.procs, p))
    {
      var e := s.m.entries[i];
      assert Family(e, i, s.m.procs, s.w.pc);
      assert e.children != [] ==> e.children == e.children[..|e.children| - 1] + [LastOf(e.children)];
    }
  }
}
