/** Leaving the event loop: exactly when it is safe, why the plain claim "nothing is alive
    after quit" fails, and that the join which follows comes to an end. */
module Leaving {
  import opened Types
  import opened Supervisor
  import opened SupervisorInvariants
  import opened Shutdown

  // ---------------------------------------------------------------- how far a pass has come

  /** The worker's position in a pass over n entries. */
  function Pos(pc: WorkerPc, n: nat): nat
  {
    match pc
    case AtLock => 0
    case Reflecting(i) => 1 + i
    case Reaping(i) => n + 2 + i
    case Converging(i) => 2 * n + 3 + 3 * i
    case Spawning(i) => 2 * n + 4 + 3 * i
    case Stopping(i) => 2 * n + 4 + 3 * i
    case Adopting(i, _) => 2 * n + 5 + 3 * i
    case Sampling(i) => 5 * n + 4 + i
    case AtPublish => 6 * n + 5
    case Copying(i, half) => 6 * n + 6 + 2 * i + if half then 1 else 0
    case Sleeping => 8 * n + 7
    case Exited => 8 * n + 7
    case Crashed => 8 * n + 7
  }

  lemma PosGrows(s: State, c: Choice)
    requires Shape(s) && WorkEnabled(s, c)
    ensures |WorkNext(s, c).m.entries| == |s.m.entries|
    ensures s.w.pc != Sleeping ==>
      Pos(s.w.pc, |s.m.entries|) < Pos(WorkNext(s, c).w.pc, |s.m.entries|) <= 8 * |s.m.entries| + 7
    ensures s.w.pc == Sleeping ==> WorkNext(s, c).w.pc == AtLock
  {
    if s.w.pc.Converging? {
      ConvergeGrows(s, c);
    }
  }

  lemma ConvergeGrows(s: State, c: Choice)
    requires Shape(s) && s.w.pc.Converging?
    ensures |WorkNext(s, c).m.entries| == |s.m.entries|
    ensures Pos(s.w.pc, |s.m.entries|) < Pos(WorkNext(s, c).w.pc, |s.m.entries|) <= 8 * |s.m.entries| + 7
  {
  }

  // ---------------------------------------------------------------- the exact condition

  /** The worker will reflect entry i once more before it exits. Without the exit flag it may
      always come round again. */
  predicate ReflectsAgain(s: State, i: nat)
  {
    match s.w.pc
    case AtLock => true
    case Reflecting(j) => j <= i || !s.m.exitFlag
    case Sleeping => true
    case Exited => false
    case _ => !s.m.exitFlag
  }

  /** Safe to leave: no child is left, the worker starts no entry in the pass it is in, and
      every wish it will still reflect is to stop. */
  predicate SafeToLeave(s: State)
  {
    && NobodyLeft(s.m.procs)
    && forall i :: 0 <= i < |s.m.entries| ==>
         !Armed(s, i) && (ReflectsAgain(s, i) ==> s.m.entries[i].desired == INTENT_STOP)
  }

  /** No run from s ever has a child that is not gone. */
  ghost predicate StaysEmpty(s: State)
  {
    forall run: seq<State>, steps: seq<Step>, k: nat ::
      IsRun(run, steps) && run[0] == s && k < |run| ==> NobodyLeft(run[k].m.procs)
  }

  lemma WorkKeepsSafe(s: State, c: Choice, i: nat)
    requires Inv(s) && WorkEnabled(s, c) && SafeToLeave(s) && i < |s.m.entries|
    ensures |WorkNext(s, c).m.entries| == |s.m.entries|
    ensures !Armed(WorkNext(s, c), i)
    ensures ReflectsAgain(WorkNext(s, c), i) ==> WorkNext(s, c).m.entries[i].desired == INTENT_STOP
  {
    hide Families, NobodyLeft;
    if s.w.pc.Converging? {
      ConvergeKeepsSafe(s, c, i);
    }
  }

  lemma ConvergeKeepsSafe(s: State, c: Choice, i: nat)
    requires Inv(s) && SafeToLeave(s) && i < |s.m.entries| && s.w.pc.Converging?
    ensures |WorkNext(s, c).m.entries| == |s.m.entries|
    ensures !Armed(WorkNext(s, c), i)
    ensures ReflectsAgain(WorkNext(s, c), i) ==> WorkNext(s, c).m.entries[i].desired == INTENT_STOP
  {
    hide Families, NobodyLeft;
  }

  /** Outside its loop the screen thread at most sets the exit flag, and nobody but the worker
      does more to the entries. */
  lemma OthersOnlyFlag(s: State, step: Step)
    requires HasLeft(s) && Enabled(s, step) && !step.Work?
    ensures
      var s' := Next(s, step);
      && HasLeft(s') && s'.m.entries == s.m.entries && s'.w == s.w && (s.m.exitFlag ==> s'.m.exitFlag)
  {
  }

  lemma SameSafe(s: State, s': State, i: nat)
    requires i < |s.m.entries| && s'.m.entries == s.m.entries && s'.w == s.w && (s.m.exitFlag ==> s'.m.exitFlag)
    ensures Armed(s', i) ==> Armed(s, i)
    ensures ReflectsAgain(s', i) ==> ReflectsAgain(s, i)
  {
  }

  lemma OthersKeepSafe(s: State, step: Step, i: nat)
    requires HasLeft(s) && Enabled(s, step) && !step.Work? && SafeToLeave(s) && i < |s.m.entries|
    ensures HasLeft(Next(s, step)) && |Next(s, step).m.entries| == |s.m.entries|
    ensures !Armed(Next(s, step), i)
    ensures ReflectsAgain(Next(s, step), i) ==> Next(s, step).m.entries[i].desired == INTENT_STOP
  {
    hide Next, Enabled, HasLeft, Armed, ReflectsAgain;
    OthersOnlyFlag(s, step);
    SameSafe(s, Next(s, step), i);
  }

  lemma SafeKept(s: State, step: Step)
    requires Inv(s) && HasLeft(s) && Enabled(s, step) && SafeToLeave(s)
    ensures HasLeft(Next(s, step)) && SafeToLeave(Next(s, step))
  {
    ShapeKept(s, step);
    forall i | 0 <= i < |s.m.entries|
      ensures
        var s' := Next(s, step);
        !Armed(s', i) && (ReflectsAgain(s', i) ==> s'.m.entries[i].desired == INTENT_STOP)
    {
      if step.Work? {
        WorkKeepsSafe(s, step.choice, i);
      } else {
        OthersKeepSafe(s, step, i);
      }
    }
    forall p | p in Next(s, step).m.procs
      ensures Next(s, step).m.procs[p].status == Gone
    {
      ProcsProgress(s, step);
      if p !in s.m.procs {
        NewPidIsSpawn(s, step, p);
      }
    }
  }

  lemma {:induction false} SafeStaysEmpty(s: State, run: seq<State>, steps: seq<Step>, k: nat)
    requires Inv(s) && HasLeft(s) && SafeToLeave(s)
    requires IsRun(run, steps) && run[0] == s && k < |run|
    ensures Inv(run[k]) && HasLeft(run[k]) && SafeToLeave(run[k])
  {
    hide Inv, HasLeft, SafeToLeave, Next, Enabled;
    if k > 0 {
      SafeStaysEmpty(s, run, steps, k - 1);
      InvKept(run[k - 1], steps[k - 1]);
      SafeKept(run[k - 1], steps[k - 1]);
    }
  }

  /** Worker steps that remain until entry i is spawned. */
  function Distance(s: State, i: nat): nat
    requires Shape(s) && i < |s.m.entries|
  {
    var n := |s.m.entries|;
    var pos := Pos(s.w.pc, n);
    var target := 2 * n + 4 + 3 * i;
    if pos <= target && (Armed(s, i) || s.w.pc == AtLock || (s.w.pc.Reflecting? && s.w.pc.i <= i))
    then target - pos
    else target + 8 * n + 8 - pos
  }

  /** Entry i is on its way to being started, now or after a reflect that is still to come. */
  predicate Doomed(s: State, i: nat)
    requires i < |s.m.entries|
  {
    Armed(s, i) || (ReflectsAgain(s, i) && s.m.entries[i].desired == INTENT_START)
  }

  /** One worker step from a doomed, empty state spawns a child or comes closer to it. */
  lemma WorkComesCloser(s: State, c: Choice, i: nat)
    requires Inv(s) && HasLeft(s) && NobodyLeft(s.m.procs) && i < |s.m.entries| && Doomed(s, i)
    requires WorkEnabled(s, c)
    ensures Inv(WorkNext(s, c)) && HasLeft(WorkNext(s, c))
    ensures |WorkNext(s, c).m.entries| == |s.m.entries|
    ensures NobodyLeft(WorkNext(s, c).m.procs) ==>
      Doomed(WorkNext(s, c), i) && Distance(WorkNext(s, c), i) < Distance(s, i)
  {
    hide Families, NobodyLeft, Armed, ReflectsAgain, Flags, Reflects, Records, IntentsKnown;
    InvKept(s, Work(c));
    PosGrows(s, c);
    DoomStays(s, c, i);
    if NobodyLeft(WorkNext(s, c).m.procs) {
      Closer(s, WorkNext(s, c), i);
    }
  }

  /** The target comes closer when the position grows and the pass that starts the entry has
      not been lost. */
  lemma Closer(s: State, s': State, i: nat)
    requires Shape(s) && Shape(s') && i < |s.m.entries| == |s'.m.entries|
    requires s.w.pc != Sleeping ==> Pos(s.w.pc, |s.m.entries|) < Pos(s'.w.pc, |s.m.entries|) <= 8 * |s.m.entries| + 7
    requires s.w.pc == Sleeping ==> s'.w.pc == AtLock
    requires Armed(s, i) ==> Armed(s', i)
    requires s.w.pc == AtLock || (s.w.pc.Reflecting? && s.w.pc.i <= i) ==>
      Armed(s', i) || (s'.w.pc.Reflecting? && s'.w.pc.i <= i)
    ensures Distance(s', i) < Distance(s, i)
  {
  }

  /** As long as nothing is spawned, the doom stays, and it takes its way. */
  lemma DoomStays(s: State, c: Choice, i: nat)
    requires Inv(s) && NobodyLeft(s.m.procs) && i < |s.m.entries| && Doomed(s, i)
    requires WorkEnabled(s, c)
    ensures |WorkNext(s, c).m.entries| == |s.m.entries|
    ensures NobodyLeft(WorkNext(s, c).m.procs) ==>
      Doomed(WorkNext(s, c), i) && (Armed(s, i) ==> Armed(WorkNext(s, c), i))
    ensures s.w.pc == AtLock || (s.w.pc.Reflecting? && s.w.pc.i <= i) ==>
      var s' := WorkNext(s, c);
      Armed(s', i) || (s'.w.pc.Reflecting? && s'.w.pc.i <= i)
  {
    if s.w.pc.Spawning? {
      assert c.pid in WorkNext(s, c).m.procs;
    } else if s.w.pc.Converging? {
      ConvergeKeepsDoom(s, c, i);
    }
  }

  lemma ConvergeKeepsDoom(s: State, c: Choice, i: nat)
    requires Inv(s) && NobodyLeft(s.m.procs) && i < |s.m.entries| && s.w.pc.Converging?
    ensures |WorkNext(s, c).m.entries| == |s.m.entries|
    ensures Armed(s, i) ==> Armed(WorkNext(s, c), i)
    ensures WorkNext(s, c).m.entries[i].desired == s.m.entries[i].desired
  {
  }

  lemma Prepend(s: State, step: Step, rest: seq<State>, more: seq<Step>)
    requires Enabled(s, step) && IsRun(rest, more) && rest[0] == Next(s, step)
    ensures IsRun([s] + rest, [step] + more)
  {
    var run, steps := [s] + rest, [step] + more;
    forall k | 0 <= k < |steps|
      ensures Enabled(run[k], steps[k]) && run[k + 1] == Next(run[k], steps[k])
    {
      if k > 0 {
        assert run[k] == rest[k - 1] && steps[k] == more[k - 1] && run[k + 1] == rest[k];
      }
    }
  }

  lemma {:induction false} LeadsToSpawn(s: State, i: nat) returns (run: seq<State>, steps: seq<Step>)
    requires Inv(s) && HasLeft(s) && i < |s.m.entries| && (NobodyLeft(s.m.procs) ==> Doomed(s, i))
    ensures IsRun(run, steps) && run[0] == s
    ensures !NobodyLeft(run[|run| - 1].m.procs)
    decreases NobodyLeft(s.m.procs), if NobodyLeft(s.m.procs) then Distance(s, i) else 0
  {
    if !NobodyLeft(s.m.procs) {
      run, steps := [s], [];
    } else {
      var pid := FreshPid(s.m.procs);
      var c := Choice(pid, false, 0, false, false);
      assert WorkEnabled(s, c);
      WorkComesCloser(s, c, i);
      var rest, more := LeadsToSpawn(WorkNext(s, c), i);
      Prepend(s, Work(c), rest, more);
      run, steps := [s] + rest, [Work(c)] + more;
    }
  }

  /** Once the screen thread has left its loop, at whatever point of the tear-down it stands,
      no child will ever be left, in any continuation, exactly when the state is safe. */
  lemma LeavingIsSafeExactlyWhen(s: State)
    requires Inv(s) && HasLeft(s)
    ensures StaysEmpty(s) <==> SafeToLeave(s)
  {
    if SafeToLeave(s) {
      forall run: seq<State>, steps: seq<Step>, k: nat | IsRun(run, steps) && run[0] == s && k < |run|
        ensures NobodyLeft(run[k].m.procs)
      {
        SafeStaysEmpty(s, run, steps, k);
      }
    } else {
      var i := 0;
      if NobodyLeft(s.m.procs) {
        i :| 0 <= i < |s.m.entries| &&
          (Armed(s, i) || (ReflectsAgain(s, i) && s.m.entries[i].desired != INTENT_STOP));
        assert StartOrStop(s.m.entries[i].desired);
      }
      var run, steps := LeadsToSpawn(s, i);
      assert IsRun(run, steps) && run[0] == s && !NobodyLeft(run[|run| - 1].m.procs);
    }
  }

  // ---------------------------------------------------------------- the plain claim fails

  /** A step in which no wait for a key takes longer than a second, as halfdelay(10) has it,
      and no time passes elsewhere but a second at once. */
  predicate Brief(step: Step)
  {
    match step
    case Screen(input) => input.waited <= 1
    case Tick(seconds) => seconds <= 1
    case _ => true
  }

  predicate AllBrief(steps: seq<Step>)
  {
    forall k {:trigger steps[k]} :: 0 <= k < |steps| ==> Brief(steps[k])
  }

  /** One more step; what stood at index k of the run still stands there. */
  lemma ExtendKeeping(run: seq<State>, steps: seq<Step>, step: Step, k: nat)
    returns (longer: seq<State>, more: seq<Step>)
    requires IsRun(run, steps) && Enabled(run[|run| - 1], step) && k <= |steps|
    ensures IsRun(longer, more) && longer[0] == run[0]
    ensures longer[|longer| - 1] == Next(run[|run| - 1], step)
    ensures |more| == |steps| + 1 && longer[k] == run[k]
    ensures k < |steps| ==> more[k] == steps[k]
    ensures k == |steps| ==> more[k] == step
    ensures AllBrief(steps) && Brief(step) ==> AllBrief(more)
  {
    longer, more := run + [Next(run[|run| - 1], step)], steps + [step];
  }

  lemma Extend(run: seq<State>, steps: seq<Step>, step: Step) returns (longer: seq<State>, more: seq<Step>)
    requires IsRun(run, steps) && Enabled(run[|run| - 1], step)
    ensures IsRun(longer, more) && longer[0] == run[0]
    ensures longer[|longer| - 1] == Next(run[|run| - 1], step)
    ensures AllBrief(steps) && Brief(step) ==> AllBrief(more)
  {
    longer, more := ExtendKeeping(run, steps, step, 0);
  }

  function OneEntryTable(): State
  {
    var rows := [InitialRow(0)];
    State(Memory([InitialEntry()], map[], 0, Free, false, rows, [rows]),
          WorkerThread(AtLock, rows),
          ScreenThread(Drawing(0), false, false, false, 0, 0, [], NotLeaving))
  }

  const NOTHING: Input := Input(OtherKey, 0)

  const ANY: Choice := Choice(7, false, 0, false, false)

  /** The worker takes the mutex and reflects START. */
  lemma ReflectFirst() returns (run: seq<State>, steps: seq<Step>)
    ensures IsRun(run, steps) && Init(run[0]) && AllBrief(steps)
    ensures run[|run| - 1] == OneEntryTable().(w := OneEntryTable().w.(pc := Reaping(0)))
  {
    run, steps := [OneEntryTable()], [];
    run, steps := Extend(run, steps, Work(ANY));
    run, steps := Extend(run, steps, Work(ANY));
    run, steps := Extend(run, steps, Work(ANY));
  }

  /** A table of one entry, and the screen thread at the head of its loop. */
  predicate AtHead(s: State)
  {
    && |s.m.entries| == 1 && |s.m.shared| == 1 && s.m.lock == Free
    && s.u.pc == Drawing(0) && s.u.frame == [] && !s.u.immediate
  }

  /** The screen thread draws its row and handles a key that is not a wish. */
  lemma DrawAndKey(run: seq<State>, steps: seq<Step>, s: State, input: Input, k: nat)
    returns (longer: seq<State>, more: seq<Step>)
    requires IsRun(run, steps) && s == run[|run| - 1] && AtHead(s) && k <= |steps|
    requires input.key == QuitKey || input.key == OtherKey
    ensures IsRun(longer, more) && longer[0] == run[0] && (AllBrief(steps) && input.waited <= 1 ==> AllBrief(more))
    ensures |steps| < |more| && longer[k] == run[k] && (k < |steps| ==> more[k] == steps[k])
    ensures longer[|longer| - 1] == State(
      s.m.(clock := s.m.clock + input.waited), s.w,
      s.u.(pc := CheckTerm, quit := s.u.quit || input.key == QuitKey, frame := [s.m.shared[0]]))
  {
    longer, more := ExtendKeeping(run, steps, Screen(NOTHING), k);
    longer, more := ExtendKeeping(longer, more, Screen(NOTHING), k);
    longer, more := ExtendKeeping(longer, more, Screen(input), k);
    longer, more := ExtendKeeping(longer, more, Screen(NOTHING), k);
  }

  /** It finds the quit flag and records the quit. */
  lemma RecordQuit(run: seq<State>, steps: seq<Step>, s: State)
    returns (longer: seq<State>, more: seq<Step>)
    requires IsRun(run, steps) && s == run[|run| - 1] && |s.m.entries| == 1 && s.m.lock == Free
    requires s.u.pc == CheckTerm && s.u.quit && !s.u.terminating && !s.u.immediate
    ensures IsRun(longer, more) && longer[0] == run[0] && (AllBrief(steps) ==> AllBrief(more))
    ensures longer[|longer| - 1] == State(
      s.m.(entries := [s.m.entries[0].(desired := INTENT_STOP)]), s.w,
      s.u.(pc := Drawing(0), quit := false, terminating := true, issuedAt := s.m.clock, frame := []))
  {
    longer, more := Extend(run, steps, Screen(NOTHING));
    longer, more := Extend(longer, more, Screen(NOTHING));
    longer, more := Extend(longer, more, Screen(NOTHING));
    longer, more := Extend(longer, more, Screen(NOTHING));
  }

  lemma PressQuit(run: seq<State>, steps: seq<Step>, s: State)
    returns (longer: seq<State>, more: seq<Step>)
    requires IsRun(run, steps) && s == run[|run| - 1] && AtHead(s) && !s.u.terminating && !s.u.quit
    ensures IsRun(longer, more) && longer[0] == run[0] && (AllBrief(steps) ==> AllBrief(more))
    ensures longer[|longer| - 1] == State(
      s.m.(entries := [s.m.entries[0].(desired := INTENT_STOP)]), s.w,
      s.u.(terminating := true, issuedAt := s.m.clock))
  {
    longer, more := DrawAndKey(run, steps, s, Input(QuitKey, 0), 0);
    longer, more := RecordQuit(longer, more, longer[|longer| - 1]);
  }

  /** It counts, finds nobody alive, leaves and sets the exit flag. */
  lemma CountAndLeave(run: seq<State>, steps: seq<Step>, s: State)
    returns (longer: seq<State>, more: seq<Step>)
    requires IsRun(run, steps) && s == run[|run| - 1] && |s.m.entries| == 1 && s.m.lock == Free
    requires s.u.pc == CheckTerm && s.u.terminating && s.m.entries[0].pid == 0
    ensures IsRun(longer, more) && longer[0] == run[0]
    ensures longer[|longer| - 1] == State(
      s.m.(exitFlag := true), s.w, s.u.(pc := Joining, immediate := true, reason := NobodyAlive))
  {
    longer, more := Extend(run, steps, Screen(NOTHING));
    longer, more := Extend(longer, more, Screen(NOTHING));
    longer, more := Extend(longer, more, Screen(NOTHING));
    longer, more := Extend(longer, more, Screen(NOTHING));
    longer, more := Extend(longer, more, Screen(NOTHING));
  }

  /** The worker, which has reflected START, starts the only entry. */
  lemma StartOnly(run: seq<State>, steps: seq<Step>, s: State)
    returns (longer: seq<State>, more: seq<Step>)
    requires IsRun(run, steps) && s == run[|run| - 1] && |s.m.entries| == 1 && s.w.pc == Reaping(0)
    requires s.m.entries[0].intent == INTENT_START && s.m.entries[0].pid == 0 && ANY.pid !in s.m.procs
    ensures IsRun(longer, more) && longer[0] == run[0] && (AllBrief(steps) ==> AllBrief(more))
    ensures
      var e := s.m.entries[0];
      longer[|longer| - 1] == State(
        s.m.(entries := [e.(pid := ANY.pid, lastChange := s.m.clock, sample := Cleared,
                            children := e.children + [ANY.pid])],
             procs := s.m.procs[ANY.pid := Proc(0, Running)]),
        s.w.(pc := Converging(1)), s.u)
  {
    longer, more := Extend(run, steps, Work(ANY));
    longer, more := Extend(longer, more, Work(ANY));
    longer, more := Extend(longer, more, Work(ANY));
    longer, more := Extend(longer, more, Work(ANY));
    longer, more := Extend(longer, more, Work(ANY));
  }

  /** The worker finishes its pass, finds the exit flag, and is joined. */
  lemma FinishPass(run: seq<State>, steps: seq<Step>, s: State)
    returns (longer: seq<State>, more: seq<Step>)
    requires IsRun(run, steps) && s == run[|run| - 1]
    requires |s.m.entries| == 1 && |s.w.local| == 1 && |s.m.shared| == 1 && s.m.lock == Free
    requires s.w.pc == Converging(1) && s.m.exitFlag && s.u.pc == Joining
    ensures IsRun(longer, more) && longer[0] == run[0]
    ensures longer[|longer| - 1].m.procs == s.m.procs && longer[|longer| - 1].u == s.u.(pc := Done)
  {
    longer, more := Extend(run, steps, Work(ANY));
    longer, more := Extend(longer, more, Work(ANY));
    longer, more := Extend(longer, more, Work(ANY));
    longer, more := Publish(longer, more, longer[|longer| - 1]);
    longer, more := Extend(longer, more, Screen(NOTHING));
  }

  lemma Publish(run: seq<State>, steps: seq<Step>, s: State)
    returns (longer: seq<State>, more: seq<Step>)
    requires IsRun(run, steps) && s == run[|run| - 1]
    requires |s.w.local| == 1 && |s.m.shared| == 1 && s.m.lock == Free && s.w.pc == AtPublish && s.m.exitFlag
    ensures IsRun(longer, more) && longer[0] == run[0]
    ensures
      var last := longer[|longer| - 1];
      last.w.pc == Exited && last.m.procs == s.m.procs && last.u == s.u
  {
    longer, more := Extend(run, steps, Work(ANY));
    longer, more := Extend(longer, more, Work(ANY));
    longer, more := Extend(longer, more, Work(ANY));
    longer, more := Extend(longer, more, Work(ANY));
  }

  /** "Nobody is alive after quit" is false: in some run fiveman leaves because nobody is
      alive, joins its status thread, and ends with a child running. */
  lemma AliveAfterQuit()
    ensures exists run: seq<State>, steps: seq<Step> ::
      && IsRun(run, steps) && Init(run[0])
      && var s := run[|run| - 1];
         s.u.pc == Done && s.u.reason == NobodyAlive && s.m.procs == map[7 := Proc(0, Running)]
  {
    var run, steps := ReflectFirst();
    run, steps := PressQuit(run, steps, run[|run| - 1]);
    run, steps := DrawAndKey(run, steps, run[|run| - 1], NOTHING, 0);
    run, steps := CountAndLeave(run, steps, run[|run| - 1]);
    run, steps := StartOnly(run, steps, run[|run| - 1]);
    assert run[|run| - 1].m.procs == map[7 := Proc(0, Running)];
    run, steps := FinishPass(run, steps, run[|run| - 1]);
  }

  // ---------------------------------------------------------------- the join ends

  function CountWork(steps: seq<Step>): nat
  {
    if steps == [] then 0
    else CountWork(steps[..|steps| - 1]) + if steps[|steps| - 1].Work? then 1 else 0
  }

  /** Worker steps left before it exits, once thread_info->exit is set. */
  function ToExit(pc: WorkerPc, n: nat): nat
  {
    if pc == Exited || pc == Crashed then 0
    else if pc == Sleeping then 8 * n + 8
    else if Pos(pc, n) <= 8 * n + 6 then 8 * n + 7 - Pos(pc, n)
    else 0
  }

  lemma ToExitShrinks(s: State, step: Step)
    requires Inv(s) && Enabled(s, step) && s.m.exitFlag
    ensures |Next(s, step).m.entries| == |s.m.entries| && Next(s, step).m.exitFlag
    ensures
      var n := |s.m.entries|;
      ToExit(Next(s, step).w.pc, n) + (if step.Work? then 1 else 0) <= ToExit(s.w.pc, n)
  {
    if step.Work? {
      PosGrows(s, step.choice);
    } else {
      ShapeKept(s, step);
    }
  }

  /** Once the exit flag is set the screen thread never holds the mutex again. */
  lemma NeverBlocked(s: State)
    requires Inv(s) && s.m.exitFlag && s.w.pc != Exited
    ensures exists c :: WorkEnabled(s, c)
  {
    var pid := FreshPid(s.m.procs);
    assert WorkEnabled(s, Choice(pid, false, 0, false, false));
  }

  lemma {:induction false} StepsToExit(run: seq<State>, steps: seq<Step>, k: nat, n: nat)
    requires IsRun(run, steps) && Inv(run[0]) && run[0].m.exitFlag && k <= |steps| && n == |run[0].m.entries|
    ensures Inv(run[k]) && run[k].m.exitFlag && |run[k].m.entries| == n
    ensures CountWork(steps[..k]) + ToExit(run[k].w.pc, n) <= 8 * n + 8
  {
    if k > 0 {
      StepsToExit(run, steps, k - 1, n);
      InvKept(run[k - 1], steps[k - 1]);
      ToExitShrinks(run[k - 1], steps[k - 1]);
      assert steps[..k][..k - 1] == steps[..k - 1];
    }
  }

  /** After the exit flag is set the status thread takes at most one more pass: it makes at
      most 8n + 8 steps in any run and is never blocked before it exits, so pthread_join
      returns. */
  lemma JoinEnds(run: seq<State>, steps: seq<Step>)
    requires IsRun(run, steps) && Inv(run[0]) && run[0].m.exitFlag
    ensures CountWork(steps) <= 8 * |run[0].m.entries| + 8
    ensures
      var s := run[|run| - 1];
      s.w.pc == Exited || exists c :: WorkEnabled(s, c)
  {
    StepsToExit(run, steps, |steps|, |run[0].m.entries|);
    assert steps[..|steps|] == steps;
    if run[|run| - 1].w.pc != Exited {
      NeverBlocked(run[|run| - 1]);
    }
  }
}
