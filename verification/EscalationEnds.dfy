/** The escalation ends. Without further quit requests the screen thread leaves its loop after a
    number of its own steps that depends only on the seconds left at the last key and on how
    many turns pass without any second passing; once the timeout has struck, on neither. */
module EscalationEnds {
  import opened Types
  import opened Supervisor
  import opened SupervisorInvariants

  /** Seconds from `since` until the timeout strikes. */
  function SecondsLeft(u: ScreenThread, since: int): nat
  {
    var age := since - u.issuedAt;
    if age >= TERM_TIMEOUT then 0 else TERM_TIMEOUT - age
  }

  /** Turns of the loop that can still follow the current one, if every later turn sees a
      second pass. `since` is the time of the last key. A turn whose count is already behind
      it has at least one more turn to come. */
  function TurnsLeft(u: ScreenThread, since: int): nat
  {
    if u.immediate then 0
    else match u.pc
      case Handling(_) => SecondsLeft(u, since)
      case CheckTerm => SecondsLeft(u, since)
      case Counting(_, _) => SecondsLeft(u, since)
      case _ => if SecondsLeft(u, since) == 0 then 1 else SecondsLeft(u, since)
  }

  /** Steps left in a turn, which is cut where the key has just arrived. */
  function StepsLeft(pc: ScreenPc, n: nat): nat
  {
    match pc
    case Handling(_) => 3 * n + 8
    case CheckTerm => 3 * n + 7
    case Counting(i, _) => if i <= n then 3 * n + 6 - i else 2 * n + 6
    case Signalling(_, i, _) => if i <= n then 2 * n + 5 - i else n + 5
    case CheckExit => n + 4
    case Drawing(r) => if r <= n then n + 3 - r else 3
    case AwaitKey => 2
    case Left => 2
    case Joining => 1
    case Done => 0
    case Recording(_) => 0
  }

  /** The most steps of one turn, and one more. */
  function PerTurn(n: nat): nat
  {
    3 * n + 9
  }

  function Measure(u: ScreenThread, n: nat, since: int): nat
  {
    TurnsLeft(u, since) * PerTurn(n) + StepsLeft(u.pc, n)
  }

  /** A quit has been recorded and no other is on its way. */
  predicate WaitsToEnd(s: State)
  {
    && s.u.terminating && !s.u.quit
    && !s.u.pc.Recording? && s.u.pc != Handling(QuitKey)
  }

  /** The step requests no quit. */
  predicate NoQuit(s: State, step: Step)
  {
    && step != HandleSigint
    && (step.Screen? && s.u.pc == AwaitKey ==> step.input.key != QuitKey)
  }

  predicate NoQuitAlong(run: seq<State>, steps: seq<Step>)
    requires |run| == |steps| + 1
  {
    forall k {:trigger steps[k]} :: 0 <= k < |steps| ==> NoQuit(run[k], steps[k])
  }

  // ---------------------------------------------------------------- the time of the last key

  predicate KeyArrives(s: State, step: Step)
  {
    step.Screen? && s.u.pc == AwaitKey
  }

  /** The time after the last key among the first k steps, or the time at the start. */
  function Since(run: seq<State>, steps: seq<Step>, k: nat): int
    requires |run| == |steps| + 1 && k <= |steps|
  {
    if k == 0 then run[0].m.clock
    else if KeyArrives(run[k - 1], steps[k - 1]) then run[k].m.clock
    else Since(run, steps, k - 1)
  }

  /** A key arrives at the same second as the one before it, and the timeout is still ahead. */
  predicate Idle(s: State, step: Step, since: int, now: int)
  {
    KeyArrives(s, step) && SecondsLeft(s.u, since) > 0 && now <= since
  }

  /** How many of the first k steps end a turn in which no second has passed. */
  function IdleTurns(run: seq<State>, steps: seq<Step>, k: nat): nat
    requires |run| == |steps| + 1 && k <= |steps|
  {
    if k == 0 then 0
    else
      var idle := Idle(run[k - 1], steps[k - 1], Since(run, steps, k - 1), run[k].m.clock);
      IdleTurns(run, steps, k - 1) + if idle then 1 else 0
  }

  // ---------------------------------------------------------------- one step

  /** Any screen step but the arrival of a key. */
  lemma TurnGoesOn(s: State, input: Input, since: int)
    requires Shape(s) && Flags(s) && ScreenEnabled(s) && WaitsToEnd(s) && s.u.pc != AwaitKey && since <= s.m.clock
    ensures WaitsToEnd(ScreenNext(s, input)) && |ScreenNext(s, input).m.entries| == |s.m.entries|
    ensures ScreenNext(s, input).m.clock == s.m.clock
    ensures
      var u', n := ScreenNext(s, input).u, |s.m.entries|;
      || (TurnsLeft(u', since) <= TurnsLeft(s.u, since) && StepsLeft(u'.pc, n) < StepsLeft(s.u.pc, n))
      || (TurnsLeft(u', since) < TurnsLeft(s.u, since) && StepsLeft(u'.pc, n) <= 3 * n + 8)
  {
    ScreenKeepsShape(s, input);
  }

  /** A key starts a new turn. That costs one of the turns left, unless it is idle. */
  lemma TurnBegins(s: State, input: Input, since: int)
    requires Flags(s) && s.u.pc == AwaitKey && WaitsToEnd(s) && input.key != QuitKey && since <= s.m.clock
    ensures
      var s' := ScreenNext(s, input);
      && WaitsToEnd(s') && |s'.m.entries| == |s.m.entries| && since <= s'.m.clock
      && s'.u.pc.Handling? && !s.u.immediate
      && (Idle(s, Screen(input), since, s'.m.clock) ==> TurnsLeft(s'.u, s'.m.clock) <= TurnsLeft(s.u, since))
      && (!Idle(s, Screen(input), since, s'.m.clock) ==> TurnsLeft(s'.u, s'.m.clock) < TurnsLeft(s.u, since))
  {
  }

  /** Fewer turns, or as many turns and fewer steps, weigh less. */
  lemma Weigh(turns': nat, steps': nat, turns: nat, steps: nat, k: nat)
    requires turns' <= turns
    requires turns' == turns || steps' < k
    ensures turns' < turns ==> turns' * k + steps' + 1 <= turns * k + steps
    ensures turns' * k <= turns * k
  {
    if turns' < turns {
      assert (turns' + 1) * k <= turns * k;
    }
  }

  lemma ScreenShrinks(s: State, input: Input, since: int)
    requires Inv(s) && ScreenEnabled(s) && WaitsToEnd(s) && NoQuit(s, Screen(input)) && since <= s.m.clock
    ensures
      var s', n := ScreenNext(s, input), |s.m.entries|;
      var since' := if KeyArrives(s, Screen(input)) then s'.m.clock else since;
      && WaitsToEnd(s') && |s'.m.entries| == n && since' <= s'.m.clock
      && Measure(s'.u, n, since') + 1 <=
           Measure(s.u, n, since) + if Idle(s, Screen(input), since, s'.m.clock) then PerTurn(n) else 0
  {
    hide Inv, ScreenNext, ScreenEnabled, TurnsLeft, SecondsLeft, Shape, Flags, Idle;
    SplitInv(s);
    var s', n := ScreenNext(s, input), |s.m.entries|;
    var x', x := StepsLeft(s'.u.pc, n), StepsLeft(s.u.pc, n);
    if s.u.pc == AwaitKey {
      TurnBegins(s, input, since);
      var t', t := TurnsLeft(s'.u, s'.m.clock), TurnsLeft(s.u, since);
      Weigh(t', x', t, x, PerTurn(n));
    } else {
      TurnGoesOn(s, input, since);
      var t', t := TurnsLeft(s'.u, since), TurnsLeft(s.u, since);
      Weigh(t', if t' < t then x' else 0, t, x, PerTurn(n));
    }
  }

  lemma SplitInv(s: State)
    requires Inv(s)
    ensures Shape(s) && Flags(s)
  {
  }

  /** Nobody else moves the screen thread, and time does not go backwards. */
  lemma OthersOnlyWait(s: State, step: Step)
    requires Shape(s) && Enabled(s, step) && !step.Screen? && step != HandleSigint
    ensures Next(s, step).u == s.u && s.m.clock <= Next(s, step).m.clock
    ensures |Next(s, step).m.entries| == |s.m.entries|
  {
    ShapeKept(s, step);
  }

  // ---------------------------------------------------------------- runs

  function CountScreen(steps: seq<Step>): nat
  {
    if steps == [] then 0
    else CountScreen(steps[..|steps| - 1]) + if steps[|steps| - 1].Screen? then 1 else 0
  }

  /** The screen thread can take a step unless it is done, waits for the worker to release
      the mutex, or waits for the worker to exit. */
  lemma OnlyWorkerBlocks(s: State)
    requires Inv(s)
    ensures ScreenEnabled(s) || s.u.pc == Done || s.m.lock == ByWorker || (s.u.pc == Joining && s.w.pc != Exited)
  {
  }

  /** Every screen step is paid for: by the measure at the start, or by an idle turn. */
  lemma {:induction false} StepsArePaid(run: seq<State>, steps: seq<Step>, k: nat)
    requires IsRun(run, steps) && Inv(run[0]) && WaitsToEnd(run[0]) && NoQuitAlong(run, steps) && k <= |steps|
    ensures Inv(run[k]) && WaitsToEnd(run[k]) && |run[k].m.entries| == |run[0].m.entries|
    ensures Since(run, steps, k) <= run[k].m.clock
    ensures
      var n := |run[0].m.entries|;
      CountScreen(steps[..k]) + Measure(run[k].u, n, Since(run, steps, k)) <=
        Measure(run[0].u, n, run[0].m.clock) + PerTurn(n) * IdleTurns(run, steps, k)
  {
    hide Inv, ScreenNext, ScreenEnabled, Measure, Idle, WaitsToEnd, WorkNext;
    if k > 0 {
      StepsArePaid(run, steps, k - 1);
      var s, step, since := run[k - 1], steps[k - 1], Since(run, steps, k - 1);
      InvKept(s, step);
      assert steps[..k][..k - 1] == steps[..k - 1];
      if step.Screen? {
        ScreenShrinks(s, step.input, since);
      } else {
        SplitInv(s);
        OthersOnlyWait(s, step);
        SameWait(s, run[k]);
      }
      Distribute(PerTurn(|run[0].m.entries|), IdleTurns(run, steps, k - 1));
    }
  }

  lemma SameWait(s: State, s': State)
    requires WaitsToEnd(s) && s'.u == s.u
    ensures WaitsToEnd(s')
  {
  }

  lemma Distribute(a: nat, b: nat)
    ensures a * (b + 1) == a * b + a
  {
  }

  /** Once a quit is recorded and if quit requests stop: the screen thread takes at most
      Measure steps, and one turn's more for each turn in which no second passes, until it is
      Done. This holds whatever the worker, the children and the clock do and however fast the
      keys come, and only the worker ever blocks it. */
  lemma EscalationTerminates(run: seq<State>, steps: seq<Step>)
    requires IsRun(run, steps) && Inv(run[0]) && WaitsToEnd(run[0]) && NoQuitAlong(run, steps)
    ensures
      var n := |run[0].m.entries|;
      CountScreen(steps) <= Measure(run[0].u, n, run[0].m.clock) + PerTurn(n) * IdleTurns(run, steps, |steps|)
    ensures
      var s := run[|run| - 1];
      ScreenEnabled(s) || s.u.pc == Done || s.m.lock == ByWorker || (s.u.pc == Joining && s.w.pc != Exited)
  {
    StepsArePaid(run, steps, |steps|);
    assert steps[..|steps|] == steps;
    OnlyWorkerBlocks(run[|run| - 1]);
  }

  /** The two threads never block each other: until the screen thread is done, one of them can
      step. */
  lemma NeverDeadlocked(s: State)
    requires Inv(s) && s.u.pc != Done
    ensures ScreenEnabled(s) || exists c :: WorkEnabled(s, c)
  {
    OnlyWorkerBlocks(s);
    var pid := FreshPid(s.m.procs);
    var c := Choice(pid, false, 0, false, false);
    assert s.m.lock == ByWorker || s.u.pc == Joining ==> WorkEnabled(s, c) || ScreenEnabled(s);
  }

  /** After the timeout the keys do not matter at all: at most 6n + 17 steps are left. */
  lemma LateEscalationTerminates(run: seq<State>, steps: seq<Step>)
    requires IsRun(run, steps) && Inv(run[0]) && WaitsToEnd(run[0]) && NoQuitAlong(run, steps)
    requires run[0].m.clock >= run[0].u.issuedAt + TERM_TIMEOUT
    ensures CountScreen(steps) <= 6 * |run[0].m.entries| + 17
  {
    hide Inv, WaitsToEnd, NoQuitAlong, IdleTurns, CountScreen, Since, Enabled, Next;
    var n := |run[0].m.entries|;
    EscalationTerminates(run, steps);
    NeverIdleWhenLate(run, steps, |steps|);
    assert TurnsLeft(run[0].u, run[0].m.clock) <= 1;
    assert TurnsLeft(run[0].u, run[0].m.clock) * PerTurn(n) <= PerTurn(n);
  }

  lemma {:induction false} NeverIdleWhenLate(run: seq<State>, steps: seq<Step>, k: nat)
    requires IsRun(run, steps) && Inv(run[0]) && WaitsToEnd(run[0]) && NoQuitAlong(run, steps) && k <= |steps|
    requires run[0].m.clock >= run[0].u.issuedAt + TERM_TIMEOUT
    ensures IdleTurns(run, steps, k) == 0
    ensures run[k].u.issuedAt == run[0].u.issuedAt && Since(run, steps, k) >= run[0].m.clock
  {
    hide Inv, WaitsToEnd, NoQuitAlong, Measure, Enabled, Next;
    if k > 0 {
      NeverIdleWhenLate(run, steps, k - 1);
      StepsArePaid(run, steps, k - 1);
      StepsArePaid(run, steps, k);
      IssueStays(run[k - 1], steps[k - 1]);
    }
  }

  lemma IssueStays(s: State, step: Step)
    requires Enabled(s, step) && WaitsToEnd(s)
    ensures Next(s, step).u.issuedAt == s.u.issuedAt && s.m.clock <= Next(s, step).m.clock
  {
  }

  /** A quit that has just been recorded leaves at most 100 further turns of 3n + 9 steps. */
  lemma MeasureAfterQuit(s: State, step: Step)
    requires Inv(s) && Enabled(s, step) && FinishesRecording(s, step)
    ensures WaitsToEnd(Next(s, step))
    ensures
      var s', n := Next(s, step), |s.m.entries|;
      Measure(s'.u, n, s'.m.clock) <= 100 * PerTurn(n) + n + 3
  {
    var s', n := Next(s, step), |s.m.entries|;
    assert TurnsLeft(s'.u, s'.m.clock) <= 100;
    assert TurnsLeft(s'.u, s'.m.clock) * PerTurn(n) <= 100 * PerTurn(n);
  }
}
