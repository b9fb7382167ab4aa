/** The two accounts of the status thread's pass agree: the step system, when only the worker
    steps, takes the table exactly where the loops over the linked list take it. */
module PassRefinement {
  import opened Types
  import opened Supervisor
  import opened SupervisorInvariants
  import opened ProcessTable
  import T = Table

  function FieldsOf(e: Entry): Fields
  {
    Fields(e.intent, e.desired, e.pid, e.lastChange, e.sample)
  }

  function ValuesOf(entries: seq<Entry>): (values: seq<Fields>)
    ensures |values| == |entries|
  {
    seq(|entries|, k requires 0 <= k < |entries| => FieldsOf(entries[k]))
  }

  /** The part of the turn that reflects, reaps and converges. */
  predicate InPass(pc: WorkerPc)
  {
    pc == AtLock || pc.Reflecting? || pc.Reaping? || pc.Converging? || pc.Spawning? || pc.Adopting? || pc.Stopping?
  }

  /** From row i on, the entries are still as they were reflected. */
  predicate Untouched(mid: seq<Fields>, values: seq<Fields>, i: nat)
  {
    |values| == |mid| && forall k :: i <= k < |mid| ==> values[k] == mid[k]
  }

  /** How far the pass that began with `before` and `procs` has come. */
  predicate PassAt(before: seq<Fields>, procs: ProcTable, clock: int, m: Memory, pc: WorkerPc)
  {
    var mid, values := T.Reflected(before), ValuesOf(m.entries);
    var reaped := T.ReapedAll(procs, mid);
    && |values| == |before| && m.clock == clock
    && match pc
       case AtLock => values == before && m.procs == procs
       case Reflecting(i) =>
         && i <= |before| && m.procs == procs
         && forall k :: 0 <= k < |before| ==> values[k] == if k < i then mid[k] else before[k]
       case Reaping(i) => i <= |before| && values == mid && m.procs == T.ReapedAll(procs, mid[..i])
       case Converging(i) => T.ConvergesUpTo(mid, values, reaped, m.procs, clock, i) && Untouched(mid, values, i)
       case Spawning(i) =>
         && i < |before| && T.ConvergesUpTo(mid, values, reaped, m.procs, clock, i) && Untouched(mid, values, i + 1)
         && values[i] == mid[i].(sample := Cleared)
         && Decide(mid[i].intent, IsAlive(m.procs, mid[i].pid)) == Launch
       case Adopting(i, child) =>
         var others := m.procs - {child};
         && i < |before| && T.ConvergesUpTo(mid, values, reaped, others, clock, i) && Untouched(mid, values, i + 1)
         && values[i] == mid[i].(sample := Cleared)
         && Decide(mid[i].intent, IsAlive(others, mid[i].pid)) == Launch
         && child > 0 && child in m.procs && m.procs[child].status == Running
       case Stopping(i) =>
         && i < |before| && T.ConvergesUpTo(mid, values, reaped, m.procs, clock, i) && Untouched(mid, values, i)
         && Decide(mid[i].intent, IsAlive(m.procs, mid[i].pid)) == Terminate
       case _ => T.PassOf(before, values, procs, m.procs, clock)
  }

  lemma ReapedKnown(before: seq<Fields>, procs: ProcTable)
    requires T.PidsKnown(before, procs)
    ensures T.PidsKnown(T.Reflected(before), T.ReapedAll(procs, T.Reflected(before)))
  {
    var mid := T.Reflected(before);
    T.ReapedAllIs(procs, mid);
    assert forall k :: 0 <= k < |mid| ==> mid[k].pid == before[k].pid;
    assert T.ReapedAll(procs, mid).Keys == procs.Keys;
  }

  lemma ReapingStep(before: seq<Fields>, procs: ProcTable, i: nat)
    requires i < |before|
    ensures T.ReapedAll(procs, T.Reflected(before)[..i + 1]) ==
      Reaped(T.ReapedAll(procs, T.Reflected(before)[..i]), T.Reflected(before)[i].pid)
  {
    var mid := T.Reflected(before);
    assert mid[..i + 1][..i] == mid[..i];
  }

  lemma WholePrefix<A>(s: seq<A>)
    ensures s[..|s|] == s
  {
  }

  predicate StepFits(before: seq<Fields>, procs: ProcTable, clock: int, s: State, c: Choice)
  {
    && PassAt(before, procs, clock, s.m, s.w.pc) && InPass(s.w.pc) && T.PidsKnown(before, procs)
    && WorkEnabled(s, c) && WorkNext(s, c).w.pc != Crashed
  }

  predicate StepKept(before: seq<Fields>, procs: ProcTable, clock: int, s: State)
  {
    PassAt(before, procs, clock, s.m, s.w.pc) && (InPass(s.w.pc) || s.w.pc == Sampling(0))
  }

  lemma ReflectKept(before: seq<Fields>, procs: ProcTable, clock: int, s: State, c: Choice)
    requires StepFits(before, procs, clock, s, c) && (s.w.pc == AtLock || s.w.pc.Reflecting?)
    ensures StepKept(before, procs, clock, WorkNext(s, c))
  {
    hide T.ConvergesUpTo, T.ReapedAll;
    if s.w.pc == Reflecting(|before|) {
      assert T.Reflected(before)[..0] == [];
      NothingReaped(procs);
    }
  }

  lemma NothingReaped(procs: ProcTable)
    ensures T.ReapedAll(procs, []) == procs
  {
  }

  lemma ReapKept(before: seq<Fields>, procs: ProcTable, clock: int, s: State, c: Choice)
    requires StepFits(before, procs, clock, s, c) && s.w.pc.Reaping?
    ensures StepKept(before, procs, clock, WorkNext(s, c))
  {
    hide T.ReapedAll;
    var mid, i := T.Reflected(before), s.w.pc.i;
    if i < |before| {
      ReapingStep(before, procs, i);
      assert ValuesOf(s.m.entries)[i] == mid[i];
    } else {
      WholePrefix(mid);
    }
  }

  /** What has converged stays so while a later row changes. */
  lemma SamePrefix(mid: seq<Fields>, values: seq<Fields>, values': seq<Fields>,
                   reaped: ProcTable, procs: ProcTable, clock: int, i: nat)
    requires T.ConvergesUpTo(mid, values, reaped, procs, clock, i)
    requires |values'| == |values| && forall k :: 0 <= k < i ==> values'[k] == values[k]
    ensures T.ConvergesUpTo(mid, values', reaped, procs, clock, i)
  {
    forall p | p in procs && p !in reaped
      ensures exists k :: 0 <= k < i && values'[k].pid == p
    {
      var k :| 0 <= k < i && values[k].pid == p;
      assert values'[k].pid == p;
    }
  }

  /** One more row converges without a spawn. */
  lemma NextRow(mid: seq<Fields>, values: seq<Fields>, reaped: ProcTable, procs: ProcTable, clock: int, i: nat)
    requires T.ConvergesUpTo(mid, values, reaped, procs, clock, i) && i < |mid|
    requires ConvergesTo(mid[i].intent, mid[i], values[i], reaped, procs, clock)
    ensures T.ConvergesUpTo(mid, values, reaped, procs, clock, i + 1)
  {
  }

  lemma SameAlive(mid: seq<Fields>, values: seq<Fields>, reaped: ProcTable, procs: ProcTable, clock: int, i: nat)
    requires T.ConvergesUpTo(mid, values, reaped, procs, clock, i) && i < |mid| && T.PidsKnown(mid, reaped)
    ensures IsAlive(procs, mid[i].pid) == IsAlive(reaped, mid[i].pid)
  {
  }

  lemma ConvergeKept(before: seq<Fields>, procs: ProcTable, clock: int, s: State, c: Choice)
    requires StepFits(before, procs, clock, s, c) && s.w.pc.Converging?
    ensures StepKept(before, procs, clock, WorkNext(s, c))
  {
    hide T.ReapedAll, T.ConvergesUpTo, T.PidsKnown;
    ReapedKnown(before, procs);
    var i, mid := s.w.pc.i, T.Reflected(before);
    var reaped := T.ReapedAll(procs, mid);
    if i < |before| {
      var values := ValuesOf(WorkNext(s, c).m.entries);
      SamePrefix(mid, ValuesOf(s.m.entries), values, reaped, s.m.procs, clock, i);
      SameAlive(mid, values, reaped, s.m.procs, clock, i);
      assert ValuesOf(s.m.entries)[i] == mid[i];
      var action := Decide(mid[i].intent, IsAlive(reaped, mid[i].pid));
      if action == Leave || action == SendData {
        NextRow(mid, values, reaped, s.m.procs, clock, i);
      }
    } else {
      UpToIsBounded(mid, ValuesOf(s.m.entries), reaped, s.m.procs, clock, i);
    }
  }

  lemma UpToIsBounded(mid: seq<Fields>, values: seq<Fields>, reaped: ProcTable, procs: ProcTable, clock: int, i: nat)
    requires T.ConvergesUpTo(mid, values, reaped, procs, clock, i)
    ensures i <= |mid|
  {
  }

  lemma SpawnKept(before: seq<Fields>, procs: ProcTable, clock: int, s: State, c: Choice)
    requires StepFits(before, procs, clock, s, c) && s.w.pc.Spawning?
    ensures StepKept(before, procs, clock, WorkNext(s, c))
  {
    hide T.ReapedAll, T.ConvergesUpTo;
    assert WorkNext(s, c).m.procs - {c.pid} == s.m.procs;
    assert ValuesOf(WorkNext(s, c).m.entries) == ValuesOf(s.m.entries);
  }

  lemma AdoptKept(before: seq<Fields>, procs: ProcTable, clock: int, s: State, c: Choice)
    requires StepFits(before, procs, clock, s, c) && s.w.pc.Adopting?
    ensures StepKept(before, procs, clock, WorkNext(s, c))
  {
    hide T.ReapedAll;
    ReapedKnown(before, procs);
  }

  lemma StopKept(before: seq<Fields>, procs: ProcTable, clock: int, s: State, c: Choice)
    requires StepFits(before, procs, clock, s, c) && s.w.pc.Stopping?
    ensures StepKept(before, procs, clock, WorkNext(s, c))
  {
    hide T.ReapedAll;
    ReapedKnown(before, procs);
  }

  lemma StepKeepsPass(before: seq<Fields>, procs: ProcTable, clock: int, s: State, c: Choice)
    requires StepFits(before, procs, clock, s, c)
    ensures StepKept(before, procs, clock, WorkNext(s, c))
  {
    hide PassAt, WorkNext;
    match s.w.pc
    case AtLock => ReflectKept(before, procs, clock, s, c);
    case Reflecting(_) => ReflectKept(before, procs, clock, s, c);
    case Reaping(_) => ReapKept(before, procs, clock, s, c);
    case Converging(_) => ConvergeKept(before, procs, clock, s, c);
    case Spawning(_) => SpawnKept(before, procs, clock, s, c);
    case Adopting(_, _) => AdoptKept(before, procs, clock, s, c);
    case Stopping(_) => StopKept(before, procs, clock, s, c);
  }

  /** In a run that makes only worker steps, from the head of the worker's loop up to the
      first sampling. */
  predicate IsPass(run: seq<State>, steps: seq<Step>)
  {
    && IsRun(run, steps) && Inv(run[0]) && run[0].w.pc == AtLock
    && (forall k {:trigger steps[k]} :: 0 <= k < |steps| ==> steps[k].Work? && InPass(run[k].w.pc))
  }

  lemma {:induction false} PassAlongRun(run: seq<State>, steps: seq<Step>, k: nat)
    requires IsPass(run, steps) && k < |run|
    ensures StepKept(ValuesOf(run[0].m.entries), run[0].m.procs, run[0].m.clock, run[k]) && Inv(run[k])
  {
    hide PassAt, Inv, WorkNext;
    var before := ValuesOf(run[0].m.entries);
    if k == 0 {
      PassBegins(run[0]);
    } else {
      PassAlongRun(run, steps, k - 1);
      var step := steps[k - 1];
      InvKept(run[k - 1], step);
      KnownAndRunning(run[0]);
      KnownAndRunning(run[k]);
      StepKeepsPass(before, run[0].m.procs, run[0].m.clock, run[k - 1], step.choice);
    }
  }

  lemma PassBegins(s: State)
    requires s.w.pc == AtLock
    ensures PassAt(ValuesOf(s.m.entries), s.m.procs, s.m.clock, s.m, s.w.pc)
  {
  }

  lemma KnownAndRunning(s: State)
    requires Inv(s)
    ensures T.PidsKnown(ValuesOf(s.m.entries), s.m.procs) || s.w.pc != AtLock
    ensures s.w.pc != Crashed
  {
    var values := ValuesOf(s.m.entries);
    if s.w.pc == AtLock {
      forall k | 0 <= k < |values| && values[k].pid > 0
        ensures values[k].pid in s.m.procs
      {
        assert Family(s.m.entries[k], k, s.m.procs, s.w.pc);
        assert LastOf(s.m.entries[k].children) in s.m.entries[k].children;
      }
    }
  }

  // ---------------------------------------------------------------- what the pass sends

  /** The SIGTERM of a worker step: it leaves Stopping(i) by sending one to entry i's pid. */
  function OrderAt(s: State, step: Step): seq<(nat, Signal)>
  {
    if step.Work? && s.w.pc.Stopping? && s.w.pc.i < |s.m.entries| then [(s.m.entries[s.w.pc.i].pid, SigTerm)] else []
  }

  /** The SIGTERMs of the first k steps. */
  function WorkerOrders(run: seq<State>, steps: seq<Step>, k: nat): seq<(nat, Signal)>
    requires |run| == |steps| + 1 && k <= |steps|
  {
    if k == 0 then [] else WorkerOrders(run, steps, k - 1) + OrderAt(run[k - 1], steps[k - 1])
  }

  /** How many rows the worker is done with. */
  function RowsDone(pc: WorkerPc, n: nat): nat
  {
    match pc
    case AtLock => 0
    case Reflecting(_) => 0
    case Reaping(_) => 0
    case Converging(i) => i
    case Spawning(i) => i
    case Adopting(i, _) => i
    case Stopping(i) => i
    case _ => n
  }

  predicate OrdersAt(before: seq<Fields>, procs: ProcTable, pc: WorkerPc, orders: seq<(nat, Signal)>, data: Signal)
  {
    var mid := T.Reflected(before);
    && RowsDone(pc, |before|) <= |before|
    && orders == T.Orders(mid[..RowsDone(pc, |before|)], T.ReapedAll(procs, mid), data)
  }

  predicate WishesKnown(before: seq<Fields>)
  {
    forall k :: 0 <= k < |before| ==> StartOrStop(before[k].desired)
  }

  /** The order of row i is decided by what it was reflected and reaped to. */
  lemma RowOrder(before: seq<Fields>, procs: ProcTable, clock: int, s: State, c: Choice, data: Signal)
    requires StepFits(before, procs, clock, s, c) && WishesKnown(before)
    requires s.w.pc.Converging? || s.w.pc.Adopting? || s.w.pc.Stopping?
    requires s.w.pc.i < |before| && WorkNext(s, c).w.pc == Converging(s.w.pc.i + 1)
    ensures
      var mid := T.Reflected(before);
      OrderAt(s, Work(c)) == OrderOf(mid[s.w.pc.i], T.ReapedAll(procs, mid), data)
  {
    hide T.ReapedAll, T.ConvergesUpTo;
    ReapedKnown(before, procs);
    var i, mid := s.w.pc.i, T.Reflected(before);
    var others := if s.w.pc.Adopting? then s.m.procs - {s.w.pc.child} else s.m.procs;
    SameAlive(mid, ValuesOf(s.m.entries), T.ReapedAll(procs, mid), others, clock, i);
    assert ValuesOf(s.m.entries)[i] == FieldsOf(s.m.entries[i]);
  }

  lemma OrderKept(before: seq<Fields>, procs: ProcTable, clock: int, s: State, c: Choice,
                  orders: seq<(nat, Signal)>, data: Signal)
    requires StepFits(before, procs, clock, s, c) && WishesKnown(before)
    requires OrdersAt(before, procs, s.w.pc, orders, data)
    ensures OrdersAt(before, procs, WorkNext(s, c).w.pc, orders + OrderAt(s, Work(c)), data)
  {
    hide T.ReapedAll, T.ConvergesUpTo, T.Orders, OrderOf, Converged;
    var mid, pc, pc' := T.Reflected(before), s.w.pc, WorkNext(s, c).w.pc;
    var reaped := T.ReapedAll(procs, mid);
    ReapedKnown(before, procs);
    PcMoves(before, procs, clock, s, c);
    if (pc.Converging? || pc.Adopting? || pc.Stopping?) && pc.i < |before| && pc' == Converging(pc.i + 1) {
      RowOrder(before, procs, clock, s, c, data);
      T.OneMoreOrder(mid, reaped, reaped, data, pc.i);
    } else {
      assert orders + [] == orders;
    }
  }

  /** Where a step of the pass leads. */
  lemma PcMoves(before: seq<Fields>, procs: ProcTable, clock: int, s: State, c: Choice)
    requires StepFits(before, procs, clock, s, c)
    ensures
      var pc, pc', n := s.w.pc, WorkNext(s, c).w.pc, |before|;
      && RowsDone(pc, n) <= n
      && (|| (RowsDone(pc', n) == RowsDone(pc, n) && OrderAt(s, Work(c)) == [])
          || ((pc.Converging? || pc.Adopting? || pc.Stopping?) && pc.i < n && pc' == Converging(pc.i + 1)))
  {
    hide T.ReapedAll;
  }

  lemma {:induction false} OrdersAlongRun(run: seq<State>, steps: seq<Step>, k: nat, data: Signal)
    requires IsPass(run, steps) && k < |run|
    ensures OrdersAt(ValuesOf(run[0].m.entries), run[0].m.procs, run[k].w.pc, WorkerOrders(run, steps, k), data)
  {
    hide PassAt, Inv, WorkNext, OrdersAt, WishesKnown;
    var before := ValuesOf(run[0].m.entries);
    KnownWishes(run[0]);
    if k == 0 {
      OrdersBegin(before, run[0].m.procs, run[0].w.pc, data);
    } else {
      OrdersAlongRun(run, steps, k - 1, data);
      PassAlongRun(run, steps, k - 1);
      PassAlongRun(run, steps, k);
      KnownAndRunning(run[0]);
      KnownAndRunning(run[k]);
      OrderKept(before, run[0].m.procs, run[0].m.clock, run[k - 1], steps[k - 1].choice,
                WorkerOrders(run, steps, k - 1), data);
    }
  }

  lemma OrdersBegin(before: seq<Fields>, procs: ProcTable, pc: WorkerPc, data: Signal)
    requires pc == AtLock
    ensures OrdersAt(before, procs, pc, [], data)
  {
    assert T.Reflected(before)[..0] == [];
    T.NoOrders(T.ReapedAll(procs, T.Reflected(before)), data);
  }

  lemma KnownWishes(s: State)
    requires Inv(s)
    ensures WishesKnown(ValuesOf(s.m.entries))
  {
  }

  // ---------------------------------------------------------------- main result

  /** The worker alone: between taking the mutex and the first sampling, its steps do to the
      table and the processes what Table.Pass, the loops over the linked list, does, and send
      the same SIGTERMs in the same order. */
  lemma WorkerStepsMakeAPass(run: seq<State>, steps: seq<Step>, data: Signal)
    requires IsPass(run, steps) && run[|steps|].w.pc == Sampling(0)
    ensures
      var before, after := ValuesOf(run[0].m.entries), ValuesOf(run[|steps|].m.entries);
      && T.PassOf(before, after, run[0].m.procs, run[|steps|].m.procs, run[0].m.clock)
      && WorkerOrders(run, steps, |steps|) == T.PassOrders(before, run[0].m.procs, data)
  {
    PassAlongRun(run, steps, |steps|);
    OrdersAlongRun(run, steps, |steps|, data);
    WholePrefix(T.Reflected(ValuesOf(run[0].m.entries)));
  }
}
