/** The loops over the linked table (fiveman_process_state_table.c) and the status thread's
    pass made of them; then what such a pass achieves, and that a second one changes nothing. */
module Table {
  import opened Types
  import opened Instructions
  import opened ProcessTable

  /** `nodes` is the table that starts at `head`, in order; no node occurs twice, since each
      knows its place, and the last link is null, so there is no cycle. */
  ghost predicate IsTable(head: ProcessState?, nodes: seq<ProcessState>)
    reads nodes`next, nodes`place
  {
    && head == (if nodes == [] then null else nodes[0])
    && (forall k :: 0 <= k < |nodes| ==> nodes[k].place == k)
    && (forall k {:trigger nodes[k].next} :: 0 <= k < |nodes| ==>
          nodes[k].next == (if k + 1 < |nodes| then nodes[k + 1] else null))
  }

  ghost function Values(nodes: seq<ProcessState>): (values: seq<Fields>)
    reads nodes
    ensures |values| == |nodes|
  {
    seq(|nodes|, k reads nodes requires 0 <= k < |nodes| => nodes[k].Get())
  }

  /** A state as fiveman_process_state_allocate leaves it: intent NONE, and the wish START. */
  ghost predicate AllocatedFor(node: ProcessState, instr: Instruction, port: int)
    reads node`intent, node`desired, node`pid, node`lastChange, node`sample
  {
    && node.instruction == instr && node.port == port
    && node.Get() == Fields(INTENT_NONE, INTENT_START, 0, 0, Cleared)
  }

  lemma JustAllocated(node: ProcessState, instr: Instruction, port: int)
    requires node.instruction == instr && node.port == port
    requires node.Get() == Fields(INTENT_NONE, INTENT_START, 0, 0, Cleared)
    ensures AllocatedFor(node, instr, port)
  {
  }

  /** Links a new state behind `prev`, the last one; the first state becomes the head. */
  method Append(head: ProcessState?, prev: ProcessState?, cur: ProcessState, ghost nodes: seq<ProcessState>)
    returns (newHead: ProcessState?)
    requires IsTable(head, nodes) && prev == (if nodes == [] then null else nodes[|nodes| - 1])
    requires cur.next == null && cur !in nodes
    modifies nodes`next, cur`place
    ensures IsTable(newHead, nodes + [cur])
  {
    newHead := if head == null then cur else head;
    if prev != null {
      prev.next := cur;
    }
    cur.place := |nodes|;
  }

  /** fiveman_process_state_table_allocate. */
  method Allocate(instr: Instruction?, startingPort: int, ghost instrs: seq<Instruction>)
    returns (head: ProcessState?, ghost nodes: seq<ProcessState>)
    requires IsList(instr, instrs)
    ensures IsTable(head, nodes) && fresh(nodes) && |nodes| == |instrs|
    ensures forall k :: 0 <= k < |nodes| ==> AllocatedFor(nodes[k], instrs[k], startingPort + k)
  {
    hide AllocatedFor;
    head := null;
    nodes := [];
    var prev: ProcessState? := null;
    var cur, port := instr, startingPort;
    while cur != null
      invariant |nodes| <= |instrs| && port == startingPort + |nodes|
      invariant cur == (if |nodes| < |instrs| then instrs[|nodes|] else null)
      invariant prev == (if nodes == [] then null else nodes[|nodes| - 1])
      invariant IsList(instr, instrs) && IsTable(head, nodes) && fresh(nodes)
      invariant forall k :: 0 <= k < |nodes| ==> AllocatedFor(nodes[k], instrs[k], startingPort + k)
      decreases |instrs| - |nodes|
    {
      var following := cur.next;
      var state := new ProcessState(cur, port);
      JustAllocated(state, cur, port);
      head := Append(head, prev, state, nodes);
      nodes := nodes + [state];
      prev := state;
      cur := following;
      port := port + 1;
    }
  }

  /** fiveman_process_state_table_initialize. */
  method Initialize(head: ProcessState?, ghost nodes: seq<ProcessState>)
    requires IsTable(head, nodes)
    modifies nodes`intent, nodes`sample, nodes`stdoutPath, nodes`stderrPath
    ensures IsTable(head, nodes)
    ensures forall k :: 0 <= k < |nodes| ==>
      && nodes[k].Get() == old(nodes[k].Get()).(intent := INTENT_START, sample := Cleared)
      && IsLogPath(nodes[k].stdoutPath, NameOf(nodes[k].instruction.name), "stdout")
      && IsLogPath(nodes[k].stderrPath, NameOf(nodes[k].instruction.name), "stderr")
  {
    hide IsLogPath;
    var cur := head;
    ghost var i := 0;
    while cur != null
      invariant i <= |nodes| && cur == (if i < |nodes| then nodes[i] else null) && IsTable(head, nodes)
      invariant forall k :: 0 <= k < i ==>
        && nodes[k].Get() == old(nodes[k].Get()).(intent := INTENT_START, sample := Cleared)
        && IsLogPath(nodes[k].stdoutPath, NameOf(nodes[k].instruction.name), "stdout")
        && IsLogPath(nodes[k].stderrPath, NameOf(nodes[k].instruction.name), "stderr")
      invariant forall k :: i <= k < |nodes| ==> nodes[k].Get() == old(nodes[k].Get())
      decreases |nodes| - i
    {
      cur.Initialize();
      cur := cur.next;
      i := i + 1;
    }
  }

  /** fiveman_process_state_table_reflect_desired_intent. */
  method ReflectDesiredIntent(head: ProcessState?, ghost nodes: seq<ProcessState>)
    requires IsTable(head, nodes)
    modifies nodes`intent
    ensures IsTable(head, nodes)
    ensures Values(nodes) == Reflected(old(Values(nodes)))
  {
    var cur := head;
    ghost var i := 0;
    while cur != null
      invariant i <= |nodes| && cur == (if i < |nodes| then nodes[i] else null) && IsTable(head, nodes)
      invariant forall k :: 0 <= k < i ==> nodes[k].Get() == old(nodes[k].Get()).(intent := old(nodes[k].desired))
      invariant forall k :: i <= k < |nodes| ==> nodes[k].Get() == old(nodes[k].Get())
      decreases |nodes| - i
    {
      cur.ReflectDesiredIntent();
      cur := cur.next;
      i := i + 1;
    }
  }

  /** fiveman_process_state_table_desires_intent. */
  method DesiresIntent(head: ProcessState?, wish: int, ghost nodes: seq<ProcessState>)
    requires IsTable(head, nodes)
    modifies nodes`desired
    ensures IsTable(head, nodes)
    ensures forall k :: 0 <= k < |nodes| ==> nodes[k].Get() == old(nodes[k].Get()).(desired := wish)
  {
    var cur := head;
    ghost var i := 0;
    while cur != null
      invariant i <= |nodes| && cur == (if i < |nodes| then nodes[i] else null) && IsTable(head, nodes)
      invariant forall k :: 0 <= k < i ==> nodes[k].Get() == old(nodes[k].Get()).(desired := wish)
      invariant forall k :: i <= k < |nodes| ==> nodes[k].Get() == old(nodes[k].Get())
      decreases |nodes| - i
    {
      cur.DesiresIntent(wish);
      cur := cur.next;
      i := i + 1;
    }
  }

  /** fiveman_process_state_table_signal: one killpg per entry that was ever started. */
  method Signal(head: ProcessState?, os: Os, sig: Types.Signal, ghost nodes: seq<ProcessState>)
    requires IsTable(head, nodes)
    modifies os`sent
    ensures os.sent == old(os.sent) + Signals(Values(nodes), sig)
  {
    var cur := head;
    ghost var i, values := 0, Values(nodes);
    while cur != null
      invariant i <= |nodes| && cur == (if i < |nodes| then nodes[i] else null) && IsTable(head, nodes)
      invariant os.sent == old(os.sent) + Signals(values[..i], sig)
      decreases |nodes| - i
    {
      cur.Signal(os, sig);
      assert values[..i + 1][..i] == values[..i] && values[i].pid == cur.pid;
      cur := cur.next;
      i := i + 1;
    }
    assert values[..i] == values;
  }

  /** fiveman_process_state_table_num_alive. */
  method NumAlive(head: ProcessState?, os: Os, ghost nodes: seq<ProcessState>) returns (n: nat)
    requires IsTable(head, nodes)
    ensures n == CountAlive(Values(nodes), os.procs)
    ensures n == 0 <==> forall k :: 0 <= k < |nodes| ==> !IsAlive(os.procs, nodes[k].pid)
  {
    var cur := head;
    ghost var i, values := 0, Values(nodes);
    n := 0;
    while cur != null
      invariant i <= |nodes| && cur == (if i < |nodes| then nodes[i] else null)
      invariant n == CountAlive(values[..i], os.procs)
      decreases |nodes| - i
    {
      assert values[..i + 1][..i] == values[..i] && values[i].pid == cur.pid;
      if cur.IsAlive(os) {
        n := n + 1;
      }
      cur := cur.next;
      i := i + 1;
    }
    assert values[..i] == values;
    CountAliveNone(values, os.procs);
    assert forall k :: 0 <= k < |nodes| ==> nodes[k].pid == values[k].pid;
  }

  /** fiveman_process_state_table_reap_zombie_processes. */
  method ReapZombieProcesses(head: ProcessState?, os: Os, ghost nodes: seq<ProcessState>)
    requires IsTable(head, nodes)
    modifies os`procs
    ensures os.procs == ReapedAll(old(os.procs), Values(nodes))
  {
    var cur := head;
    ghost var i := 0;
    while cur != null
      invariant i <= |nodes| && cur == (if i < |nodes| then nodes[i] else null) && IsTable(head, nodes)
      invariant os.procs == ReapedAll(old(os.procs), Values(nodes)[..i])
      decreases |nodes| - i
    {
      cur.ReapZombieProcesses(os);
      assert Values(nodes)[..i + 1][..i] == Values(nodes)[..i];
      cur := cur.next;
      i := i + 1;
    }
    assert Values(nodes)[..i] == Values(nodes);
  }

  /** fiveman_process_state_table_converge; `ok` is false when a call of exit(-1) cut it short. */
  method Converge(head: ProcessState?, os: Os, data: Types.Signal, ghost nodes: seq<ProcessState>) returns (ok: bool)
    requires IsTable(head, nodes) && PidsKnown(Values(nodes), os.procs)
    modifies nodes`intent, nodes`pid, nodes`lastChange, nodes`sample, os`procs, os`sent
    ensures IsTable(head, nodes)
    ensures ok <==> forall k :: 0 <= k < |nodes| ==> KnownIntent(old(nodes[k].intent))
    ensures ok ==> Converges(old(Values(nodes)), Values(nodes), old(os.procs), os.procs, os.clock)
    ensures ok ==> os.sent == old(os.sent) + Orders(old(Values(nodes)), old(os.procs), data)
  {
    hide Orders, OrderOf, ConvergesTo, ConvergesUpTo, Extends, PidsKnown;
    ghost var values, procs := Values(nodes), os.procs;
    NoOrders(procs, data);
    NoneConverged(values, procs, os.clock);
    assert values[..0] == [];
    ok := true;
    var cur, row := head, 0;
    while cur != null && ok
      invariant IsTable(head, nodes)
      invariant row <= |nodes|
      invariant ok ==> cur == (if row < |nodes| then nodes[row] else null)
      invariant ok ==> forall k :: 0 <= k < row ==> KnownIntent(old(nodes[k].intent))
      invariant !ok ==> row < |nodes| && !KnownIntent(old(nodes[row].intent))
      invariant forall k :: row <= k < |nodes| ==> ok ==> nodes[k].Get() == old(nodes[k].Get())
      invariant ok ==> ConvergesUpTo(old(Values(nodes)), Values(nodes), old(os.procs), os.procs, os.clock, row)
      invariant ok ==> os.sent == old(os.sent) + Orders(values[..row], procs, data)
      decreases ok, |nodes| - row
    {
      var following := cur.next;
      ghost var mid, between := Values(nodes), os.procs;
      assert cur.Get() == values[row];
      assert forall k :: 0 <= k < |nodes| && k != row ==> nodes[k] != cur;
      ok := cur.Converge(os, row, data);
      if ok {
        Extended(values, mid, procs, between, os.clock, row);
        OneMoreOrder(values, procs, between, data, row);
        OneMore(old(Values(nodes)), mid, Values(nodes), old(os.procs), between, os.procs, os.clock, row);
        cur := following;
        row := row + 1;
      }
    }
    assert ok ==> values[..row] == values;
  }

  // ---------------------------------------------------------------- what the loops compute

  /** What a pass over the table sends: in table order, SIGTERM to every living child whose
      entry is to stop (and the signal of an entry whose intent is one). */
  function Orders(values: seq<Fields>, procs: ProcTable, data: Types.Signal): seq<(nat, Types.Signal)>
  {
    if values == [] then []
    else Orders(values[..|values| - 1], procs, data) + OrderOf(values[|values| - 1], procs, data)
  }

  /** The order is SIGTERM to the living child of an entry that is to stop. */
  predicate StopsChild(value: Fields, procs: ProcTable, order: (nat, Types.Signal))
  {
    value.intent == INTENT_STOP && IsAlive(procs, value.pid) && order == (value.pid, SigTerm)
  }

  function StopRows(values: seq<Fields>, procs: ProcTable, order: (nat, Types.Signal)): set<nat>
  {
    set k: nat | k < |values| && StopsChild(values[k], procs, order)
  }

  predicate RunOrStop(values: seq<Fields>)
  {
    forall k :: 0 <= k < |values| ==> values[k].intent == INTENT_START || values[k].intent == INTENT_STOP
  }

  /** Among entries that are to run or to stop, each living child of one that is to stop is sent
      SIGTERM, once per such entry, and nothing else is sent. */
  lemma {:induction false} OrdersAre(values: seq<Fields>, procs: ProcTable, data: Types.Signal,
                                     order: (nat, Types.Signal))
    requires RunOrStop(values)
    ensures multiset(Orders(values, procs, data))[order] == |StopRows(values, procs, order)|
    decreases |values|
  {
    hide OrderOf, StopsChild, StopRows;
    NoRows(procs, order);
    if values != [] {
      var last := |values| - 1;
      var init := values[..last];
      OrdersAre(init, procs, data, order);
      OneOrder(values[last], procs, data, order);
      OneMoreRow(values, procs, order);
      CountBoth(Orders(init, procs, data), OrderOf(values[last], procs, data), order);
    }
  }

  lemma NoRows(procs: ProcTable, order: (nat, Types.Signal))
    ensures StopRows([], procs, order) == {}
  {
  }

  lemma OneMoreRow(values: seq<Fields>, procs: ProcTable, order: (nat, Types.Signal))
    requires values != []
    ensures
      var last := |values| - 1;
      |StopRows(values, procs, order)| ==
        |StopRows(values[..last], procs, order)| + if StopsChild(values[last], procs, order) then 1 else 0
  {
    hide StopsChild;
    var last := |values| - 1;
    var more := if StopsChild(values[last], procs, order) then {last} else {};
    assert StopRows(values, procs, order) == StopRows(values[..last], procs, order) + more;
  }

  lemma CountBoth<T>(a: seq<T>, b: seq<T>, x: T)
    ensures multiset(a + b)[x] == multiset(a)[x] + multiset(b)[x]
  {
    assert multiset(a + b) == multiset(a) + multiset(b);
  }

  lemma OneOrder(value: Fields, procs: ProcTable, data: Types.Signal, order: (nat, Types.Signal))
    requires value.intent == INTENT_START || value.intent == INTENT_STOP
    ensures multiset(OrderOf(value, procs, data))[order] == if StopsChild(value, procs, order) then 1 else 0
  {
  }

  /** As no two entries share a child, every such child is sent SIGTERM exactly once. */
  lemma OrderedOnce(values: seq<Fields>, procs: ProcTable, data: Types.Signal, row: nat)
    requires RunOrStop(values) && row < |values|
    requires forall j, k :: 0 <= j < k < |values| && values[j].pid == values[k].pid ==> values[j].pid == 0
    requires values[row].intent == INTENT_STOP && IsAlive(procs, values[row].pid)
    ensures multiset(Orders(values, procs, data))[(values[row].pid, SigTerm)] == 1
  {
    var order := (values[row].pid, SigTerm);
    OrdersAre(values, procs, data, order);
    assert StopRows(values, procs, order) == {row};
  }

  /** The rows of the living children that are to stop. */
  function StopTargets(values: seq<Fields>, procs: ProcTable): set<nat>
  {
    set k: nat | k < |values| && values[k].intent == INTENT_STOP && IsAlive(procs, values[k].pid)
  }

  /** The SIGTERMs come in table order: that of a row stands behind those of the rows above. */
  lemma {:induction false} OrdersInTableOrder(values: seq<Fields>, procs: ProcTable, data: Types.Signal, row: nat)
    requires RunOrStop(values) && row < |values|
    requires values[row].intent == INTENT_STOP && IsAlive(procs, values[row].pid)
    ensures |Orders(values, procs, data)| == |StopTargets(values, procs)|
    ensures
      var place := |StopTargets(values[..row], procs)|;
      place < |Orders(values, procs, data)| && Orders(values, procs, data)[place] == (values[row].pid, SigTerm)
    decreases |values|
  {
    var last := |values| - 1;
    var init := values[..last];
    OrdersCount(values, procs, data);
    OrdersCount(init, procs, data);
    if row < last {
      OrdersInTableOrder(init, procs, data, row);
      assert init[..row] == values[..row];
    }
  }

  lemma {:induction false} OrdersCount(values: seq<Fields>, procs: ProcTable, data: Types.Signal)
    requires RunOrStop(values)
    ensures |Orders(values, procs, data)| == |StopTargets(values, procs)|
    decreases |values|
  {
    if values != [] {
      var last := |values| - 1;
      OrdersCount(values[..last], procs, data);
      var more := if values[last].intent == INTENT_STOP && IsAlive(procs, values[last].pid) then {last} else {};
      assert StopTargets(values, procs) == StopTargets(values[..last], procs) + more;
    }
  }

  lemma NoOrders(procs: ProcTable, data: Types.Signal)
    ensures Orders([], procs, data) == []
  {
  }

  lemma OneMoreOrder(values: seq<Fields>, procs: ProcTable, between: ProcTable, data: Types.Signal, row: nat)
    requires row < |values| && PidsKnown(values, procs)
    requires forall p :: p in procs ==> p in between && between[p] == procs[p]
    ensures Orders(values[..row + 1], procs, data) ==
      Orders(values[..row], procs, data) + OrderOf(values[row], between, data)
  {
    assert values[..row + 1][..row] == values[..row];
  }

  function Reflected(values: seq<Fields>): seq<Fields>
  {
    seq(|values|, k requires 0 <= k < |values| => values[k].(intent := values[k].desired))
  }

  function Signals(values: seq<Fields>, sig: Types.Signal): seq<(nat, Types.Signal)>
  {
    if values == [] then []
    else
      var last := values[|values| - 1];
      Signals(values[..|values| - 1], sig) + if last.pid > 0 then [(last.pid, sig)] else []
  }

  /** The rows whose entry was ever started, and those that are sent exactly this. */
  function StartedRows(values: seq<Fields>): set<nat>
  {
    set k: nat | k < |values| && values[k].pid > 0
  }

  function SignalRows(values: seq<Fields>, sig: Types.Signal, order: (nat, Types.Signal)): set<nat>
  {
    set k: nat | k < |values| && values[k].pid > 0 && order == (values[k].pid, sig)
  }

  /** Every entry ever started is sent the signal that was asked for, once, and nothing else is
      sent. */
  lemma {:induction false} SignalsAre(values: seq<Fields>, sig: Types.Signal, order: (nat, Types.Signal))
    ensures multiset(Signals(values, sig))[order] == |SignalRows(values, sig, order)|
    decreases |values|
  {
    if values != [] {
      var last := |values| - 1;
      var init := values[..last];
      SignalsAre(init, sig, order);
      OneMoreSignal(values, sig, order);
      CountBoth(Signals(init, sig), if values[last].pid > 0 then [(values[last].pid, sig)] else [], order);
    }
  }

  lemma OneMoreSignal(values: seq<Fields>, sig: Types.Signal, order: (nat, Types.Signal))
    requires values != []
    ensures
      var last := |values| - 1;
      |SignalRows(values, sig, order)| == |SignalRows(values[..last], sig, order)| +
        if values[last].pid > 0 && order == (values[last].pid, sig) then 1 else 0
  {
    var last := |values| - 1;
    var more := if values[last].pid > 0 && order == (values[last].pid, sig) then {last} else {};
    assert SignalRows(values, sig, order) == SignalRows(values[..last], sig, order) + more;
  }

  /** And in table order. */
  lemma {:induction false} SignalsInTableOrder(values: seq<Fields>, sig: Types.Signal, row: nat)
    requires row < |values| && values[row].pid > 0
    ensures |Signals(values, sig)| == |StartedRows(values)|
    ensures
      var place := |StartedRows(values[..row])|;
      place < |Signals(values, sig)| && Signals(values, sig)[place] == (values[row].pid, sig)
    decreases |values|
  {
    var last := |values| - 1;
    var init := values[..last];
    SignalsCount(values, sig);
    SignalsCount(init, sig);
    if row < last {
      SignalsInTableOrder(init, sig, row);
      assert init[..row] == values[..row];
    }
  }

  lemma {:induction false} SignalsCount(values: seq<Fields>, sig: Types.Signal)
    ensures |Signals(values, sig)| == |StartedRows(values)|
    decreases |values|
  {
    if values != [] {
      var last := |values| - 1;
      SignalsCount(values[..last], sig);
      var more := if values[last].pid > 0 then {last} else {};
      assert StartedRows(values) == StartedRows(values[..last]) + more;
    }
  }

  function ReapedAll(procs: ProcTable, values: seq<Fields>): ProcTable
  {
    if values == [] then procs
    else Reaped(ReapedAll(procs, values[..|values| - 1]), values[|values| - 1].pid)
  }

  function CountAlive(values: seq<Fields>, procs: ProcTable): nat
  {
    if values == [] then 0
    else CountAlive(values[..|values| - 1], procs) + if IsAlive(procs, values[|values| - 1].pid) then 1 else 0
  }

  /** The rows whose process answers. */
  function Alive(values: seq<Fields>, procs: ProcTable): set<nat>
  {
    set k: nat | k < |values| && IsAlive(procs, values[k].pid)
  }

  /** The count is the number of rows whose process answers. */
  lemma {:induction false} CountAliveIs(values: seq<Fields>, procs: ProcTable)
    ensures CountAlive(values, procs) == |Alive(values, procs)|
  {
    if values != [] {
      var last := |values| - 1;
      CountAliveIs(values[..last], procs);
      var more := if IsAlive(procs, values[last].pid) then {last} else {};
      assert Alive(values, procs) == Alive(values[..last], procs) + more;
    }
  }

  lemma CountAliveNone(values: seq<Fields>, procs: ProcTable)
    ensures CountAlive(values, procs) == 0 <==> forall k :: 0 <= k < |values| ==> !IsAlive(procs, values[k].pid)
  {
    CountAliveIs(values, procs);
    assert Alive(values, procs) == {} <==> forall k: nat :: k < |values| ==> k !in Alive(values, procs);
  }

  /** The operating system handed out every pid in the table. */
  predicate PidsKnown(values: seq<Fields>, procs: ProcTable)
  {
    forall k :: 0 <= k < |values| ==> values[k].pid > 0 ==> values[k].pid in procs
  }

  /** The first `row` entries have converged; every new pid belongs to one of them. */
  predicate ConvergesUpTo(before: seq<Fields>, after: seq<Fields>, procs: ProcTable, procs': ProcTable,
                          clock: int, row: nat)
  {
    && |before| == |after| && row <= |before|
    && (forall k :: 0 <= k < row ==> ConvergesTo(before[k].intent, before[k], after[k], procs, procs', clock))
    && (forall p :: p in procs ==> p in procs' && procs'[p] == procs[p])
    && (forall p :: p in procs' && p !in procs ==> p > 0 && exists k :: 0 <= k < row && after[k].pid == p)
  }

  predicate Converges(before: seq<Fields>, after: seq<Fields>, procs: ProcTable, procs': ProcTable, clock: int)
  {
    ConvergesUpTo(before, after, procs, procs', clock, |before|)
  }

  lemma NoneConverged(values: seq<Fields>, procs: ProcTable, clock: int)
    ensures ConvergesUpTo(values, values, procs, procs, clock, 0)
  {
  }

  lemma Extended(before: seq<Fields>, after: seq<Fields>, procs: ProcTable, procs': ProcTable, clock: int, row: nat)
    requires ConvergesUpTo(before, after, procs, procs', clock, row)
    ensures |after| == |before| && forall p :: p in procs ==> p in procs' && procs'[p] == procs[p]
  {
  }

  lemma OneMore(before: seq<Fields>, mid: seq<Fields>, after: seq<Fields>,
                procs: ProcTable, between: ProcTable, procs': ProcTable, clock: int, row: nat)
    requires row < |before| && PidsKnown(before, procs) && |after| == |mid|
    requires ConvergesUpTo(before, mid, procs, between, clock, row) && mid[row] == before[row]
    requires ConvergesTo(before[row].intent, mid[row], after[row], between, procs', clock)
    requires Extends(between, procs', after[row])
    requires forall k :: 0 <= k < |mid| && k != row ==> after[k] == mid[k]
    ensures ConvergesUpTo(before, after, procs, procs', clock, row + 1)
  {
    hide ConvergesTo;
    forall k | 0 <= k < row
      ensures ConvergesTo(before[k].intent, before[k], after[k], procs, procs', clock)
    {
      ConvergesStill(before[k], mid[k], procs, between, procs', clock);
    }
    ConvergesFrom(before[row], after[row], procs, between, procs', clock);
    forall p | p in procs' && p !in procs
      ensures p > 0 && exists k :: 0 <= k < row + 1 && after[k].pid == p
    {
      if p in between {
        var k :| 0 <= k < row && mid[k].pid == p;
        assert after[k].pid == p;
      } else {
        assert after[row].pid == p;
      }
    }
  }

  /** Later spawns do not undo a convergence. */
  lemma ConvergesStill(before: Fields, after: Fields, procs: ProcTable, between: ProcTable, procs': ProcTable,
                       clock: int)
    requires ConvergesTo(before.intent, before, after, procs, between, clock)
    requires forall p :: p in between ==> p in procs' && procs'[p] == between[p]
    ensures ConvergesTo(before.intent, before, after, procs, procs', clock)
  {
  }

  /** Earlier spawns do not change what an entry with a known pid converges to. */
  lemma ConvergesFrom(before: Fields, after: Fields, procs: ProcTable, between: ProcTable, procs': ProcTable,
                       clock: int)
    requires before.pid > 0 ==> before.pid in procs
    requires forall p :: p in procs ==> p in between && between[p] == procs[p]
    requires ConvergesTo(before.intent, before, after, between, procs', clock)
    ensures ConvergesTo(before.intent, before, after, procs, procs', clock)
  {
  }

  // ---------------------------------------------------------------- the pass

  /** One turn of the status thread's loop, up to the sampling (fiveman_status_thread.c:31-34). */
  method Pass(head: ProcessState?, os: Os, data: Types.Signal, ghost nodes: seq<ProcessState>) returns (ok: bool)
    requires IsTable(head, nodes) && PidsKnown(Values(nodes), os.procs)
    modifies nodes`intent, nodes`pid, nodes`lastChange, nodes`sample, os`procs, os`sent
    ensures IsTable(head, nodes)
    ensures ok <==> forall k :: 0 <= k < |nodes| ==> KnownIntent(old(nodes[k].desired))
    ensures ok ==> PassOf(old(Values(nodes)), Values(nodes), old(os.procs), os.procs, os.clock)
    ensures ok ==> os.sent == old(os.sent) + PassOrders(old(Values(nodes)), old(os.procs), data)
  {
    ReflectDesiredIntent(head, nodes);
    ghost var reflected := Values(nodes);
    ReapZombieProcesses(head, os, nodes);
    ReapedAllIs(old(os.procs), reflected);
    assert forall k :: 0 <= k < |nodes| ==> nodes[k].intent == Values(nodes)[k].intent == old(nodes[k].desired);
    ok := Converge(head, os, data, nodes);
  }

  function PassOrders(before: seq<Fields>, procs: ProcTable, data: Types.Signal): seq<(nat, Types.Signal)>
  {
    Orders(Reflected(before), ReapedAll(procs, Reflected(before)), data)
  }

  predicate PassOf(before: seq<Fields>, after: seq<Fields>, procs: ProcTable, procs': ProcTable, clock: int)
  {
    Converges(Reflected(before), after, ReapedAll(procs, Reflected(before)), procs', clock)
  }

  /** Reaping the table turns exactly its zombies into gone processes. */
  lemma {:induction false} ReapedAllIs(procs: ProcTable, values: seq<Fields>)
    ensures ReapedAll(procs, values).Keys == procs.Keys
    ensures forall p :: p in procs ==>
      ReapedAll(procs, values)[p] ==
        if procs[p].status == Zombie && exists k :: 0 <= k < |values| && values[k].pid == p && p > 0
        then Proc(procs[p].owner, Gone) else procs[p]
    decreases |values|
  {
    if values != [] {
      var init, last := values[..|values| - 1], values[|values| - 1];
      ReapedAllIs(procs, init);
      forall p | p in procs
        ensures (exists k :: 0 <= k < |values| && values[k].pid == p && p > 0) <==>
                ((exists k :: 0 <= k < |init| && init[k].pid == p && p > 0) || (last.pid == p && p > 0))
      {
        if k :| 0 <= k < |values| && values[k].pid == p && p > 0 {
          assert k < |init| ==> init[k].pid == p;
        }
        if k :| 0 <= k < |init| && init[k].pid == p && p > 0 {
          assert values[k].pid == p;
        }
      }
    }
  }

  /** What a pass makes of an entry, by its wish and by whether its child runs: a running child
      that is wanted is left alone; one that is not wanted is noted; a child that is wanted and
      does not run is started anew, under a pid never used before; and otherwise nothing
      happens but that the wish is reflected. */
  lemma PassEntryIs(before: seq<Fields>, after: seq<Fields>, procs: ProcTable, procs': ProcTable, clock: int, k: nat)
    requires PassOf(before, after, procs, procs', clock) && PidsKnown(before, procs) && k < |before|
    requires before[k].desired == INTENT_START || before[k].desired == INTENT_STOP
    ensures |after| == |before|
    ensures
      var e, e' := before[k], after[k];
      var runs := e.pid > 0 && procs[e.pid].status == Running;
      if e.desired == INTENT_STOP then
        e' == e.(intent := INTENT_STOP, lastChange := if runs then clock else e.lastChange)
      else if runs then e' == e.(intent := INTENT_START)
      else
        && e'.pid > 0 && e'.pid !in procs && e'.pid in procs' && procs'[e'.pid].status == Running
        && e' == Fields(INTENT_START, INTENT_START, e'.pid, clock, Cleared)
  {
    var mid := Reflected(before);
    ReapedAllIs(procs, mid);
    assert mid[k].pid == before[k].pid;
    assert ConvergesTo(mid[k].intent, mid[k], after[k], ReapedAll(procs, mid), procs', clock);
  }

  /** After a pass in which no child exits, every entry that is to run has a running child. */
  lemma PassStartsAll(before: seq<Fields>, after: seq<Fields>, procs: ProcTable, procs': ProcTable, clock: int, k: nat)
    requires PassOf(before, after, procs, procs', clock) && PidsKnown(before, procs)
    requires k < |before| && before[k].desired == INTENT_START
    ensures after[k].pid > 0 && after[k].pid in procs' && procs'[after[k].pid].status == Running
    ensures after[k].intent == INTENT_START && after[k].desired == INTENT_START
  {
    var mid := Reflected(before);
    ReapedAllIs(procs, mid);
    assert mid[k].pid == before[k].pid;
  }

  /** A second pass in which no child exits leaves those entries as they are, pid and
      last_state_change included, and spawns nothing at all. */
  lemma PassIsFixedPoint(before: seq<Fields>, after: seq<Fields>, again: seq<Fields>,
                         procs: ProcTable, procs': ProcTable, procs'': ProcTable, clock: int, later: int)
    requires PassOf(before, after, procs, procs', clock) && PidsKnown(before, procs)
    requires PassOf(after, again, procs', procs'', later)
    ensures forall k :: 0 <= k < |before| && before[k].desired == INTENT_START ==> again[k] == after[k]
    ensures procs''.Keys == procs'.Keys
  {
    forall k | 0 <= k < |before|
      ensures before[k].desired == INTENT_START ==> again[k] == after[k]
      ensures again[k].pid == after[k].pid
    {
      EntryIsFixed(before, after, again, procs, procs', procs'', clock, later, k);
    }
    PidsStayKnown(before, after, procs, procs', clock);
    KeysFixed(after, again, procs', procs'', later);
  }

  lemma EntryIsFixed(before: seq<Fields>, after: seq<Fields>, again: seq<Fields>,
                     procs: ProcTable, procs': ProcTable, procs'': ProcTable, clock: int, later: int, k: nat)
    requires PassOf(before, after, procs, procs', clock) && PidsKnown(before, procs)
    requires PassOf(after, again, procs', procs'', later) && k < |before|
    ensures |after| == |again| == |before|
    ensures before[k].desired == INTENT_START ==> again[k] == after[k]
    ensures before[k].desired != INTENT_START ==> again[k].pid == after[k].pid
  {
    DesiresStay(before, after, procs, procs', clock, k);
    if before[k].desired == INTENT_START {
      PassStartsAll(before, after, procs, procs', clock, k);
      RunningIsLeft(after, again, procs', procs'', later, k);
    } else {
      OthersKeepPid(after, again, procs', procs'', later, k);
    }
  }

  /** A pass leaves an entry that is to run and is running as it is. */
  lemma RunningIsLeft(after: seq<Fields>, again: seq<Fields>, procs': ProcTable, procs'': ProcTable, later: int, k: nat)
    requires PassOf(after, again, procs', procs'', later) && k < |after|
    requires after[k].intent == INTENT_START && after[k].desired == INTENT_START
    requires after[k].pid > 0 && after[k].pid in procs' && procs'[after[k].pid].status == Running
    ensures again[k] == after[k]
  {
    var mid := Reflected(after);
    ReapedAllIs(procs', mid);
    assert mid[k] == after[k];
    assert ConvergesTo(mid[k].intent, mid[k], again[k], ReapedAll(procs', mid), procs'', later);
  }

  lemma OthersKeepPid(after: seq<Fields>, again: seq<Fields>, procs': ProcTable, procs'': ProcTable, later: int, k: nat)
    requires PassOf(after, again, procs', procs'', later) && k < |after|
    requires after[k].desired != INTENT_START
    ensures again[k].pid == after[k].pid
  {
    var mid := Reflected(after);
    assert mid[k].pid == after[k].pid && mid[k].intent == after[k].desired;
    assert ConvergesTo(mid[k].intent, mid[k], again[k], ReapedAll(procs', mid), procs'', later);
  }

  lemma KeysFixed(after: seq<Fields>, again: seq<Fields>, procs': ProcTable, procs'': ProcTable, later: int)
    requires PassOf(after, again, procs', procs'', later) && PidsKnown(after, procs')
    requires |again| == |after| && forall k :: 0 <= k < |after| ==> again[k].pid == after[k].pid
    ensures procs''.Keys == procs'.Keys
  {
    var mid := Reflected(after);
    ReapedAllIs(procs', mid);
    forall p | p in procs''
      ensures p in procs'
    {
      if p !in procs' {
        assert false;
      }
    }
    assert forall p :: p in procs' ==> p in ReapedAll(procs', mid);
  }

  lemma DesiresStay(before: seq<Fields>, after: seq<Fields>, procs: ProcTable, procs': ProcTable, clock: int, k: nat)
    requires PassOf(before, after, procs, procs', clock) && k < |before|
    ensures |after| == |before| && after[k].desired == before[k].desired
  {
    var mid := Reflected(before);
    assert ConvergesTo(mid[k].intent, mid[k], after[k], ReapedAll(procs, mid), procs', clock);
  }

  lemma PidsStayKnown(before: seq<Fields>, after: seq<Fields>, procs: ProcTable, procs': ProcTable, clock: int)
    requires PassOf(before, after, procs, procs', clock) && PidsKnown(before, procs)
    ensures PidsKnown(after, procs')
  {
    var mid := Reflected(before);
    ReapedAllIs(procs, mid);
    forall k | 0 <= k < |after| && after[k].pid > 0
      ensures after[k].pid in procs'
    {
      assert mid[k].pid == before[k].pid;
      assert ConvergesTo(mid[k].intent, mid[k], after[k], ReapedAll(procs, mid), procs', clock);
    }
  }
}
