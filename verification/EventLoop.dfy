/** The screen thread's event loop as code (ncurses_screen.c:299-430): its variables, one turn
    of the loop over the linked table, and what such a turn amounts to. EventRefinement.dfy
    shows that the screen thread's steps in the step system amount to the same. */
module EventLoop {
  import opened Types
  import opened ProcessTable
  import opened Table
  import S = Supervisor

  /** exit_fiveman, exit_fiveman_immediately, is_terminating, term_issued_at, highlighted_row. */
  datatype Flags = Flags(quit: bool, immediate: bool, terminating: bool, issuedAt: int, highlighted: nat)

  /** Every entry wishes to stop. */
  function AllStopped(values: seq<Fields>): (r: seq<Fields>)
    ensures |r| == |values|
  {
    seq(|values|, k requires 0 <= k < |values| => values[k].(desired := INTENT_STOP))
  }

  /** Which signal one turn sends to every entry that was ever started, if any. */
  datatype Sends = Nothing | Everybody(sig: Types.Signal)

  // ---------------------------------------------------------------- what a turn amounts to

  /** The wishes after the key. */
  function Wished(values: seq<Fields>, row: nat, key: S.Key): (r: seq<Fields>)
    ensures |r| == |values|
  {
    if row < |values| && key == S.StopKey then values[row := values[row].(desired := INTENT_STOP)]
    else if row < |values| && key == S.LaunchKey then values[row := values[row].(desired := INTENT_START)]
    else values
  }

  /** The highlighted row after the key, for a table of `total` rows. */
  function Moved(row: nat, total: nat, key: S.Key): nat
  {
    if key == S.UpKey then S.MovedUp(row) else if key == S.DownKey then S.MovedDown(row, total) else row
  }

  /** The flags after the key. */
  function Keyed(flags: Flags, total: nat, key: S.Key): Flags
  {
    flags.(quit := flags.quit || key == S.QuitKey, highlighted := Moved(flags.highlighted, total, key))
  }

  predicate SomebodyAlive(values: seq<Fields>, procs: ProcTable)
  {
    exists k :: 0 <= k < |values| && IsAlive(procs, values[k].pid)
  }

  /** One turn: while fiveman is terminating, everybody gets SIGTERM as long as anybody is
      alive and the timeout has not struck, SIGKILL when it has; the loop is left when nobody
      is alive or with the SIGKILL; otherwise a quit request is recorded as STOP everywhere. */
  predicate TurnOf(flags: Flags, values: seq<Fields>, procs: ProcTable, clock: int, key: S.Key,
                   flags': Flags, values': seq<Fields>, sends: Sends)
  {
    var keyed, wished := Keyed(flags, |values|, key), Wished(values, flags.highlighted, key);
    var alive := SomebodyAlive(values, procs);
    && flags'.highlighted == keyed.highlighted
    && (flags'.immediate <==> flags.terminating && (!alive || Overdue(flags.issuedAt, clock)))
    && sends == (if !flags.terminating || !alive then Nothing
                 else Everybody(if Overdue(flags.issuedAt, clock) then SigKill else SigTerm))
    && if keyed.quit && !flags'.immediate
       then
         && flags' == Flags(false, false, true, clock, keyed.highlighted)
         && values' == AllStopped(wished)
       else
         && flags' == keyed.(immediate := flags'.immediate)
         && values' == wished
  }

  function Given(sends: Sends, values: seq<Fields>): seq<(nat, Types.Signal)>
  {
    if sends.Everybody? then Signals(values, sends.sig) else []
  }

  // ---------------------------------------------------------------- the code

  class Screen {
    var exitFiveman: bool
    var exitImmediately: bool
    var isTerminating: bool
    var termIssuedAt: int
    var highlightedRow: nat
    const states: array<ProcessState?>

    function Value(): Flags
      reads this
    {
      Flags(exitFiveman, exitImmediately, isTerminating, termIssuedAt, highlightedRow)
    }

    /** The array of states is the table, and the highlighted row is one of its rows. */
    ghost predicate Valid(nodes: seq<ProcessState>)
      reads this, states
    {
      states.Length == |nodes| && highlightedRow < |nodes| && forall k :: 0 <= k < |nodes| ==> states[k] == nodes[k]
    }

    /** The locals (lines 300-320). */
    constructor (totalStates: nat, issuedAt: int)
      ensures Value() == Flags(false, false, false, issuedAt, 0) && fresh(states) && states.Length == totalStates
    {
      exitFiveman, exitImmediately, isTerminating := false, false, false;
      termIssuedAt, highlightedRow := issuedAt, 0;
      states := new ProcessState?[totalStates](_ => null);
    }

    /** The loop that copies the list to the array (lines 321-325); `fits` is false when it
        would write behind the array. */
    method FillStates(head: ProcessState?, ghost nodes: seq<ProcessState>) returns (fits: bool)
      requires IsTable(head, nodes)
      modifies states
      ensures fits <==> |nodes| <= states.Length
      ensures forall k :: 0 <= k < |nodes| && k < states.Length ==> states[k] == nodes[k]
      ensures fits && |nodes| == states.Length && highlightedRow < |nodes| ==> Valid(nodes)
    {
      var cur, row := head, 0;
      while cur != null
        invariant row <= |nodes| && row <= states.Length && cur == (if row < |nodes| then nodes[row] else null)
        invariant forall k :: 0 <= k < row ==> states[k] == nodes[k]
        decreases |nodes| - row
      {
        if row == states.Length {
          return false;
        }
        states[row] := cur;
        cur := cur.next;
        row := row + 1;
      }
      fits := true;
    }

    /** The switch on the key (lines 354-399), as far as it concerns these variables. */
    method Handle(key: S.Key, ghost head: ProcessState?, ghost nodes: seq<ProcessState>)
      requires Valid(nodes) && IsTable(head, nodes)
      modifies this`exitFiveman, this`highlightedRow, nodes`desired
      ensures Valid(nodes) && IsTable(head, nodes) && Value() == Keyed(old(Value()), |nodes|, key)
      ensures Values(nodes) == Wished(old(Values(nodes)), old(highlightedRow), key)
    {
      assert forall j, k :: 0 <= j < k < |nodes| ==> nodes[j] != nodes[k];
      match key
      case QuitKey => exitFiveman := true;
      case StopKey => states[highlightedRow].DesiresIntent(INTENT_STOP);
      case LaunchKey => states[highlightedRow].DesiresIntent(INTENT_START);
      case UpKey =>
        if highlightedRow > 0 {
          highlightedRow := highlightedRow - 1;
        }
      case DownKey =>
        highlightedRow := highlightedRow + 1;
        if highlightedRow >= states.Length {
          highlightedRow := states.Length - 1;
        }
      case OtherKey =>
    }

    /** The body of `if(is_terminating)` (lines 401-415). */
    method Escalate(head: ProcessState?, os: Os, ghost nodes: seq<ProcessState>) returns (ghost sends: Sends)
      requires IsTable(head, nodes) && !exitImmediately
      modifies this`exitImmediately, os`sent
      ensures
        var values := Values(nodes);
        var alive, late := SomebodyAlive(values, os.procs), Overdue(Value().issuedAt, os.clock);
        && Value() == old(Value()).(immediate := !alive || late)
        && sends == (if alive then Everybody(if late then SigKill else SigTerm) else Nothing)
        && os.sent == old(os.sent) + Given(sends, values)
    {
      hide CountAlive, Signals;
      sends := Nothing;
      var alive := NumAlive(head, os, nodes);
      assert forall k :: 0 <= k < |nodes| ==> Values(nodes)[k].pid == nodes[k].pid;
      if alive > 0 {
        var diff := os.clock - termIssuedAt;
        exitImmediately := diff >= TERM_TIMEOUT;
        if exitImmediately {
          Table.Signal(head, os, SigKill, nodes);
          sends := Everybody(SigKill);
        } else {
          Table.Signal(head, os, SigTerm, nodes);
          sends := Everybody(SigTerm);
        }
      } else {
        exitImmediately := true;
      }
    }

    /** The body of `if(exit_fiveman)` (lines 421-426). */
    method RecordQuit(head: ProcessState?, os: Os, ghost nodes: seq<ProcessState>)
      requires Valid(nodes) && IsTable(head, nodes)
      modifies this`termIssuedAt, this`exitFiveman, this`isTerminating, nodes`desired
      ensures Valid(nodes) && IsTable(head, nodes)
      ensures Value() == old(Value()).(quit := false, terminating := true, issuedAt := os.clock)
      ensures Values(nodes) == AllStopped(old(Values(nodes)))
    {
      termIssuedAt := os.clock;
      Table.DesiresIntent(head, INTENT_STOP, nodes);
      exitFiveman := false;
      isTerminating := true;
    }

    /** Lines 354-427, with nobody else stepping in between; `leave` is the break. */
    method Turn(head: ProcessState?, os: Os, key: S.Key, ghost nodes: seq<ProcessState>)
      returns (leave: bool, ghost sends: Sends)
      requires Valid(nodes) && IsTable(head, nodes) && !exitImmediately
      modifies this, nodes`desired, os`sent
      ensures Valid(nodes) && IsTable(head, nodes) && (leave <==> exitImmediately)
      ensures TurnOf(old(Value()), old(Values(nodes)), os.procs, os.clock, key, Value(), Values(nodes), sends)
      ensures os.sent == old(os.sent) + Given(sends, old(Values(nodes)))
    {
      hide Signals, SomebodyAlive, IsTable, Values;
      sends := Nothing;
      ghost var values := Values(nodes);
      Handle(key, head, nodes);
      SamePids(values, Values(nodes), os.procs);
      if isTerminating {
        sends := Escalate(head, os, nodes);
      }
      leave := exitImmediately;
      if !leave {
        if exitFiveman {
          RecordQuit(head, os, nodes);
        }
      }
    }
  }

  lemma SamePids(values: seq<Fields>, values': seq<Fields>, procs: ProcTable)
    requires |values'| == |values| && forall k :: 0 <= k < |values| ==> values'[k].pid == values[k].pid
    ensures SomebodyAlive(values', procs) <==> SomebodyAlive(values, procs)
    ensures forall sends :: Given(sends, values') == Given(sends, values)
  {
    SameAlive(values, values', procs);
    SameSignals(values, values');
  }

  lemma SameAlive(values: seq<Fields>, values': seq<Fields>, procs: ProcTable)
    requires |values'| == |values| && forall k :: 0 <= k < |values| ==> values'[k].pid == values[k].pid
    ensures SomebodyAlive(values', procs) <==> SomebodyAlive(values, procs)
  {
    if k :| 0 <= k < |values| && IsAlive(procs, values[k].pid) {
      assert IsAlive(procs, values'[k].pid);
    }
    if k :| 0 <= k < |values'| && IsAlive(procs, values'[k].pid) {
      assert IsAlive(procs, values[k].pid);
    }
  }

  lemma {:induction false} SameSignals(values: seq<Fields>, values': seq<Fields>)
    requires |values'| == |values| && forall k :: 0 <= k < |values| ==> values'[k].pid == values[k].pid
    ensures forall sig :: Signals(values', sig) == Signals(values, sig)
    decreases |values|
  {
    if values != [] {
      SameSignals(values[..|values| - 1], values'[..|values| - 1]);
    }
  }
}
