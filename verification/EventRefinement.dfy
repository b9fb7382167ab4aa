/** The two accounts of the screen thread's turn agree: the step system, when only the screen
    thread steps, takes a key to the end of the turn exactly as the code in EventLoop.dfy. */
module EventRefinement {
  import opened Types
  import opened Supervisor
  import opened SupervisorInvariants
  import opened ProcessTable
  import opened PassRefinement
  import T = Table
  import E = EventLoop

  function FlagsOf(u: ScreenThread): E.Flags
  {
    E.Flags(u.quit, u.immediate, u.terminating, u.issuedAt, u.highlighted)
  }

  /** From the key on, before the turn ends. */
  predicate InTurn(pc: ScreenPc)
  {
    pc.Handling? || pc == CheckTerm || pc.Counting? || pc.Signalling? || pc == CheckExit || pc.Recording?
  }

  /** The entries above row i have been sent what the turn sends. */
  predicate SentUpTo(before: seq<Entry>, after: seq<Entry>, sends: E.Sends, at: int, i: nat)
  {
    && |after| == |before|
    && forall k :: 0 <= k < |before| ==>
         after[k].sent ==
           if k < i && sends.Everybody? && before[k].pid > 0
           then before[k].sent + [Sent(sends.sig, before[k].pid, at)] else before[k].sent
  }

  /** What the turn sends, decided by the count. */
  function Sending(s: State): E.Sends
  {
    var values := ValuesOf(s.m.entries);
    if s.u.terminating && T.CountAlive(values, s.m.procs) > 0
    then E.Everybody(if Overdue(s.u.issuedAt, s.m.clock) then SigKill else SigTerm)
    else E.Nothing
  }

  /** How far the turn that began in s0, with this key, has come. */
  predicate TurnAt(s0: State, key: Key, s: State)
  {
    var n, before := |s0.m.entries|, ValuesOf(s0.m.entries);
    var values, wished := ValuesOf(s.m.entries), E.Wished(before, s0.u.highlighted, key);
    var flags, keyed := FlagsOf(s.u), E.Keyed(FlagsOf(s0.u), n, key);
    var alive, sends := T.CountAlive(before, s0.m.procs), Sending(s0);
    var leave := s0.u.terminating && (alive == 0 || Overdue(s0.u.issuedAt, s0.m.clock));
    && |s.m.entries| == n && s.m.procs == s0.m.procs && s.m.clock == s0.m.clock
    && match s.u.pc
       case Handling(k) => k == key && s == s0
       case CheckTerm => flags == keyed && values == wished && SentUpTo(s0.m.entries, s.m.entries, sends, s0.m.clock, 0)
       case Counting(i, a) =>
         && flags == keyed && values == wished && SentUpTo(s0.m.entries, s.m.entries, sends, s0.m.clock, 0)
         && s0.u.terminating && i <= n && a == T.CountAlive(wished[..i], s0.m.procs)
       case Signalling(sig, i, at) =>
         && flags == keyed.(immediate := leave) && values == wished
         && SentUpTo(s0.m.entries, s.m.entries, sends, s0.m.clock, i)
         && i <= n && sends == E.Everybody(sig) && at == s0.m.clock
       case CheckExit =>
         && flags == keyed.(immediate := leave) && values == wished
         && SentUpTo(s0.m.entries, s.m.entries, sends, s0.m.clock, n)
       case Recording(i) =>
         && i <= n && keyed.quit && !leave
         && flags == keyed.(issuedAt := s0.m.clock)
         && (forall k :: 0 <= k < n ==> values[k] == if k < i then E.AllStopped(wished)[k] else wished[k])
         && SentUpTo(s0.m.entries, s.m.entries, sends, s0.m.clock, n)
       case _ => TurnEnded(s0, key, s)
  }

  /** The turn has ended as the code's does. */
  predicate TurnEnded(s0: State, key: Key, s: State)
  {
    var before, after, sends := ValuesOf(s0.m.entries), ValuesOf(s.m.entries), Sending(s0);
    && E.TurnOf(FlagsOf(s0.u), before, s0.m.procs, s0.m.clock, key, FlagsOf(s.u), after, sends)
    && SentUpTo(s0.m.entries, s.m.entries, sends, s0.m.clock, |s0.m.entries|)
    && (s.u.pc == Left <==> s.u.immediate)
  }

  predicate StepFits(s0: State, key: Key, s: State)
  {
    TurnAt(s0, key, s) && InTurn(s.u.pc) && s0.u.pc == Handling(key) && !s0.u.immediate && ScreenEnabled(s)
  }

  predicate StepKept(s0: State, key: Key, s: State)
  {
    TurnAt(s0, key, s) && (InTurn(s.u.pc) || s.u.pc == Drawing(0) || s.u.pc == Left)
  }

  lemma HandleKept(s0: State, key: Key, s: State, input: Input)
    requires StepFits(s0, key, s) && s.u.pc.Handling?
    ensures StepKept(s0, key, ScreenNext(s, input))
  {
    hide T.CountAlive;
    var s' := ScreenNext(s, input);
    assert ValuesOf(s'.m.entries) == E.Wished(ValuesOf(s0.m.entries), s0.u.highlighted, key);
  }

  lemma CheckTermKept(s0: State, key: Key, s: State, input: Input)
    requires StepFits(s0, key, s) && s.u.pc == CheckTerm
    ensures StepKept(s0, key, ScreenNext(s, input))
  {
    var wished := E.Wished(ValuesOf(s0.m.entries), s0.u.highlighted, key);
    assert wished[..0] == [];
    hide SentUpTo, T.CountAlive;
  }

  lemma CountOne(s0: State, key: Key, s: State, input: Input)
    requires StepFits(s0, key, s) && s.u.pc.Counting? && s.u.pc.i < |s0.m.entries|
    ensures StepKept(s0, key, ScreenNext(s, input))
  {
    hide SentUpTo, Sending, E.Keyed;
    var i, wished := s.u.pc.i, E.Wished(ValuesOf(s0.m.entries), s0.u.highlighted, key);
    assert wished[..i + 1][..i] == wished[..i] && wished[i] == FieldsOf(s.m.entries[i]);
  }

  lemma CountEnds(s0: State, key: Key, s: State, input: Input)
    requires StepFits(s0, key, s) && s.u.pc.Counting? && s.u.pc.i == |s0.m.entries|
    ensures StepKept(s0, key, ScreenNext(s, input))
  {
    hide SentUpTo, T.CountAlive;
    var before := ValuesOf(s0.m.entries);
    var wished := E.Wished(before, s0.u.highlighted, key);
    assert wished[..s.u.pc.i] == wished;
    SameCount(before, wished, s0.m.procs);
    if s.u.pc.alive == 0 {
      NothingToSend(s0.m.entries, s.m.entries, s0.m.clock);
    }
  }

  lemma NothingToSend(before: seq<Entry>, after: seq<Entry>, at: int)
    requires SentUpTo(before, after, E.Nothing, at, 0)
    ensures SentUpTo(before, after, E.Nothing, at, |before|)
  {
  }

  lemma SignalOne(s0: State, key: Key, s: State, input: Input)
    requires StepFits(s0, key, s) && s.u.pc.Signalling? && s.u.pc.i < |s0.m.entries|
    ensures StepKept(s0, key, ScreenNext(s, input))
  {
    hide T.CountAlive, SentUpTo, Sending, E.Keyed;
    var s', i := ScreenNext(s, input), s.u.pc.i;
    assert ValuesOf(s'.m.entries) == ValuesOf(s.m.entries);
    assert ValuesOf(s.m.entries)[i].pid == ValuesOf(s0.m.entries)[i].pid;
    OneMoreSent(s0.m.entries, s.m.entries, s'.m.entries, s.u.pc.sig, s.u.pc.at, i);
  }

  lemma SignalEnds(s0: State, key: Key, s: State, input: Input)
    requires StepFits(s0, key, s) && s.u.pc.Signalling? && s.u.pc.i == |s0.m.entries|
    ensures StepKept(s0, key, ScreenNext(s, input))
  {
    hide T.CountAlive, SentUpTo, Sending, E.Keyed, E.Wished;
  }

  lemma OneMoreSent(before: seq<Entry>, mid: seq<Entry>, after: seq<Entry>, sig: Signal, at: int, i: nat)
    requires i < |before| && SentUpTo(before, mid, E.Everybody(sig), at, i) && |after| == |mid|
    requires after[i].sent == if before[i].pid > 0 then mid[i].sent + [Sent(sig, before[i].pid, at)] else mid[i].sent
    requires forall k :: 0 <= k < |before| && k != i ==> after[k] == mid[k]
    ensures SentUpTo(before, after, E.Everybody(sig), at, i + 1)
  {
  }

  lemma CheckExitKept(s0: State, key: Key, s: State, input: Input)
    requires StepFits(s0, key, s) && s.u.pc == CheckExit
    ensures StepKept(s0, key, ScreenNext(s, input))
  {
    T.CountAliveNone(ValuesOf(s0.m.entries), s0.m.procs);
    hide SentUpTo, T.CountAlive;
  }

  lemma RecordOne(s0: State, key: Key, s: State, input: Input)
    requires StepFits(s0, key, s) && s.u.pc.Recording? && s.u.pc.i < |s0.m.entries|
    ensures StepKept(s0, key, ScreenNext(s, input))
  {
    hide T.CountAlive, Sending, E.Keyed, E.Wished;
  }

  lemma RecordEnds(s0: State, key: Key, s: State, input: Input)
    requires StepFits(s0, key, s) && s.u.pc.Recording? && s.u.pc.i == |s0.m.entries|
    ensures StepKept(s0, key, ScreenNext(s, input))
  {
    hide T.CountAlive, SentUpTo, E.Wished;
    T.CountAliveNone(ValuesOf(s0.m.entries), s0.m.procs);
    var wished := E.Wished(ValuesOf(s0.m.entries), s0.u.highlighted, key);
    assert ValuesOf(s.m.entries) == E.AllStopped(wished);
  }

  lemma {:induction false} SameCount(values: seq<Fields>, values': seq<Fields>, procs: ProcTable)
    requires |values'| == |values| && forall k :: 0 <= k < |values| ==> values'[k].pid == values[k].pid
    ensures T.CountAlive(values', procs) == T.CountAlive(values, procs)
    decreases |values|
  {
    if values != [] {
      SameCount(values[..|values| - 1], values'[..|values| - 1], procs);
    }
  }

  lemma InBounds(s0: State, key: Key, s: State)
    requires TurnAt(s0, key, s)
    ensures s.u.pc.Counting? || s.u.pc.Signalling? || s.u.pc.Recording? ==> s.u.pc.i <= |s0.m.entries|
  {
  }

  lemma StepKeepsTurn(s0: State, key: Key, s: State, input: Input)
    requires StepFits(s0, key, s)
    ensures StepKept(s0, key, ScreenNext(s, input))
  {
    hide TurnAt, ScreenNext;
    InBounds(s0, key, s);
    var n := |s0.m.entries|;
    match s.u.pc
    case Handling(_) => HandleKept(s0, key, s, input);
    case CheckTerm => CheckTermKept(s0, key, s, input);
    case Counting(i, _) => if i < n { CountOne(s0, key, s, input); } else { CountEnds(s0, key, s, input); }
    case Signalling(_, i, _) => if i < n { SignalOne(s0, key, s, input); } else { SignalEnds(s0, key, s, input); }
    case CheckExit => CheckExitKept(s0, key, s, input);
    case Recording(i) => if i < n { RecordOne(s0, key, s, input); } else { RecordEnds(s0, key, s, input); }
  }

  /** A run in which only the screen thread steps, from a key on. */
  predicate IsTurn(run: seq<State>, steps: seq<Step>, key: Key)
  {
    && IsRun(run, steps) && Inv(run[0]) && run[0].u.pc == Handling(key)
    && (forall k {:trigger steps[k]} :: 0 <= k < |steps| ==> steps[k].Screen? && InTurn(run[k].u.pc))
  }

  lemma {:induction false} TurnAlongRun(run: seq<State>, steps: seq<Step>, key: Key, k: nat)
    requires IsTurn(run, steps, key) && k < |run|
    ensures StepKept(run[0], key, run[k])
  {
    hide Inv, TurnAt, ScreenNext, ScreenEnabled;
    if k == 0 {
      TurnBegins(run[0], key);
    } else {
      TurnAlongRun(run, steps, key, k - 1);
      NotImmediate(run[0]);
      StepKeepsTurn(run[0], key, run[k - 1], steps[k - 1].input);
    }
  }

  lemma TurnBegins(s: State, key: Key)
    requires s.u.pc == Handling(key)
    ensures TurnAt(s, key, s)
  {
  }

  lemma NotImmediate(s: State)
    requires Inv(s) && s.u.pc.Handling?
    ensures !s.u.immediate
  {
  }

  // ---------------------------------------------------------------- what the turn sends

  function Pairs(sent: seq<Sent>): seq<(nat, Signal)>
  {
    seq(|sent|, k requires 0 <= k < |sent| => (sent[k].pid, sent[k].sig))
  }

  /** What has been added to the entries' histories, row by row. */
  function Added(before: seq<Entry>, after: seq<Entry>): seq<(nat, Signal)>
    requires |after| == |before|
    requires forall k :: 0 <= k < |before| ==> |before[k].sent| <= |after[k].sent|
    decreases |before|
  {
    if before == [] then []
    else
      var last := |before| - 1;
      Added(before[..last], after[..last]) + Pairs(after[last].sent[|before[last].sent|..])
  }

  lemma {:induction false} AddedIsGiven(before: seq<Entry>, after: seq<Entry>, sends: E.Sends, at: int)
    requires SentUpTo(before, after, sends, at, |before|)
    ensures forall k :: 0 <= k < |before| ==> |before[k].sent| <= |after[k].sent|
    ensures Added(before, after) == E.Given(sends, ValuesOf(before))
    decreases |before|
  {
    hide E.Given, Pairs;
    if before == [] {
      NothingGiven(sends);
      assert ValuesOf(before) == [];
    } else {
      var last := |before| - 1;
      assert SentUpTo(before[..last], after[..last], sends, at, last);
      AddedIsGiven(before[..last], after[..last], sends, at);
      assert ValuesOf(before)[..last] == ValuesOf(before[..last]);
      RowAdded(before[last], after[last], sends, at);
      GivenMore(sends, ValuesOf(before));
    }
  }

  lemma NothingGiven(sends: E.Sends)
    ensures E.Given(sends, []) == []
  {
  }

  lemma RowAdded(before: Entry, after: Entry, sends: E.Sends, at: int)
    requires after.sent ==
      if sends.Everybody? && before.pid > 0 then before.sent + [Sent(sends.sig, before.pid, at)] else before.sent
    ensures |before.sent| <= |after.sent|
    ensures Pairs(after.sent[|before.sent|..]) ==
      if sends.Everybody? && before.pid > 0 then [(before.pid, sends.sig)] else []
  {
    var added := after.sent[|before.sent|..];
    if sends.Everybody? && before.pid > 0 {
      assert added == [Sent(sends.sig, before.pid, at)];
    } else {
      assert added == [];
    }
  }

  lemma GivenMore(sends: E.Sends, values: seq<Fields>)
    requires values != []
    ensures
      var last := |values| - 1;
      E.Given(sends, values) == E.Given(sends, values[..last]) +
        if sends.Everybody? && values[last].pid > 0 then [(values[last].pid, sends.sig)] else []
  {
  }

  lemma AddedInTurn(run: seq<State>, steps: seq<Step>, key: Key)
    requires IsTurn(run, steps, key) && !InTurn(run[|steps|].u.pc)
    ensures
      var s, s' := run[0], run[|steps|];
      && |s'.m.entries| == |s.m.entries|
      && (forall k :: 0 <= k < |s.m.entries| ==> |s.m.entries[k].sent| <= |s'.m.entries[k].sent|)
      && Added(s.m.entries, s'.m.entries) == E.Given(Sending(s), ValuesOf(s.m.entries))
  {
    hide Inv, Next, Enabled, Sending;
    TurnAlongRun(run, steps, key, |steps|);
    EndedIs(run[0], key, run[|steps|]);
    AddedIsGiven(run[0].m.entries, run[|steps|].m.entries, Sending(run[0]), run[0].m.clock);
  }

  lemma EndedIs(s0: State, key: Key, s: State)
    requires StepKept(s0, key, s) && !InTurn(s.u.pc)
    ensures SentUpTo(s0.m.entries, s.m.entries, Sending(s0), s0.m.clock, |s0.m.entries|)
  {
  }

  /** The screen thread alone: from the key to the end of the turn its steps change the flags,
      the wishes and the signals sent as EventLoop.Screen.Turn does. */
  lemma ScreenStepsMakeATurn(run: seq<State>, steps: seq<Step>, key: Key)
    requires IsTurn(run, steps, key) && !InTurn(run[|steps|].u.pc)
    ensures
      var s, s' := run[0], run[|steps|];
      var before, after := ValuesOf(s.m.entries), ValuesOf(s'.m.entries);
      && s'.u.pc == (if s'.u.immediate then Left else Drawing(0))
      && E.TurnOf(FlagsOf(s.u), before, s.m.procs, s.m.clock, key, FlagsOf(s'.u), after, Sending(s))
      && SentUpTo(s.m.entries, s'.m.entries, Sending(s), s.m.clock, |before|)
      && (forall k :: 0 <= k < |before| ==> |s.m.entries[k].sent| <= |s'.m.entries[k].sent|)
      && Added(s.m.entries, s'.m.entries) == E.Given(Sending(s), before)
  {
    AddedInTurn(run, steps, key);
    TurnAlongRun(run, steps, key, |steps|);
    assert TurnEnded(run[0], key, run[|steps|]);
  }
}
