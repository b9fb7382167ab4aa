/** The screen thread's escalation: SIGTERM while it waits, at most one SIGKILL, and only when
    the latest recorded quit is 100 seconds old. */
module Escalation {
  import opened Types
  import opened Supervisor
  import opened SupervisorInvariants

  // ---------------------------------------------------------------- what is sent

  predicate AllTerms(sent: seq<Sent>)
  {
    forall k :: 0 <= k < |sent| ==> sent[k].sig == SigTerm
  }

  /** SIGTERMs, then perhaps one SIGKILL, sent at `issuedAt + 100` or later. */
  predicate TermsThenKill(sent: seq<Sent>, issuedAt: int)
  {
    || AllTerms(sent)
    || (&& sent != [] && AllTerms(sent[..|sent| - 1])
        && sent[|sent| - 1].sig == SigKill && sent[|sent| - 1].at >= issuedAt + TERM_TIMEOUT)
  }

  /** Entry k has not been sent SIGKILL: the timeout has not struck or has not reached it. */
  predicate Spared(u: ScreenThread, k: nat)
  {
    !u.immediate || u.reason == NobodyAlive || (u.pc.Signalling? && u.pc.i <= k)
  }

  predicate Escalates(s: State)
  {
    && (s.u.pc.Signalling? && s.u.pc.sig == SigKill ==> s.u.pc.at >= s.u.issuedAt + TERM_TIMEOUT)
    && (forall k :: 0 <= k < |s.m.entries| ==>
          && TermsThenKill(s.m.entries[k].sent, s.u.issuedAt)
          && (Spared(s.u, k) ==> AllTerms(s.m.entries[k].sent)))
  }

  lemma TermsGrow(sent: seq<Sent>, issuedAt: int, more: Sent)
    requires AllTerms(sent)
    requires more.sig == SigKill ==> more.at >= issuedAt + TERM_TIMEOUT
    ensures TermsThenKill(sent + [more], issuedAt)
    ensures more.sig == SigTerm ==> AllTerms(sent + [more])
  {
    assert (sent + [more])[..|sent|] == sent;
  }

  lemma WorkKeepsSent(s: State, c: Choice, k: nat)
    requires k < |s.m.entries|
    ensures |WorkNext(s, c).m.entries| == |s.m.entries| && WorkNext(s, c).u == s.u
    ensures WorkNext(s, c).m.entries[k].sent == s.m.entries[k].sent
  {
  }

  lemma SignalEscalates(s: State, input: Input)
    requires Shape(s) && Flags(s) && Escalates(s) && s.u.pc.Signalling?
    ensures Escalates(ScreenNext(s, input))
  {
    var i := s.u.pc.i;
    if i < |s.m.entries| {
      TermsGrow(s.m.entries[i].sent, s.u.issuedAt, Sent(s.u.pc.sig, s.m.entries[i].pid, s.u.pc.at));
    }
  }

  lemma ElsewhereKeepsSent(s: State, input: Input, k: nat)
    requires Shape(s) && Flags(s) && ScreenEnabled(s) && !s.u.pc.Signalling? && k < |s.m.entries|
    ensures |ScreenNext(s, input).m.entries| == |s.m.entries|
    ensures ScreenNext(s, input).m.entries[k].sent == s.m.entries[k].sent
    ensures Spared(ScreenNext(s, input).u, k) ==> Spared(s.u, k)
    ensures ScreenNext(s, input).u.issuedAt == s.u.issuedAt || Spared(s.u, k)
  {
  }

  lemma ElsewhereEscalates(s: State, input: Input)
    requires Shape(s) && Flags(s) && Escalates(s) && ScreenEnabled(s) && !s.u.pc.Signalling?
    ensures Escalates(ScreenNext(s, input))
  {
    var s' := ScreenNext(s, input);
    ScreenKeepsShape(s, input);
    forall k | 0 <= k < |s'.m.entries|
      ensures TermsThenKill(s'.m.entries[k].sent, s'.u.issuedAt)
      ensures Spared(s'.u, k) ==> AllTerms(s'.m.entries[k].sent)
    {
      ElsewhereKeepsSent(s, input, k);
    }
    KillIsLate(s, input);
  }

  lemma KillIsLate(s: State, input: Input)
    requires !s.u.pc.Signalling?
    ensures
      var u := ScreenNext(s, input).u;
      u.pc.Signalling? && u.pc.sig == SigKill ==> u.pc.at >= u.issuedAt + TERM_TIMEOUT
  {
  }

  lemma EscalatesKept(s: State, step: Step)
    requires Shape(s) && Flags(s) && Escalates(s) && Enabled(s, step)
    ensures Escalates(Next(s, step))
  {
    match step
    case Work(c) =>
      forall k | 0 <= k < |s.m.entries|
        ensures |WorkNext(s, c).m.entries| == |s.m.entries| && WorkNext(s, c).u == s.u
        ensures WorkNext(s, c).m.entries[k].sent == s.m.entries[k].sent
      {
        WorkKeepsSent(s, c, k);
      }
    case Screen(input) =>
      if s.u.pc.Signalling? { SignalEscalates(s, input); } else { ElsewhereEscalates(s, input); }
    case _ =>
  }

  lemma {:induction false} EscalatesOverRun(run: seq<State>, steps: seq<Step>, k: nat)
    requires IsRun(run, steps) && Init(run[0]) && k < |run|
    ensures Escalates(run[k])
  {
    if k > 0 {
      EscalatesOverRun(run, steps, k - 1);
      Reachable(run, steps, k - 1);
      EscalatesKept(run[k - 1], steps[k - 1]);
    }
  }

  /** The step that starts recording a quit: it takes the mutex and reads the clock. */
  predicate RecordsQuit(s: State, step: Step)
  {
    step.Screen? && s.u.pc == CheckExit && !s.u.immediate && s.u.quit
  }

  /** term_issued_at is at least the time of every quit recorded so far. */
  lemma {:induction false} IssuedAtLatestQuit(run: seq<State>, steps: seq<Step>, q: nat, k: nat)
    requires IsRun(run, steps) && q < k < |run| && RecordsQuit(run[q], steps[q])
    ensures run[q].m.clock <= run[k].u.issuedAt && run[q].m.clock <= run[k].m.clock
  {
    var before, step := run[k - 1], steps[k - 1];
    assert Enabled(before, step) && run[k] == Next(before, step);
    ClockGrows(before, step);
    if q + 1 < k {
      IssuedAtLatestQuit(run, steps, q, k - 1);
    } else {
      RecordingReadsClock(before, step);
    }
  }

  lemma RecordingReadsClock(s: State, step: Step)
    requires Enabled(s, step) && RecordsQuit(s, step)
    ensures Next(s, step).u.issuedAt == s.m.clock
  {
  }

  lemma ClockGrows(s: State, step: Step)
    requires Enabled(s, step)
    ensures s.m.clock <= Next(s, step).m.clock
    ensures Next(s, step).u.issuedAt == s.u.issuedAt || Next(s, step).u.issuedAt == s.m.clock
  {
  }

  /** What the screen thread sends goes to the entry's own children. */
  predicate SendsToOwn(m: Memory)
  {
    forall i, k :: 0 <= i < |m.entries| && 0 <= k < |m.entries[i].sent| ==>
      m.entries[i].sent[k].pid in m.entries[i].children
  }

  lemma SendsToOwnKept(s: State, step: Step, i: nat)
    requires Inv(s) && Enabled(s, step) && i < |s.m.entries|
    requires forall k :: 0 <= k < |s.m.entries[i].sent| ==> s.m.entries[i].sent[k].pid in s.m.entries[i].children
    ensures |Next(s, step).m.entries| == |s.m.entries|
    ensures
      var e' := Next(s, step).m.entries[i];
      forall k :: 0 <= k < |e'.sent| ==> e'.sent[k].pid in e'.children
  {
    var e := s.m.entries[i];
    match step
    case Work(c) =>
      WorkKeepsSent(s, c, i);
      WorkIsOneOf(s, c, i);
    case Screen(input) =>
      ScreenTouches(s, input, i);
      assert Family(e, i, s.m.procs, s.w.pc);
      ScreenSends(s, input, i);
    case _ =>
  }

  lemma ScreenSends(s: State, input: Input, i: nat)
    requires i < |s.m.entries|
    ensures |ScreenNext(s, input).m.entries| == |s.m.entries|
    ensures
      var e, sent := s.m.entries[i], ScreenNext(s, input).m.entries[i].sent;
      sent == e.sent || (e.pid > 0 && exists sig, at :: sent == e.sent + [Sent(sig, e.pid, at)])
  {
  }

  lemma {:induction false} SendsToOwnOverRun(run: seq<State>, steps: seq<Step>, k: nat)
    requires IsRun(run, steps) && Init(run[0]) && k < |run|
    ensures SendsToOwn(run[k].m)
  {
    if k > 0 {
      SendsToOwnOverRun(run, steps, k - 1);
      Reachable(run, steps, k - 1);
      ShapeKept(run[k - 1], steps[k - 1]);
      forall i | 0 <= i < |run[k].m.entries|
        ensures
          var e := run[k].m.entries[i];
          forall j :: 0 <= j < |e.sent| ==> e.sent[j].pid in e.children
      {
        SendsToOwnKept(run[k - 1], steps[k - 1], i);
      }
    }
  }

  /** In every run the screen thread sends to an entry only SIGTERMs followed by at most one
      SIGKILL, only to children of that entry, and the SIGKILL comes 100 seconds or more
      after every quit that was recorded before. */
  lemma PoliteEscalation(run: seq<State>, steps: seq<Step>, k: nat, i: nat)
    requires IsRun(run, steps) && Init(run[0]) && k < |run| && i < |run[0].m.entries|
    ensures |run[k].m.entries| == |run[0].m.entries|
    ensures
      var e := run[k].m.entries[i];
      && (forall j :: 0 <= j < |e.sent| ==> e.sent[j].pid in e.children)
      && (forall j :: 0 <= j < |e.sent| - 1 ==> e.sent[j].sig == SigTerm)
      && (forall j, q ::
            0 <= j < |e.sent| && e.sent[j].sig == SigKill && 0 <= q < k && RecordsQuit(run[q], steps[q]) ==>
              run[q].m.clock + TERM_TIMEOUT <= e.sent[j].at)
  {
    hide Inv, Next, RecordsQuit;
    Reachable(run, steps, k);
    EscalatesOverRun(run, steps, k);
    SendsToOwnOverRun(run, steps, k);
    var e := run[k].m.entries[i];
    forall j | 0 <= j < |e.sent| - 1
      ensures e.sent[j].sig == SigTerm
    {
      assert e.sent[j] == e.sent[..|e.sent| - 1][j];
    }
    forall q | 0 <= q < k && RecordsQuit(run[q], steps[q])
      ensures run[q].m.clock <= run[k].u.issuedAt
    {
      IssuedAtLatestQuit(run, steps, q, k);
    }
  }
}
