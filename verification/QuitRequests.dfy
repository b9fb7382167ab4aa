/** What becomes of a quit request, a quit key or a SIGINT, wherever it finds the screen thread:
    exactly when it is recorded, and so postpones SIGKILL, and when SIGKILL overtakes it. */
module QuitRequests {
  import opened Types
  import opened Supervisor
  import opened SupervisorInvariants
  import opened Escalation
  import opened Leaving

  /** The step sets exit_fiveman. */
  predicate Requests(s: State, step: Step)
  {
    step == HandleSigint || (step.Screen? && s.u.pc == Handling(QuitKey))
  }

  /** The screen thread has not yet decided in this turn. */
  predicate BeforeDecision(pc: ScreenPc)
  {
    pc.Drawing? || pc == AwaitKey || pc.Handling? || pc == CheckTerm || pc.Counting?
  }

  /** The step that ends a count; `pc.alive` is what it found. */
  predicate EndsCount(s: State, step: Step)
  {
    step.Screen? && s.u.pc.Counting? && s.u.pc.i == |s.m.entries|
  }

  /** A count that finds somebody alive before the timeout. */
  predicate CountsInTime(s: State, step: Step, issuedAt: int)
  {
    EndsCount(s, step) && s.u.pc.alive > 0 && !Overdue(issuedAt, s.m.clock)
  }

  predicate InTimeBetween(run: seq<State>, steps: seq<Step>, a: nat, b: nat, issuedAt: int)
    requires |run| == |steps| + 1 && b <= |steps|
  {
    exists c {:trigger steps[c]} :: a < c < b && CountsInTime(run[c], steps[c], issuedAt)
  }

  /** The step that looks at the flags at the end of a turn (lines 417 and 420). */
  predicate TestsExit(s: State, step: Step)
  {
    step.Screen? && s.u.pc == CheckExit
  }

  /** A request in step a, outside the recording of another, and in step d the first test of
      the flags after it. */
  predicate RequestThenTest(run: seq<State>, steps: seq<Step>, a: nat, d: nat)
  {
    && IsRun(run, steps) && Init(run[0]) && a < d < |steps|
    && Requests(run[a], steps[a]) && !run[a].u.pc.Recording?
    && TestsExit(run[d], steps[d])
    && (forall j {:trigger steps[j]} :: a < j < d ==> !TestsExit(run[j], steps[j]))
  }

  predicate Records(run: seq<State>, steps: seq<Step>, a: nat, b: nat)
    requires |run| == |steps| + 1 && b <= |steps|
  {
    exists q {:trigger steps[q]} :: a <= q < b && RecordsQuit(run[q], steps[q])
  }

  /** Where the request of step a finds the screen thread decides: never, if the loop is being
      left; always, if no quit has been recorded before or the count of this turn is over; and
      otherwise if a count finds somebody alive before the timeout. */
  predicate Heard(run: seq<State>, steps: seq<Step>, a: nat, d: nat)
    requires |run| == |steps| + 1 && a < d <= |steps|
  {
    var u := run[a].u;
    && !u.immediate
    && (!u.terminating || !BeforeDecision(u.pc) || InTimeBetween(run, steps, a, d, u.issuedAt))
  }

  // ---------------------------------------------------------------- the four states of a request

  /** No quit has been recorded yet, and this one is going to be. */
  predicate First(s: State)
  {
    s.u.quit && !s.u.terminating && !s.u.immediate && (BeforeDecision(s.u.pc) || s.u.pc == CheckExit)
  }

  /** Nothing is decided yet. */
  predicate Undecided(s: State, issuedAt: int)
  {
    s.u.quit && s.u.terminating && !s.u.immediate && s.u.issuedAt == issuedAt && BeforeDecision(s.u.pc)
  }

  /** The request is going to be recorded: nothing but SIGTERM comes first. */
  predicate Pending(s: State)
  {
    s.u.quit && !s.u.immediate && (s.u.pc == CheckExit || (s.u.pc.Signalling? && s.u.pc.sig == SigTerm))
  }

  lemma RequestArrives(s: State, step: Step)
    requires Inv(s) && Enabled(s, step) && Requests(s, step) && !s.u.pc.Recording?
    ensures
      var s' := Next(s, step);
      if s.u.immediate then s'.u.immediate
      else if !s.u.terminating then First(s')
      else if BeforeDecision(s.u.pc) then Undecided(s', s.u.issuedAt)
      else Pending(s')
  {
  }

  lemma FirstStep(s: State, step: Step)
    requires Inv(s) && Enabled(s, step) && First(s) && !TestsExit(s, step)
    ensures First(Next(s, step))
  {
  }

  lemma UndecidedStep(s: State, step: Step, issuedAt: int)
    requires Enabled(s, step) && Undecided(s, issuedAt)
    ensures
      var s' := Next(s, step);
      if !EndsCount(s, step) then Undecided(s', issuedAt) || (s.u.pc.Counting? && s.u.pc.i > |s.m.entries|)
      else if CountsInTime(s, step, issuedAt) then Pending(s')
      else s'.u.immediate
  {
  }

  lemma PendingStep(s: State, step: Step)
    requires Enabled(s, step) && Pending(s)
    ensures Pending(Next(s, step)) || RecordsQuit(s, step)
    ensures !EndsCount(s, step) && (RecordsQuit(s, step) <==> TestsExit(s, step))
  {
  }

  lemma ImmediateStays(s: State, step: Step)
    requires Flags(s) && Enabled(s, step) && s.u.immediate
    ensures Next(s, step).u.immediate && !RecordsQuit(s, step) && !EndsCount(s, step)
  {
  }

  /** What has become of the request by state j. */
  predicate Stands(run: seq<State>, steps: seq<Step>, a: nat, j: nat)
    requires |run| == |steps| + 1 && a < j <= |steps|
  {
    var u, s := run[a].u, run[j];
    if u.immediate then s.u.immediate
    else if !u.terminating then First(s)
    else if !BeforeDecision(u.pc) then Pending(s)
    else if InTimeBetween(run, steps, a, j, u.issuedAt) then Pending(s)
    else Undecided(s, u.issuedAt) || s.u.immediate
  }

  lemma {:induction false} StandsUntilTest(run: seq<State>, steps: seq<Step>, a: nat, d: nat, j: nat)
    requires RequestThenTest(run, steps, a, d) && a < j <= d
    ensures Stands(run, steps, a, j)
  {
    hide Inv, Init, Next, Enabled, Requests, TestsExit, Stands;
    Reachable(run, steps, j - 1);
    var step := steps[j - 1];
    if j == a + 1 {
      RequestArrives(run[a], step);
      BeginsToStand(run, steps, a);
    } else {
      StandsUntilTest(run, steps, a, d, j - 1);
      assert !TestsExit(run[j - 1], step);
      StandsOn(run, steps, a, j - 1);
    }
  }

  lemma BeginsToStand(run: seq<State>, steps: seq<Step>, a: nat)
    requires |run| == |steps| + 1 && a < |steps|
    requires
      var s, s' := run[a], run[a + 1];
      if s.u.immediate then s'.u.immediate
      else if !s.u.terminating then First(s')
      else if BeforeDecision(s.u.pc) then Undecided(s', s.u.issuedAt)
      else Pending(s')
    ensures Stands(run, steps, a, a + 1)
  {
  }

  lemma StandsOn(run: seq<State>, steps: seq<Step>, a: nat, j: nat)
    requires IsRun(run, steps) && a < j < |steps| && Stands(run, steps, a, j)
    requires Inv(run[j]) && !TestsExit(run[j], steps[j])
    ensures Stands(run, steps, a, j + 1)
  {
    hide Inv, Next, Enabled, First, Undecided, Pending, EndsCount, RecordsQuit, CountsInTime, BeforeDecision, TestsExit;
    var s, step, u := run[j], steps[j], run[a].u;
    SplitInv(s);
    MoreInTime(run, steps, a, j, u.issuedAt);
    if s.u.immediate {
      ImmediateStays(s, step);
    }
    if First(s) {
      FirstStep(s, step);
    }
    if Pending(s) {
      PendingStep(s, step);
    }
    if Undecided(s, u.issuedAt) {
      UndecidedStep(s, step, u.issuedAt);
    }
    StatesExclude(s, u.issuedAt);
    CountsExclude(s, step, u.issuedAt);
  }

  lemma SplitInv(s: State)
    requires Inv(s)
    ensures Flags(s) && (s.u.pc.Counting? ==> s.u.pc.i <= |s.m.entries|)
  {
  }

  lemma MoreInTime(run: seq<State>, steps: seq<Step>, a: nat, j: nat, issuedAt: int)
    requires |run| == |steps| + 1 && a < j < |steps|
    ensures InTimeBetween(run, steps, a, j + 1, issuedAt) <==>
      InTimeBetween(run, steps, a, j, issuedAt) || CountsInTime(run[j], steps[j], issuedAt)
  {
    if c :| a < c < j + 1 && CountsInTime(run[c], steps[c], issuedAt) {
      assert c == j || c < j;
    }
    if CountsInTime(run[j], steps[j], issuedAt) {
      var step := steps[j];
    }
  }

  lemma StatesExclude(s: State, issuedAt: int)
    ensures Pending(s) ==> !Undecided(s, issuedAt) && !s.u.immediate
    ensures First(s) ==> !Undecided(s, issuedAt) && !s.u.immediate
    ensures Undecided(s, issuedAt) ==> !s.u.immediate
  {
  }

  lemma CountsExclude(s: State, step: Step, issuedAt: int)
    ensures CountsInTime(s, step, issuedAt) ==> EndsCount(s, step)
    ensures EndsCount(s, step) ==> s.u.pc.Counting? && !TestsExit(s, step) && !RecordsQuit(s, step)
    ensures RecordsQuit(s, step) ==> TestsExit(s, step)
  {
  }

  // ---------------------------------------------------------------- once the loop is being left

  lemma {:induction false} NeverRecordedOnceImmediate(run: seq<State>, steps: seq<Step>, a: nat, b: nat)
    requires IsRun(run, steps) && Init(run[0]) && a <= b < |run| && run[a].u.immediate
    ensures run[b].u.immediate && !Records(run, steps, a, b)
  {
    hide Next, Enabled, RecordsQuit, Init;
    if a < b {
      NeverRecordedOnceImmediate(run, steps, a, b - 1);
      Reachable(run, steps, b - 1);
      ImmediateStays(run[b - 1], steps[b - 1]);
    }
  }

  /** Between the request and the test nothing is recorded. */
  lemma NotBeforeTest(run: seq<State>, steps: seq<Step>, a: nat, d: nat, e: nat)
    requires RequestThenTest(run, steps, a, d) && a < e <= d
    ensures !Records(run, steps, a, e)
  {
    forall q {:trigger steps[q]} | a <= q < e
      ensures !RecordsQuit(run[q], steps[q])
    {
      if q > a {
        var step := steps[q];
        assert !TestsExit(run[q], step);
      }
    }
  }

  lemma Split(run: seq<State>, steps: seq<Step>, a: nat, b: nat, e: nat)
    requires |run| == |steps| + 1 && a <= b <= e <= |steps|
    ensures Records(run, steps, a, e) <==> Records(run, steps, a, b) || Records(run, steps, b, e)
  {
    if q :| a <= q < e && RecordsQuit(run[q], steps[q]) {
      assert q < b || b <= q;
    }
  }

  // ---------------------------------------------------------------- SIGKILL to everybody

  predicate WasKilled(e: Entry)
  {
    exists k :: 0 <= k < |e.sent| && e.sent[k].sig == SigKill
  }

  /** The SIGKILLs of the last turn have reached entry i, or still will. */
  predicate KillComes(s: State, i: nat)
  {
    && s.u.immediate && i < |s.m.entries| && s.m.entries[i].pid > 0
    && (if s.u.pc.Signalling? && s.u.pc.i <= i then s.u.pc.sig == SigKill else WasKilled(s.m.entries[i]))
  }

  lemma PidStaysPositive(s: State, step: Step, i: nat)
    requires Inv(s) && Enabled(s, step) && i < |s.m.entries| && s.m.entries[i].pid > 0
    ensures |Next(s, step).m.entries| == |s.m.entries| && Next(s, step).m.entries[i].pid > 0
  {
    var e := s.m.entries[i];
    ShapeKept(s, step);
    match step
    case Work(c) =>
      WorkIsOneOf(s, c, i);
      assert Family(e, i, s.m.procs, s.w.pc);
      if s.w.pc.Adopting? && s.w.pc.i == i {
        assert LastOf(e.children) in e.children;
      }
    case Screen(input) => ScreenTouches(s, input, i);
    case _ =>
  }

  lemma KillStillComes(s: State, step: Step, i: nat)
    requires Inv(s) && Enabled(s, step) && KillComes(s, i)
    ensures KillComes(Next(s, step), i)
  {
    PidStaysPositive(s, step, i);
    ImmediateStays(s, step);
    match step
    case Work(c) => WorkKeepsSent(s, c, i);
    case Screen(input) => ScreenKills(s, input, i);
    case _ =>
  }

  lemma ScreenKills(s: State, input: Input, i: nat)
    requires Shape(s) && Flags(s) && ScreenEnabled(s) && KillComes(s, i)
    requires |ScreenNext(s, input).m.entries| == |s.m.entries| && ScreenNext(s, input).m.entries[i].pid > 0
    requires ScreenNext(s, input).u.immediate
    ensures KillComes(ScreenNext(s, input), i)
  {
    var e, e' := s.m.entries[i], ScreenNext(s, input).m.entries[i];
    if s.u.pc.Signalling? {
      if s.u.pc.i == i {
        assert e'.sent == e.sent + [Sent(SigKill, e.pid, s.u.pc.at)];
        assert e'.sent[|e.sent|].sig == SigKill;
      } else if s.u.pc.i > i {
        assert e'.sent == e.sent;
      }
    } else {
      assert e'.sent == e.sent;
    }
  }

  lemma {:induction false} KillComesOverRun(run: seq<State>, steps: seq<Step>, i: nat, a: nat, b: nat)
    requires IsRun(run, steps) && Init(run[0]) && a <= b < |run| && KillComes(run[a], i)
    ensures KillComes(run[b], i)
  {
    hide Next, Enabled, KillComes, Init;
    if a < b {
      KillComesOverRun(run, steps, i, a, b - 1);
      Reachable(run, steps, b - 1);
      KillStillComes(run[b - 1], steps[b - 1], i);
    }
  }

  /** SIGKILL stands in an entry's history only when the loop is about to be left. */
  lemma KilledOnlyWhenImmediate(run: seq<State>, steps: seq<Step>, k: nat, i: nat)
    requires IsRun(run, steps) && Init(run[0]) && k < |run| && i < |run[k].m.entries| && WasKilled(run[k].m.entries[i])
    ensures run[k].u.immediate
  {
    EscalatesOverRun(run, steps, k);
  }

  // ---------------------------------------------------------------- main results

  /** A request is recorded, at the first test of the flags after it, if and only if it is heard
      there; and if not, it never is. */
  lemma RequestRecordedExactlyWhen(run: seq<State>, steps: seq<Step>, a: nat, d: nat, e: nat)
    requires RequestThenTest(run, steps, a, d) && d < e < |run|
    ensures RecordsQuit(run[d], steps[d]) <==> Heard(run, steps, a, d)
    ensures Records(run, steps, a, e) <==> Heard(run, steps, a, d)
  {
    hide Inv, Init, Next, Enabled, Requests;
    StandsUntilTest(run, steps, a, d, d);
    AtTest(run, steps, a, d);
    NotBeforeTest(run, steps, a, d, d);
    Split(run, steps, a, d, e);
    if run[d].u.immediate {
      NeverRecordedOnceImmediate(run, steps, d, e);
    } else {
      var step := steps[d];
      assert Records(run, steps, d, e);
    }
  }

  lemma AtTest(run: seq<State>, steps: seq<Step>, a: nat, d: nat)
    requires RequestThenTest(run, steps, a, d) && Stands(run, steps, a, d)
    ensures RecordsQuit(run[d], steps[d]) <==> Heard(run, steps, a, d)
    ensures RecordsQuit(run[d], steps[d]) <==> !run[d].u.immediate
  {
  }

  /** So whenever SIGKILL has been sent, the request has been recorded before it if and only if
      it was heard. */
  lemma KillAfterRequestExactlyWhen(run: seq<State>, steps: seq<Step>, a: nat, d: nat, e: nat, i: nat)
    requires RequestThenTest(run, steps, a, d) && a < e < |run|
    requires i < |run[e].m.entries| && WasKilled(run[e].m.entries[i])
    ensures Records(run, steps, a, e) <==> Heard(run, steps, a, d)
  {
    hide Inv, Init, Next, Enabled, Requests, Heard;
    RequestRecordedExactlyWhen(run, steps, a, d, d + 1);
    if d < e {
      RequestRecordedExactlyWhen(run, steps, a, d, e);
    } else {
      NotBeforeTest(run, steps, a, d, e);
      KilledOnlyWhenImmediate(run, steps, e, i);
      NeverRecordedOnceImmediate(run, steps, e, d);
    }
  }

  /** A request that arrives while another is being recorded is absorbed: the flag is cleared at
      the end of the recording, the time noted stays that of the earlier request, and unless
      there is a further request nothing is recorded. */
  lemma {:induction false} RequestAbsorbed(run: seq<State>, steps: seq<Step>, a: nat, e: nat)
    requires IsRun(run, steps) && a < e < |run| && Requests(run[a], steps[a]) && run[a].u.pc.Recording?
    requires forall j {:trigger steps[j]} :: a < j < e ==> !Requests(run[j], steps[j])
    ensures !Records(run, steps, a, e) && run[e].u.issuedAt == run[a].u.issuedAt
    ensures run[e].u.pc.Recording? || !run[e].u.quit
  {
    hide Next, Enabled;
    var s, step := run[e - 1], steps[e - 1];
    if e > a + 1 {
      RequestAbsorbed(run, steps, a, e - 1);
      var later := steps[e - 1];
      assert !Requests(s, step);
    }
    AbsorbingStep(s, step, e == a + 1);
    Split(run, steps, a, e - 1, e);
  }

  lemma AbsorbingStep(s: State, step: Step, first: bool)
    requires Enabled(s, step) && (s.u.pc.Recording? || (!s.u.quit && !first)) && (!first ==> !Requests(s, step))
    ensures !RecordsQuit(s, step) && Next(s, step).u.issuedAt == s.u.issuedAt
    ensures Next(s, step).u.pc.Recording? || !Next(s, step).u.quit
  {
  }

  /** A count that finds somebody alive when the timeout has struck: every entry started by then
      has been sent SIGKILL when the loop has been left, and no quit is recorded any more. */
  lemma LateCountKills(run: seq<State>, steps: seq<Step>, c: nat, e: nat, i: nat)
    requires IsRun(run, steps) && Init(run[0]) && c < e < |run|
    requires EndsCount(run[c], steps[c]) && run[c].u.pc.alive > 0 && Overdue(run[c].u.issuedAt, run[c].m.clock)
    requires i < |run[c].m.entries| && run[c].m.entries[i].pid > 0
    ensures !Records(run, steps, c, e)
    ensures HasLeft(run[e]) ==> i < |run[e].m.entries| && WasKilled(run[e].m.entries[i])
  {
    hide Init, Next, Enabled, RecordsQuit;
    var step := steps[c];
    LateCount(run[c], step);
    NeverRecordedOnceImmediate(run, steps, c + 1, e);
    Split(run, steps, c, c + 1, e);
    KillComesOverRun(run, steps, i, c + 1, e);
  }

  lemma LateCount(s: State, step: Step)
    requires Enabled(s, step) && EndsCount(s, step) && s.u.pc.alive > 0 && Overdue(s.u.issuedAt, s.m.clock)
    ensures !RecordsQuit(s, step) && Next(s, step).m.entries == s.m.entries
    ensures Next(s, step).u.immediate && Next(s, step).u.pc == Signalling(SigKill, 0, s.m.clock)
  {
  }

  // ---------------------------------------------------------------- a run in which it happens

  /** The screen thread is at the head of its loop, terminating, and the only child is alive. */
  predicate WaitsForOne(s: State)
  {
    AtHead(s) && s.u.terminating && !s.u.quit && IsAlive(s.m.procs, s.m.entries[0].pid)
  }

  /** A count finds the only child alive. */
  lemma CountOne(run: seq<State>, steps: seq<Step>, s: State, k: nat)
    returns (longer: seq<State>, more: seq<Step>)
    requires IsRun(run, steps) && s == run[|run| - 1] && k <= |steps|
    requires |s.m.entries| == 1 && s.m.lock == Free && s.u.pc == CheckTerm && s.u.terminating
    requires IsAlive(s.m.procs, s.m.entries[0].pid)
    ensures IsRun(longer, more) && longer[0] == run[0] && (AllBrief(steps) ==> AllBrief(more))
    ensures |steps| < |more| && longer[k] == run[k] && (k < |steps| ==> more[k] == steps[k])
    ensures
      var sig := if Overdue(s.u.issuedAt, s.m.clock) then SigKill else SigTerm;
      longer[|longer| - 1] == State(
        s.m.(lock := ByScreen), s.w,
        s.u.(pc := Signalling(sig, 0, s.m.clock), immediate := Overdue(s.u.issuedAt, s.m.clock),
             reason := if Overdue(s.u.issuedAt, s.m.clock) then TimedOut else NotLeaving))
  {
    longer, more := ExtendKeeping(run, steps, Screen(NOTHING), k);
    longer, more := ExtendKeeping(longer, more, Screen(NOTHING), k);
    longer, more := ExtendKeeping(longer, more, Screen(NOTHING), k);
  }

  /** And that child is signalled. */
  lemma SignalOne(run: seq<State>, steps: seq<Step>, s: State, k: nat)
    returns (longer: seq<State>, more: seq<Step>)
    requires IsRun(run, steps) && s == run[|run| - 1] && k <= |steps|
    requires |s.m.entries| == 1 && s.m.entries[0].pid > 0 && s.u.pc.Signalling? && s.u.pc.i == 0
    ensures IsRun(longer, more) && longer[0] == run[0] && (AllBrief(steps) ==> AllBrief(more))
    ensures |steps| < |more| && longer[k] == run[k] && (k < |steps| ==> more[k] == steps[k])
    ensures
      var e := s.m.entries[0];
      longer[|longer| - 1] == State(
        s.m.(lock := Free, entries := [e.(sent := e.sent + [Sent(s.u.pc.sig, e.pid, s.u.pc.at)])]), s.w,
        s.u.(pc := CheckExit))
  {
    longer, more := ExtendKeeping(run, steps, Screen(NOTHING), k);
    longer, more := ExtendKeeping(longer, more, Screen(NOTHING), k);
  }

  /** One turn of one second before the timeout: a SIGTERM, and back to the head of the loop. */
  lemma WaitASecond(run: seq<State>, steps: seq<Step>, s: State, k: nat)
    returns (longer: seq<State>, more: seq<Step>)
    requires IsRun(run, steps) && s == run[|run| - 1] && WaitsForOne(s) && AllBrief(steps) && k <= |steps|
    requires s.m.clock + 1 < s.u.issuedAt + TERM_TIMEOUT
    ensures IsRun(longer, more) && longer[0] == run[0] && AllBrief(more)
    ensures |steps| <= |more| && longer[k] == run[k] && (k < |steps| ==> more[k] == steps[k])
    ensures
      var s' := longer[|longer| - 1];
      && WaitsForOne(s') && s'.u.issuedAt == s.u.issuedAt && s'.m.clock == s.m.clock + 1
      && s'.m.entries[0].pid == s.m.entries[0].pid
  {
    longer, more := DrawAndKey(run, steps, s, Input(OtherKey, 1), k);
    longer, more := CountOne(longer, more, longer[|longer| - 1], k);
    longer, more := SignalOne(longer, more, longer[|longer| - 1], k);
    longer, more := ExtendKeeping(longer, more, Screen(NOTHING), k);
  }

  lemma {:induction false} WaitSeconds(run: seq<State>, steps: seq<Step>, s: State, seconds: nat, k: nat)
    returns (longer: seq<State>, more: seq<Step>)
    requires IsRun(run, steps) && s == run[|run| - 1] && WaitsForOne(s) && AllBrief(steps) && k <= |steps|
    requires s.m.clock + seconds < s.u.issuedAt + TERM_TIMEOUT
    ensures IsRun(longer, more) && longer[0] == run[0] && AllBrief(more)
    ensures |steps| <= |more| && longer[k] == run[k] && (k < |steps| ==> more[k] == steps[k])
    ensures
      var s' := longer[|longer| - 1];
      && WaitsForOne(s') && s'.u.issuedAt == s.u.issuedAt && s'.m.clock == s.m.clock + seconds
      && s'.m.entries[0].pid == s.m.entries[0].pid
    decreases seconds
  {
    longer, more := run, steps;
    if seconds > 0 {
      longer, more := WaitASecond(run, steps, s, k);
      longer, more := WaitSeconds(longer, more, longer[|longer| - 1], seconds - 1, k);
    }
  }

  /** "SIGKILL comes 100 seconds after the latest quit request" is false of quit keys that are
      not recorded: in some run, in which no wait for a key exceeds a second, the quit key of
      step k and the SIGKILL have the same time. */
  lemma FreshQuitKeyThenKill()
    ensures exists run: seq<State>, steps: seq<Step>, k: nat {:trigger IsRun(run, steps), steps[k]} ::
      && IsRun(run, steps) && Init(run[0]) && AllBrief(steps) && k < |steps|
      && steps[k].Screen? && run[k].u.pc == Handling(QuitKey)
      && var m := run[|run| - 1].m;
         |m.entries| == 1 && m.entries[0].sent != [] &&
         m.entries[0].sent[|m.entries[0].sent| - 1] == Sent(SigKill, m.entries[0].pid, run[k].m.clock)
  {
    var run, steps := ReflectFirst();
    run, steps := StartOnly(run, steps, run[|run| - 1]);
    run, steps := PressQuit(run, steps, run[|run| - 1]);
    run, steps := WaitSeconds(run, steps, run[|run| - 1], 99, 0);
    run, steps := Extend(run, steps, Screen(NOTHING));
    run, steps := Extend(run, steps, Screen(NOTHING));
    run, steps := Extend(run, steps, Screen(Input(QuitKey, 1)));
    var k := |steps|;
    run, steps := ExtendKeeping(run, steps, Screen(NOTHING), k);
    run, steps := CountOne(run, steps, run[|run| - 1], k);
    run, steps := SignalOne(run, steps, run[|run| - 1], k);
  }

  /** A quit key is being recorded: the mutex is taken and the clock has been read. */
  lemma BeginRecording(run: seq<State>, steps: seq<Step>, s: State)
    returns (longer: seq<State>, more: seq<Step>)
    requires IsRun(run, steps) && s == run[|run| - 1] && AllBrief(steps) && AtHead(s) && !s.u.terminating && !s.u.quit
    ensures IsRun(longer, more) && longer[0] == run[0] && AllBrief(more)
    ensures longer[|longer| - 1] == State(
      s.m.(lock := ByScreen), s.w,
      s.u.(pc := Recording(0), quit := true, issuedAt := s.m.clock, frame := [s.m.shared[0]]))
  {
    longer, more := DrawAndKey(run, steps, s, Input(QuitKey, 0), 0);
    longer, more := Extend(longer, more, Screen(NOTHING));
    longer, more := Extend(longer, more, Screen(NOTHING));
  }

  /** A second passes, a SIGINT arrives, and the recording ends. */
  lemma Interrupted(run: seq<State>, steps: seq<Step>, s: State)
    returns (longer: seq<State>, more: seq<Step>, k: nat)
    requires IsRun(run, steps) && s == run[|run| - 1] && AllBrief(steps) && |s.m.entries| == 1 && s.u.pc == Recording(0)
    ensures IsRun(longer, more) && longer[0] == run[0] && AllBrief(more)
    ensures k < |more| && more[k] == HandleSigint && longer[k].u.pc.Recording? && longer[k].m.clock == s.m.clock + 1
    ensures longer[|longer| - 1] == State(
      s.m.(clock := s.m.clock + 1, lock := Free, entries := [s.m.entries[0].(desired := INTENT_STOP)]), s.w,
      s.u.(pc := Drawing(0), quit := false, terminating := true, frame := []))
  {
    longer, more := Extend(run, steps, Tick(1));
    k := |more|;
    longer, more := ExtendKeeping(longer, more, HandleSigint, k);
    longer, more := ExtendKeeping(longer, more, Screen(NOTHING), k);
    longer, more := ExtendKeeping(longer, more, Screen(NOTHING), k);
  }

  /** In some run a SIGINT arrives while a quit is being recorded and nothing is requested
      after it; it is absorbed, and SIGKILL comes 99 seconds after it. */
  lemma AbsorbedSigintThenKill()
    ensures exists run: seq<State>, steps: seq<Step>, k: nat {:trigger IsRun(run, steps), steps[k]} ::
      && IsRun(run, steps) && Init(run[0]) && AllBrief(steps) && k < |steps|
      && steps[k] == HandleSigint && run[k].u.pc.Recording?
      && var m := run[|run| - 1].m;
         |m.entries| == 1 && m.entries[0].sent != [] &&
         m.entries[0].sent[|m.entries[0].sent| - 1] == Sent(SigKill, m.entries[0].pid, run[k].m.clock + 99)
  {
    var run, steps := ReflectFirst();
    run, steps := StartOnly(run, steps, run[|run| - 1]);
    run, steps := BeginRecording(run, steps, run[|run| - 1]);
    var k;
    run, steps, k := Interrupted(run, steps, run[|run| - 1]);
    run, steps := WaitSeconds(run, steps, run[|run| - 1], 98, k);
    run, steps := DrawAndKey(run, steps, run[|run| - 1], Input(OtherKey, 1), k);
    run, steps := CountOne(run, steps, run[|run| - 1], k);
    run, steps := SignalOne(run, steps, run[|run| - 1], k);
  }
}
