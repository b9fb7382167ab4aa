/** What a drawn row says: its entry, as one sampling step of the pass that published it found
    it, or, for pass 0, as thread creation did. */
module RowsShown {
  import opened Types
  import opened Supervisor
  import opened SupervisorInvariants
  import opened Snapshots

  /** The row says the pid, the age and the activity of the entry, at that time. */
  predicate SaysEntry(row: Row, e: Entry, procs: ProcTable, clock: int)
  {
    var alive := e.pid > 0 && e.pid in procs && procs[e.pid].status != Gone;
    && row.pid == e.pid && row.age == clock - e.lastChange
    && (row.activity == Active <==> e.intent == INTENT_START && alive)
    && (row.activity == StartingUp <==> e.intent == INTENT_START && !alive)
    && (row.activity == ShuttingDown <==> e.intent == INTENT_STOP && alive)
    && (row.activity == Stopped <==> e.intent == INTENT_STOP && !alive)
  }

  /** The step is the worker's sampling of entry r in pass g, and the row says what it found:
      the entry, a fresh sample if its child answers and one is taken, else the one before, and
      the log flags of the step. */
  predicate SampledHere(s: State, step: Step, s': State, row: Row, r: nat, g: nat)
  {
    && step.Work? && s.w.pc == Sampling(r) && |s.m.published| == g && r < |s.m.entries| && r < |s'.m.entries|
    && var e, procs, c := s.m.entries[r], s.m.procs, step.choice;
       && SaysEntry(row, e, procs, s.m.clock)
       && row.sample == s'.m.entries[r].sample
       && row.sample == (if e.pid > 0 && e.pid in procs && procs[e.pid].status != Gone && c.resample
                         then Taken(e.pid, c.data) else e.sample)
       && row.outActive == c.outActive && row.errActive == c.errActive
  }

  /** Some step before k sampled the row. */
  predicate SampledBefore(run: seq<State>, steps: seq<Step>, k: nat, row: Row, r: nat, g: nat)
    requires |run| == |steps| + 1 && k <= |steps|
  {
    exists j {:trigger steps[j]} :: 0 <= j < k && SampledHere(run[j], steps[j], run[j + 1], row, r, g)
  }

  /** The rows of the pass that has sampled them, published or not. */
  predicate RowsSampled(run: seq<State>, steps: seq<Step>, k: nat)
    requires |run| == |steps| + 1 && k <= |steps|
  {
    var s := run[k];
    && (forall g, r :: 0 < g < |s.m.published| && 0 <= r < |s.m.published[g]| ==>
          SampledBefore(run, steps, k, s.m.published[g][r], r, g))
    && (forall r :: 0 <= r < |s.w.local| && SampledBy(s.w.pc, r) ==>
          SampledBefore(run, steps, k, s.w.local[r], r, |s.m.published|))
    && 0 < |s.m.published| && s.m.published[0] == run[0].m.shared
  }

  lemma Later(run: seq<State>, steps: seq<Step>, k: nat, row: Row, r: nat, g: nat)
    requires |run| == |steps| + 1 && k < |steps| && SampledBefore(run, steps, k, row, r, g)
    ensures SampledBefore(run, steps, k + 1, row, r, g)
  {
  }

  /** The sampling of one row. */
  lemma SamplingSays(s: State, c: Choice, r: nat)
    requires Inv(s) && s.w.pc == Sampling(r) && r < |s.m.entries|
    ensures
      var s' := WorkNext(s, c);
      && |s'.w.local| == |s.w.local| == |s.m.entries| && s'.w.pc == Sampling(r + 1)
      && SampledHere(s, Work(c), s', s'.w.local[r], r, |s.m.published|)
      && s'.m.published == s.m.published
      && forall q :: 0 <= q < |s.w.local| && q != r ==> s'.w.local[q] == s.w.local[q]
  {
    assert StartOrStop(s.m.entries[r].intent);
  }

  /** Any other step: it samples nothing new, and publishes at most what has been sampled. */
  lemma OthersSampleNothing(s: State, step: Step)
    requires Inv(s) && Enabled(s, step) && !(step.Work? && s.w.pc.Sampling? && s.w.pc.i < |s.m.entries|)
    ensures
      var s' := Next(s, step);
      && s'.w.local == s.w.local
      && (forall r :: 0 <= r < |s.w.local| && SampledBy(s'.w.pc, r) ==> SampledBy(s.w.pc, r))
      && (s'.m.published == s.m.published
          || (&& s'.m.published == s.m.published + [s.w.local]
              && (forall r :: 0 <= r < |s.w.local| ==> SampledBy(s.w.pc, r) && !SampledBy(s'.w.pc, r))))
  {
    if step.Work? {
      OthersWork(s, step.choice);
    } else {
      OthersDoNotPublish(s, step);
    }
  }

  lemma OthersWork(s: State, c: Choice)
    requires Inv(s) && WorkEnabled(s, c) && !(s.w.pc.Sampling? && s.w.pc.i < |s.m.entries|)
    ensures
      var s' := WorkNext(s, c);
      && s'.w.local == s.w.local
      && (forall r :: 0 <= r < |s.w.local| && SampledBy(s'.w.pc, r) ==> SampledBy(s.w.pc, r))
      && (s'.m.published == s.m.published
          || (&& s'.m.published == s.m.published + [s.w.local]
              && (forall r :: 0 <= r < |s.w.local| ==> SampledBy(s.w.pc, r) && !SampledBy(s'.w.pc, r))))
  {
    hide Families, Flags, Reflects, Records;
  }

  lemma {:induction false} RowsSampledOverRun(run: seq<State>, steps: seq<Step>, k: nat)
    requires IsRun(run, steps) && Init(run[0]) && k <= |steps|
    ensures RowsSampled(run, steps, k)
  {
    hide Inv, Next, Enabled, SampledBefore, SampledHere;
    if k > 0 {
      RowsSampledOverRun(run, steps, k - 1);
      Reachable(run, steps, k - 1);
      OneStepMore(run, steps, k - 1);
    }
  }

  lemma OneStepMore(run: seq<State>, steps: seq<Step>, k: nat)
    requires IsRun(run, steps) && k < |steps| && Inv(run[k]) && RowsSampled(run, steps, k)
    ensures RowsSampled(run, steps, k + 1)
  {
    hide Inv, Next, Enabled, SampledBefore, SampledHere;
    var s, step, s' := run[k], steps[k], run[k + 1];
    forall row, r: nat, g: nat | SampledBefore(run, steps, k, row, r, g)
      ensures SampledBefore(run, steps, k + 1, row, r, g)
    {
      Later(run, steps, k, row, r, g);
    }
    if step.Work? && s.w.pc.Sampling? && s.w.pc.i < |s.m.entries| {
      var r := s.w.pc.i;
      IsWork(s, step, s');
      SamplingSays(s, step.choice, r);
      JustSampled(run, steps, k, s'.w.local[r], r, |s.m.published|);
    } else {
      OthersSampleNothing(s, step);
    }
  }

  lemma IsWork(s: State, step: Step, s': State)
    requires Enabled(s, step) && step.Work? && s' == Next(s, step)
    ensures s' == WorkNext(s, step.choice) && step == Work(step.choice)
  {
  }

  lemma JustSampled(run: seq<State>, steps: seq<Step>, k: nat, row: Row, r: nat, g: nat)
    requires |run| == |steps| + 1 && k < |steps| && SampledHere(run[k], steps[k], run[k + 1], row, r, g)
    ensures SampledBefore(run, steps, k + 1, row, r, g)
  {
    var step := steps[k];
  }

  /** Row r of any frame, drawn at any time in any run: if it is of pass g > 0, a step of the
      worker in pass g sampled entry r and the row says what it found; if it is of pass 0, it
      says the entry that thread creation found: never started, on its way to be. */
  lemma FramesSayEntries(run: seq<State>, steps: seq<Step>, k: nat, r: nat)
    requires IsRun(run, steps) && Init(run[0]) && k <= |steps| && r < |run[k].u.frame|
    ensures
      var row := run[k].u.frame[r];
      && (row.pass > 0 ==> SampledBefore(run, steps, k, row, r, row.pass))
      && (row.pass == 0 ==>
            && r < |run[0].m.entries| && SaysEntry(row, run[0].m.entries[r], map[], run[0].m.clock)
            && row == Row(StartingUp, 0, run[0].m.clock, 0, Cleared, false, false))
  {
    hide SampledBefore, Next, Enabled;
    RowsSampledOverRun(run, steps, k);
    FramesAreConsistent(run, steps, k);
  }
}
