/** What the screen shows: each drawn row is one whole row of one array, published at creation
    or by one finished worker pass, although rows are copied piecemeal and the mutex is
    released between drawn rows; and a row never mixes two children. */
module Snapshots {
  import opened Types
  import opened Supervisor
  import opened SupervisorInvariants

  function Latest(m: Memory): seq<Row>
    requires m.published != []
  {
    m.published[|m.published| - 1]
  }

  /** How far the publishing copy has come, row by row. */
  predicate CopiedSoFar(m: Memory, local: seq<Row>, i: nat, half: bool)
    requires m.published != []
  {
    var n := |m.shared|;
    && |local| == n && |Latest(m)| == n
    && (forall r :: 0 <= r < n && r < i ==> m.shared[r] == local[r])
    && (half && i < n ==> m.shared[i] == HalfCopied(Latest(m)[i], local[i]))
    && (forall r :: 0 <= r < n && r >= (if half then i + 1 else i) ==> m.shared[r] == Latest(m)[r])
  }

  /** Unless the worker is copying, the shared array is the array published last. */
  predicate Published(s: State)
  {
    && s.m.published != []
    && (if s.w.pc.Copying? then CopiedSoFar(s.m, s.w.local, s.w.pc.i, s.w.pc.half)
        else s.m.shared == Latest(s.m))
  }

  /** The rows the worker has sampled in the pass it is in carry that pass's number, and
      every published array is the work of one pass. */
  predicate OnePassEach(s: State)
  {
    && (forall g, r :: 0 <= g < |s.m.published| && 0 <= r < |s.m.published[g]| ==> s.m.published[g][r].pass == g)
    && (forall r :: 0 <= r < |s.w.local| && SampledBy(s.w.pc, r) ==> s.w.local[r].pass == |s.m.published|)
  }

  predicate SampledBy(pc: WorkerPc, r: nat)
  {
    match pc
    case Sampling(i) => r < i
    case AtPublish => true
    case Copying(_, _) => true
    case _ => false
  }

  /** Every row of the frame is a whole row of a published array, and going down the rows
      the passes never get older. */
  predicate FrameWhole(frame: seq<Row>, published: seq<seq<Row>>)
  {
    && (forall r :: 0 <= r < |frame| ==>
          frame[r].pass < |published| && r < |published[frame[r].pass]| && frame[r] == published[frame[r].pass][r])
    && (forall q, r :: 0 <= q < r < |frame| ==> frame[q].pass <= frame[r].pass)
  }

  predicate FrameInProgress(s: State)
  {
    && (s.u.pc.Drawing? ==> |s.u.frame| == s.u.pc.r)
    && FrameWhole(s.u.frame, s.m.published)
  }

  lemma PublishedKept(s: State, step: Step)
    requires Shape(s) && Published(s) && Enabled(s, step)
    ensures Published(Next(s, step))
  {
    if step.Work? {
      WorkPublishes(s, step.choice);
    } else {
      OthersDoNotPublish(s, step);
    }
  }

  lemma OthersDoNotPublish(s: State, step: Step)
    requires Enabled(s, step) && !step.Work?
    ensures Next(s, step).m.shared == s.m.shared && Next(s, step).m.published == s.m.published
    ensures Next(s, step).w == s.w
  {
  }

  lemma WorkPublishes(s: State, c: Choice)
    requires Shape(s) && Published(s) && WorkEnabled(s, c)
    ensures Published(WorkNext(s, c))
    ensures s.m.published <= WorkNext(s, c).m.published
  {
    if s.w.pc.Copying? && s.w.pc.i == |s.m.shared| {
      assert s.m.shared == s.w.local;
    }
  }

  lemma OnePassEachKept(s: State, step: Step)
    requires Shape(s) && OnePassEach(s) && Enabled(s, step)
    ensures OnePassEach(Next(s, step))
  {
    if step.Work? {
      WorkIsOnePass(s, step.choice);
    } else {
      OthersDoNotPublish(s, step);
    }
  }

  lemma WorkIsOnePass(s: State, c: Choice)
    requires Shape(s) && OnePassEach(s) && WorkEnabled(s, c)
    ensures OnePassEach(WorkNext(s, c))
  {
    var s' := WorkNext(s, c);
    if s.w.pc.Copying? {
      assert forall g :: 0 <= g < |s.m.published| ==> s'.m.published[g] == s.m.published[g];
    } else if s.w.pc.Sampling? {
      assert s'.m.published == s.m.published;
    } else {
      NotSampling(s, c);
    }
  }

  lemma NotSampling(s: State, c: Choice)
    requires Shape(s) && WorkEnabled(s, c) && !s.w.pc.Copying? && !s.w.pc.Sampling?
    ensures WorkNext(s, c).m.published == s.m.published && WorkNext(s, c).w.local == s.w.local
    ensures forall r: nat :: SampledBy(WorkNext(s, c).w.pc, r) ==> SampledBy(s.w.pc, r)
  {
  }

  lemma WholeLater(frame: seq<Row>, published: seq<seq<Row>>, later: seq<seq<Row>>)
    requires FrameWhole(frame, published) && published <= later
    ensures FrameWhole(frame, later)
  {
  }

  /** A row read under the mutex extends a whole frame to a whole frame. */
  lemma DrawRow(s: State, input: Input)
    requires Shape(s) && Published(s) && OnePassEach(s) && FrameInProgress(s) && ScreenEnabled(s)
    requires s.u.pc.Drawing? && s.u.pc.r < |s.m.shared|
    ensures FrameInProgress(ScreenNext(s, input))
  {
    var r := s.u.pc.r;
    assert s.m.shared[r] == Latest(s.m)[r];
    assert s.m.shared[r].pass == |s.m.published| - 1;
  }

  lemma OthersKeepFrame(s: State, input: Input)
    requires !s.u.pc.Drawing? || s.u.pc.r >= |s.m.shared|
    ensures
      var u := ScreenNext(s, input).u;
      && (u.frame == s.u.frame || u.frame == [])
      && (u.pc.Drawing? ==> u.frame == [] && u.pc.r == 0)
    ensures ScreenNext(s, input).m.published == s.m.published
  {
    hide Handled, Counted;
    match s.u.pc
    case Handling(key) => HandledKeepsFrame(s, key);
    case Counting(_, alive) => CountedKeepsFrame(s, alive);
    case _ =>
  }

  lemma HandledKeepsFrame(s: State, key: Key)
    ensures Handled(s, key).u.frame == s.u.frame && Handled(s, key).u.pc == CheckTerm
    ensures Handled(s, key).m.published == s.m.published
  {
  }

  lemma CountedKeepsFrame(s: State, alive: nat)
    ensures Counted(s, alive).u.frame == s.u.frame && !Counted(s, alive).u.pc.Drawing?
    ensures Counted(s, alive).m.published == s.m.published
  {
  }

  lemma FrameKept(s: State, step: Step)
    requires Shape(s) && Published(s) && OnePassEach(s) && FrameInProgress(s) && Enabled(s, step)
    ensures FrameInProgress(Next(s, step))
  {
    match step
    case Work(c) =>
      WorkPublishes(s, c);
      WholeLater(s.u.frame, s.m.published, WorkNext(s, c).m.published);
    case Screen(input) =>
      if s.u.pc.Drawing? && s.u.pc.r < |s.m.shared| {
        DrawRow(s, input);
      } else {
        OthersKeepFrame(s, input);
      }
    case _ =>
  }

  // ---------------------------------------------------------------- no row mixes two children

  /** The row of entry e shows a child of e, or none; a sample in it measured that child. */
  predicate RowSound(row: Row, children: seq<nat>)
  {
    && (row.pid == 0 || row.pid in children)
    && (row.sample.Taken? ==> row.sample.of == row.pid)
    && row.activity != Unknown
  }

  predicate RowsSound(rows: seq<Row>, entries: seq<Entry>)
  {
    |rows| == |entries| && forall r :: 0 <= r < |rows| ==> RowSound(rows[r], entries[r].children)
  }

  /** An entry's sample measured its pid; it is cleared before a new child is spawned. */
  predicate SampleOfPid(e: Entry, i: nat, pc: WorkerPc)
  {
    if StartsEntry(pc, i) then e.sample == Cleared
    else e.sample.Taken? ==> e.sample.of == e.pid
  }

  predicate NoMixing(s: State)
  {
    && (forall i :: 0 <= i < |s.m.entries| ==> SampleOfPid(s.m.entries[i], i, s.w.pc))
    && RowsSound(s.w.local, s.m.entries)
    && (forall g :: 0 <= g < |s.m.published| ==> RowsSound(s.m.published[g], s.m.entries))
  }

  lemma WorkSamplesPid(s: State, c: Choice, i: nat)
    requires Shape(s) && WorkEnabled(s, c) && i < |s.m.entries| && SampleOfPid(s.m.entries[i], i, s.w.pc)
    ensures |WorkNext(s, c).m.entries| == |s.m.entries|
    ensures SampleOfPid(WorkNext(s, c).m.entries[i], i, WorkNext(s, c).w.pc)
  {
    hide Converged;
    if s.w.pc.Converging? {
      ConvergingSamplesPid(s, c, i);
    }
  }

  lemma ConvergingSamplesPid(s: State, c: Choice, i: nat)
    requires Shape(s) && s.w.pc.Converging? && i < |s.m.entries| && SampleOfPid(s.m.entries[i], i, s.w.pc)
    ensures |WorkNext(s, c).m.entries| == |s.m.entries|
    ensures SampleOfPid(WorkNext(s, c).m.entries[i], i, WorkNext(s, c).w.pc)
  {
  }

  lemma SampleKept(s: State, step: Step, i: nat)
    requires Shape(s) && Enabled(s, step) && i < |s.m.entries| && SampleOfPid(s.m.entries[i], i, s.w.pc)
    ensures |Next(s, step).m.entries| == |s.m.entries|
    ensures SampleOfPid(Next(s, step).m.entries[i], i, Next(s, step).w.pc)
  {
    match step
    case Work(c) => WorkSamplesPid(s, c, i);
    case Screen(input) => ScreenTouches(s, input, i);
    case _ =>
  }

  lemma ChildrenGrow(s: State, step: Step, i: nat)
    requires Shape(s) && Enabled(s, step) && i < |s.m.entries|
    ensures |Next(s, step).m.entries| == |s.m.entries|
    ensures s.m.entries[i].children <= Next(s, step).m.entries[i].children
  {
    match step
    case Work(c) => WorkIsOneOf(s, c, i);
    case Screen(input) => ScreenTouches(s, input, i);
    case _ =>
  }

  lemma RowsStaySound(s: State, step: Step, rows: seq<Row>)
    requires Shape(s) && Enabled(s, step) && RowsSound(rows, s.m.entries)
    ensures RowsSound(rows, Next(s, step).m.entries)
  {
    ShapeKept(s, step);
    forall r | 0 <= r < |rows|
      ensures RowSound(rows[r], Next(s, step).m.entries[r].children)
    {
      ChildrenGrow(s, step, r);
    }
  }

  /** The row the worker fills is sound, and it leaves the other rows alone. */
  lemma ViewSound(s: State, c: Choice)
    requires Inv(s) && NoMixing(s) && WorkEnabled(s, c) && s.w.pc.Sampling? && s.w.pc.i < |s.m.entries|
    ensures RowsSound(WorkNext(s, c).w.local, WorkNext(s, c).m.entries)
  {
    var i := s.w.pc.i;
    assert Family(s.m.entries[i], i, s.m.procs, s.w.pc);
    assert SampleOfPid(s.m.entries[i], i, s.w.pc);
  }

  lemma LocalOnlySampled(s: State, step: Step)
    requires Shape(s) && Enabled(s, step)
    requires step.Work? ==> !s.w.pc.Sampling? || s.w.pc.i >= |s.m.entries|
    ensures Next(s, step).w.local == s.w.local
    ensures Next(s, step).m.published == s.m.published || Next(s, step).m.published == s.m.published + [s.w.local]
  {
  }

  lemma NoMixingKept(s: State, step: Step)
    requires Inv(s) && NoMixing(s) && Enabled(s, step)
    ensures NoMixing(Next(s, step))
  {
    var s' := Next(s, step);
    ShapeKept(s, step);
    forall i | 0 <= i < |s'.m.entries|
      ensures SampleOfPid(s'.m.entries[i], i, s'.w.pc)
    {
      SampleKept(s, step, i);
    }
    if step.Work? && s.w.pc.Sampling? && s.w.pc.i < |s.m.entries| {
      ViewSound(s, step.choice);
      assert s'.m.published == s.m.published;
    } else {
      LocalOnlySampled(s, step);
      RowsStaySound(s, step, s.w.local);
    }
    forall g | 0 <= g < |s'.m.published|
      ensures RowsSound(s'.m.published[g], s'.m.entries)
    {
      if g < |s.m.published| {
        assert s'.m.published[g] == s.m.published[g];
        RowsStaySound(s, step, s.m.published[g]);
      }
    }
  }

  // ---------------------------------------------------------------- main result

  predicate Snapshots(s: State)
  {
    Published(s) && OnePassEach(s) && FrameInProgress(s) && NoMixing(s)
  }

  lemma {:induction false} SnapshotsOverRun(run: seq<State>, steps: seq<Step>, k: nat)
    requires IsRun(run, steps) && Init(run[0]) && k < |run|
    ensures Snapshots(run[k])
  {
    if k > 0 {
      SnapshotsOverRun(run, steps, k - 1);
      Reachable(run, steps, k - 1);
      PublishedKept(run[k - 1], steps[k - 1]);
      OnePassEachKept(run[k - 1], steps[k - 1]);
      FrameKept(run[k - 1], steps[k - 1]);
      NoMixingKept(run[k - 1], steps[k - 1]);
    }
  }

  /** In every drawn frame, finished or not, row r is the whole row r of the array published by
      pass number `pass` (0: by creation); the passes do not decrease going down the rows; and
      the row shows one child of its own entry, with that child's statistics or none. */
  lemma FramesAreConsistent(run: seq<State>, steps: seq<Step>, k: nat)
    requires IsRun(run, steps) && Init(run[0]) && k < |run|
    ensures
      var s := run[k];
      && |s.u.frame| <= |s.m.entries|
      && (forall r :: 0 <= r < |s.u.frame| ==>
            var row := s.u.frame[r];
            && row.pass < |s.m.published| && r < |s.m.published[row.pass]|
            && row == s.m.published[row.pass][r]
            && RowSound(row, s.m.entries[r].children))
      && (forall q, r :: 0 <= q < r < |s.u.frame| ==> s.u.frame[q].pass <= s.u.frame[r].pass)
  {
    Reachable(run, steps, k);
    SnapshotsOverRun(run, steps, k);
    var s := run[k];
    forall r | 0 <= r < |s.u.frame|
      ensures r < |s.m.entries| && RowSound(s.u.frame[r], s.m.entries[r].children)
    {
      assert RowsSound(s.m.published[s.u.frame[r].pass], s.m.entries);
    }
    assert s.u.frame != [] ==> s.u.frame[|s.u.frame| - 1].pass < |s.m.published|;
  }
}
