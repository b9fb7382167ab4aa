/** What the keys do in a run: the arrows move the highlight one row, never past either end, and
    's' and 'l' record a wish for exactly the highlighted entry. */
module Keys {
  import opened Types
  import opened Supervisor
  import opened SupervisorInvariants

  // ---------------------------------------------------------------- one key

  lemma ArrowLaws(row: nat, total: nat)
    requires row < total
    ensures row <= MovedDown(row, total) < total && MovedUp(row) <= row
    ensures row + 1 < total ==> MovedDown(row, total) == row + 1 && MovedUp(MovedDown(row, total)) == row
    ensures MovedDown(row, total) == row ==> row + 1 == total
    ensures row > 0 ==> MovedUp(row) == row - 1 && MovedDown(MovedUp(row), total) == row
    ensures MovedUp(row) == row ==> row == 0
  {
  }

  /** The step that handles a key. */
  predicate Handles(s: State, step: Step, key: Key)
  {
    step.Screen? && s.u.pc == Handling(key)
  }

  /** 's' and 'l' change the wish of the highlighted entry, to STOP and START, and nothing else
      of any entry; no other key changes any entry. */
  lemma KeyWishes(s: State, step: Step, key: Key, i: nat)
    requires Inv(s) && Enabled(s, step) && Handles(s, step, key) && i < |s.m.entries|
    ensures |Next(s, step).m.entries| == |s.m.entries|
    ensures
      var e, e' := s.m.entries[i], Next(s, step).m.entries[i];
      && e' == e.(desired := e'.desired)
      && (key == StopKey && i == s.u.highlighted ==> e'.desired == INTENT_STOP)
      && (key == LaunchKey && i == s.u.highlighted ==> e'.desired == INTENT_START)
      && ((key != StopKey && key != LaunchKey) || i != s.u.highlighted ==> e' == e)
  {
  }

  /** Only the arrows move the highlight. */
  lemma HighlightMoves(s: State, step: Step)
    requires Inv(s) && Enabled(s, step)
    ensures
      var h, h', n := s.u.highlighted, Next(s, step).u.highlighted, |s.m.entries|;
      && |Next(s, step).m.entries| == n
      && (Handles(s, step, UpKey) ==> h' == if h > 0 then h - 1 else 0)
      && (Handles(s, step, DownKey) ==> h' == if h + 1 < n then h + 1 else n - 1)
      && (!Handles(s, step, UpKey) && !Handles(s, step, DownKey) ==> h' == h)
  {
    ShapeKept(s, step);
    if step.Screen? {
      ScreenMoves(s, step.input);
    }
  }

  lemma ScreenMoves(s: State, input: Input)
    requires Inv(s) && ScreenEnabled(s)
    ensures
      var h, h', n := s.u.highlighted, ScreenNext(s, input).u.highlighted, |s.m.entries|;
      && (s.u.pc == Handling(UpKey) ==> h' == if h > 0 then h - 1 else 0)
      && (s.u.pc == Handling(DownKey) ==> h' == if h + 1 < n then h + 1 else n - 1)
      && (s.u.pc != Handling(UpKey) && s.u.pc != Handling(DownKey) ==> h' == h)
  {
    hide Families, Flags, IntentsKnown, Reflects, Records;
  }

  // ---------------------------------------------------------------- runs

  /** How often the key has been handled in the first k steps. */
  function Presses(run: seq<State>, steps: seq<Step>, key: Key, k: nat): nat
    requires |run| == |steps| + 1 && k <= |steps|
  {
    if k == 0 then 0
    else Presses(run, steps, key, k - 1) + if Handles(run[k - 1], steps[k - 1], key) then 1 else 0
  }

  function Least(a: nat, b: nat): nat
  {
    if a < b then a else b
  }

  /** As long as no other arrow has been pressed, d down keys have led to row d, or to the last. */
  lemma {:induction false} DownsMove(run: seq<State>, steps: seq<Step>, k: nat)
    requires IsRun(run, steps) && Init(run[0]) && k <= |steps| && Presses(run, steps, UpKey, k) == 0
    ensures |run[k].m.entries| == |run[0].m.entries| > 0
    ensures run[k].u.highlighted == Least(Presses(run, steps, DownKey, k), |run[0].m.entries| - 1)
  {
    hide Inv, Next, Enabled, Handles;
    BeginsAtTop(run[0]);
    if k > 0 {
      DownsMove(run, steps, k - 1);
      Reachable(run, steps, k - 1);
      HighlightMoves(run[k - 1], steps[k - 1]);
      HandlesOne(run[k - 1], steps[k - 1]);
    }
  }

  lemma BeginsAtTop(s: State)
    requires Init(s)
    ensures s.u.highlighted == 0 && |s.m.entries| > 0
  {
  }

  lemma HandlesOne(s: State, step: Step)
    ensures !(Handles(s, step, UpKey) && Handles(s, step, DownKey))
  {
  }

  /** From row a, u up keys without a down key lead u rows up, or to the first. */
  lemma {:induction false} UpsMove(run: seq<State>, steps: seq<Step>, a: nat, k: nat)
    requires IsRun(run, steps) && Init(run[0]) && a <= k <= |steps|
    requires Presses(run, steps, DownKey, k) == Presses(run, steps, DownKey, a)
    ensures Presses(run, steps, UpKey, a) <= Presses(run, steps, UpKey, k)
    ensures
      var u, h := Presses(run, steps, UpKey, k) - Presses(run, steps, UpKey, a), run[a].u.highlighted;
      run[k].u.highlighted == if u < h then h - u else 0
  {
    hide Inv, Next, Enabled, Handles;
    if a < k {
      PressesGrow(run, steps, DownKey, a, k - 1);
      UpsMove(run, steps, a, k - 1);
      Reachable(run, steps, k - 1);
      HighlightMoves(run[k - 1], steps[k - 1]);
      HandlesOne(run[k - 1], steps[k - 1]);
    }
  }

  lemma {:induction false} PressesGrow(run: seq<State>, steps: seq<Step>, key: Key, a: nat, k: nat)
    requires |run| == |steps| + 1 && a <= k <= |steps|
    ensures Presses(run, steps, key, a) <= Presses(run, steps, key, k)
  {
    if a < k {
      PressesGrow(run, steps, key, a, k - 1);
    }
  }

  /** In every run: d down keys, no up key, then 's': STOP is recorded for exactly row d, or the
      last row if there are not so many. */
  lemma DownsThenStop(run: seq<State>, steps: seq<Step>, k: nat, i: nat)
    requires IsRun(run, steps) && Init(run[0]) && k < |steps| && i < |run[0].m.entries|
    requires Presses(run, steps, UpKey, k) == 0 && Handles(run[k], steps[k], StopKey)
    ensures |run[k + 1].m.entries| == |run[k].m.entries| == |run[0].m.entries|
    ensures
      var row := Least(Presses(run, steps, DownKey, k), |run[0].m.entries| - 1);
      var e, e' := run[k].m.entries[i], run[k + 1].m.entries[i];
      e' == if i == row then e.(desired := INTENT_STOP) else e
  {
    hide Inv, Next, Enabled, Presses;
    DownsMove(run, steps, k);
    Reachable(run, steps, k);
    var step := steps[k];
    KeyWishes(run[k], step, StopKey, i);
  }
}
