/** The values shared by the supervisor's threads: what `fiveman_types.h` declares, the
    status the operating system keeps for each child, and the per-entry decisions that
    both the concurrent model and the linked-table code are built from. */
module Types {

  // FIVEMAN_INTENT, by number: `calloc` leaves a fresh `desired_intent` at 0, which is START.
  const INTENT_START: int := 0
  const INTENT_SIG: int := 1
  const INTENT_STOP: int := 2
  const INTENT_NONE: int := 3

  // draw_screen's term_timeout, in seconds.
  const TERM_TIMEOUT: int := 100

  /** The timeout of a quit recorded at `issuedAt` has struck. */
  predicate Overdue(issuedAt: int, now: int)
  {
    now - issuedAt >= TERM_TIMEOUT
  }

  datatype Signal = SigTerm | SigKill

  /** The operating system's view of a child. A Zombie still answers `kill(pid, 0)`. */
  datatype Status = Running | Zombie | Gone

  datatype Proc = Proc(owner: nat, status: Status)

  type ProcTable = map<nat, Proc>

  datatype Activity = Stopped | Active | StartingUp | ShuttingDown | Unknown

  /** A statistics sample. `Taken` remembers which child was measured. */
  datatype Sample = Cleared | Taken(of: nat, data: int)

  /** `kill(pid, 0) == 0`, which fails only for a pid that is gone. */
  predicate Answers(procs: ProcTable, pid: nat)
  {
    pid in procs && procs[pid].status != Gone
  }

  /** fiveman_process_state_is_alive: pid 0 means "never started". */
  predicate IsAlive(procs: ProcTable, pid: nat)
  {
    pid > 0 && Answers(procs, pid)
  }

  /** `while (waitpid(pid, 0, WNOHANG) > 0) {}` behind the `pid > 0` test. */
  function Reaped(procs: ProcTable, pid: nat): ProcTable
  {
    if pid > 0 && pid in procs && procs[pid].status == Zombie
    then procs[pid := procs[pid].(status := Gone)]
    else procs
  }

  /** What one call of fiveman_process_state_converge does to its entry. */
  datatype Action = Leave | Launch | Terminate | SendData | Abort

  function Decide(intent: int, alive: bool): Action
  {
    if intent == INTENT_START then (if alive then Leave else Launch)
    else if intent == INTENT_SIG then SendData
    else if intent == INTENT_STOP then (if alive then Terminate else Leave)
    else if intent == INTENT_NONE then Leave
    else Abort
  }

  /** fiveman_process_state_current_activity. */
  function CurrentActivity(intent: int, alive: bool): Activity
  {
    if intent == INTENT_START then (if alive then Active else StartingUp)
    else if intent == INTENT_STOP then (if alive then ShuttingDown else Stopped)
    else Unknown
  }

  lemma {:induction false} Bounded(pids: set<nat>) returns (m: nat)
    ensures forall p :: p in pids ==> p <= m
  {
    if pids == {} {
      m := 0;
    } else {
      var p :| p in pids;
      var rest := Bounded(pids - {p});
      m := if p > rest then p else rest;
      assert forall q :: q in pids ==> q == p || q in pids - {p};
    }
  }

  /** The operating system always has a pid it has not handed out. */
  lemma FreshPid(procs: ProcTable) returns (pid: nat)
    ensures pid > 0 && pid !in procs
  {
    var m := Bounded(procs.Keys);
    pid := m + 1;
    assert pid in procs.Keys ==> pid <= m;
  }
}
