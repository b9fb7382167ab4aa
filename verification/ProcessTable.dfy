/** The process states and the linked table of them (fiveman_process_state.c,
    fiveman_process_state_table.c), as one thread runs them: no child exits and no other
    thread writes in between. Supervisor.dfy interleaves the same decisions. */
module ProcessTable {
  import opened Types
  import opened Formatting
  import opened Instructions

  /** The operating system as one pass sees it. */
  class Os {
    var procs: ProcTable
    var clock: int
    ghost var sent: seq<(nat, Signal)>  // every killpg so far

    /** kill(pid, 0) == 0 */
    predicate Kill0(pid: nat)
      reads this
    {
      Answers(procs, pid)
    }

    method Killpg(pid: nat, sig: Signal)
      modifies this`sent
      ensures sent == old(sent) + [(pid, sig)]
    {
      sent := sent + [(pid, sig)];
    }

    /** waitpid(pid, 0, WNOHANG) */
    method Waitpid(pid: nat) returns (r: int)
      modifies this`procs
      ensures pid in old(procs) && old(procs)[pid].status == Zombie ==>
        r == pid && procs == old(procs)[pid := Proc(old(procs)[pid].owner, Gone)]
      ensures !(pid in old(procs) && old(procs)[pid].status == Zombie) ==> r <= 0 && procs == old(procs)
    {
      if pid in procs && procs[pid].status == Zombie {
        procs := procs[pid := Proc(procs[pid].owner, Gone)];
        r := pid;
      } else {
        r := if pid in procs && procs[pid].status == Running then 0 else -1;
      }
    }

    /** posix_spawn: some pid that was never handed out before. */
    method Spawn(owner: nat) returns (pid: nat)
      modifies this`procs
      ensures pid > 0 && pid !in old(procs) && procs == old(procs)[pid := Proc(owner, Running)]
    {
      ghost var unused := FreshPid(procs);
      assert unused > 0 && unused !in procs;
      pid :| pid > 0 && pid !in procs;
      procs := procs[pid := Proc(owner, Running)];
    }
  }

  // snprintf into a buffer of 8192 bytes keeps at most 8191 of them.
  const PATH_BUFFER: nat := 8192

  /** mktemp writes in place. It replaces the five X's at the end and keeps the rest; of a
      template that was cut short it makes some name no longer than that. */
  predicate MadeFrom(template: string, path: string)
  {
    && |path| <= |template|
    && (|template| > 5 && template[|template| - 6] == '.' && template[|template| - 5..] == "XXXXX" ==>
          |path| == |template| && path[..|path| - 5] == template[..|template| - 5])
  }

  method Mktemp(template: string) returns (path: string)
    ensures MadeFrom(template, path)
  {
    assert MadeFrom(template, template);
    path :| MadeFrom(template, path);
  }

  /** The path of a log: shorter than the buffer; and if the whole name fits, the name's own, in
      /tmp, with five characters that mktemp chose. */
  predicate IsLogPath(path: string, name: string, stream: string)
  {
    var front := "/tmp/fiveman-" + name + "-" + stream + ".";
    && |path| < 8192
    && (|front| + 5 < 8192 ==> |path| == |front| + 5 && path[..|front|] == front)
  }

  lemma LogPathMade(template: string, path: string, name: string, stream: string)
    requires template == "/tmp/fiveman-" + name + "-" + stream + ".XXXXX"
    requires MadeFrom(Kept(template, 8192), path)
    ensures IsLogPath(path, name, stream)
  {
    var front := "/tmp/fiveman-" + name + "-" + stream + ".";
    assert template == front + "XXXXX";
    if |front| + 5 < 8192 {
      assert Kept(template, 8192) == template;
      assert template[|template| - 6] == '.' && template[|template| - 5..] == "XXXXX";
      assert template[..|front|] == front;
    }
  }

  function NameOf(text: Text): (name: string)
    ensures text.Str? ==> name == text.chars
  {
    if text.Str? then text.chars else "(null)"
  }

  /** The fields of a process state that its methods change. */
  datatype Fields = Fields(intent: int, desired: int, pid: nat, lastChange: int, sample: Sample)

  class ProcessState {
    const instruction: Instruction
    const port: int
    var intent: int
    var desired: int
    var pid: nat
    var lastChange: int
    var sample: Sample
    var stdoutPath: string
    var stderrPath: string
    var next: ProcessState?
    ghost var place: nat  // its index in the table

    function Get(): Fields
      reads `intent, `desired, `pid, `lastChange, `sample
    {
      Fields(intent, desired, pid, lastChange, sample)
    }

    /** fiveman_process_state_allocate: zeroed memory, so the wish is 0, which is START. */
    constructor (instruction: Instruction, port: int)
      ensures this.instruction == instruction && this.port == port && next == null
      ensures Get() == Fields(INTENT_NONE, INTENT_START, 0, 0, Cleared)
    {
      this.instruction, this.port := instruction, port;
      intent, desired, pid, lastChange, sample := INTENT_NONE, 0, 0, 0, Cleared;
      stdoutPath, stderrPath, next := "", "", null;
    }

    method Initialize()
      modifies this`intent, this`sample, this`stdoutPath, this`stderrPath
      ensures Get() == old(Get()).(intent := INTENT_START, sample := Cleared)
      ensures IsLogPath(stdoutPath, NameOf(instruction.name), "stdout")
      ensures IsLogPath(stderrPath, NameOf(instruction.name), "stderr")
    {
      hide IsLogPath, MadeFrom, Kept;
      intent := INTENT_START;
      var name := NameOf(instruction.name);
      var out, err := "/tmp/fiveman-" + name + "-stdout.XXXXX", "/tmp/fiveman-" + name + "-stderr.XXXXX";
      stdoutPath := Mktemp(Kept(out, PATH_BUFFER));
      stderrPath := Mktemp(Kept(err, PATH_BUFFER));
      assert "-stdout.XXXXX" == "-" + "stdout" + ".XXXXX" && "-stderr.XXXXX" == "-" + "stderr" + ".XXXXX";
      assert out == "/tmp/fiveman-" + name + "-" + "stdout" + ".XXXXX";
      assert err == "/tmp/fiveman-" + name + "-" + "stderr" + ".XXXXX";
      LogPathMade(out, stdoutPath, name, "stdout");
      LogPathMade(err, stderrPath, name, "stderr");
      sample := Cleared;
    }

    predicate IsAlive(os: Os)
      reads this, os
      ensures IsAlive(os) == Types.IsAlive(os.procs, pid)
    {
      if pid > 0 then os.Kill0(pid) else false
    }

    method Start(os: Os, row: nat) returns (subchild: nat)
      modifies this`pid, this`sample, os`procs
      ensures subchild > 0 && subchild !in old(os.procs) && os.procs == old(os.procs)[subchild := Proc(row, Running)]
      ensures Get() == old(Get()).(pid := subchild, sample := Cleared)
    {
      sample := Cleared;
      subchild := os.Spawn(row);
      pid := subchild;
    }

    method Signal(os: Os, sig: Signal)
      modifies os`sent
      ensures os.sent == old(os.sent) + if pid > 0 then [(pid, sig)] else []
    {
      if pid > 0 {
        os.Killpg(pid, sig);
      }
    }

    method ReapZombieProcesses(os: Os)
      modifies os`procs
      ensures os.procs == Reaped(old(os.procs), pid)
    {
      if pid > 0 {
        var r := os.Waitpid(pid);
        while r > 0
          invariant os.procs == Reaped(old(os.procs), pid)
          decreases r > 0
        {
          r := os.Waitpid(pid);
        }
      }
    }

    method ReflectDesiredIntent()
      modifies this`intent
      ensures Get() == old(Get()).(intent := desired)
    {
      intent := desired;
    }

    method DesiresIntent(wish: int)
      modifies this`desired
      ensures Get() == old(Get()).(desired := wish)
    {
      desired := wish;
    }

    method ConvergeStart(os: Os, row: nat)
      modifies this`pid, this`lastChange, this`sample, os`procs
      ensures ConvergesTo(INTENT_START, old(Get()), Get(), old(os.procs), os.procs, os.clock)
      ensures Extends(old(os.procs), os.procs, Get())
    {
      if pid > 0 {
        if IsAlive(os) {
        } else {
          var child := Start(os, row);
          lastChange := os.clock;
        }
      } else {
        var child := Start(os, row);
        lastChange := os.clock;
      }
    }

    method ConvergeSignal(os: Os, data: Signal)
      modifies this`intent, os`sent
      ensures Get() == old(Get()).(intent := INTENT_NONE)
      ensures os.sent == old(os.sent) + if Types.IsAlive(os.procs, pid) then [(pid, data)] else []
    {
      if pid > 0 {
        if IsAlive(os) {
          Signal(os, data);
        }
      }
      intent := INTENT_NONE;
    }

    method ConvergeStop(os: Os)
      modifies this`lastChange, os`sent
      ensures ConvergesTo(INTENT_STOP, old(Get()), Get(), os.procs, os.procs, os.clock)
      ensures os.sent == old(os.sent) + if Types.IsAlive(os.procs, pid) then [(pid, SigTerm)] else []
    {
      if pid > 0 {
        if IsAlive(os) {
          Signal(os, SigTerm);
          lastChange := os.clock;
        }
      }
    }

    /** fiveman_process_state_converge; `ok` is false where the program calls
        exit(-1). `row` is the entry's place in the table, `data` the signal of its intent. */
    method Converge(os: Os, row: nat, data: Signal) returns (ok: bool)
      modifies this`intent, this`pid, this`lastChange, this`sample, os`procs, os`sent
      ensures ok <==> KnownIntent(old(intent))
      ensures ok ==> ConvergesTo(old(intent), old(Get()), Get(), old(os.procs), os.procs, os.clock)
      ensures Extends(old(os.procs), os.procs, Get())
      ensures os.sent == old(os.sent) + OrderOf(old(Get()), old(os.procs), data)
    {
      ok := true;
      if intent == INTENT_START { ConvergeStart(os, row); }
      else if intent == INTENT_SIG { ConvergeSignal(os, data); }
      else if intent == INTENT_STOP { ConvergeStop(os); }
      else if intent == INTENT_NONE { }
      else { ok := false; }
    }
  }

  /** The signal one convergence sends: SIGTERM to a living child that is to stop. */
  function OrderOf(before: Fields, procs: ProcTable, data: Signal): seq<(nat, Signal)>
  {
    if !Types.IsAlive(procs, before.pid) then []
    else if before.intent == INTENT_STOP then [(before.pid, SigTerm)]
    else if before.intent == INTENT_SIG then [(before.pid, data)]
    else []
  }

  predicate KnownIntent(intent: int)
  {
    INTENT_START <= intent <= INTENT_NONE
  }

  /** What one convergence of an entry with this intent makes of it. */
  predicate ConvergesTo(intent: int, before: Fields, after: Fields, procs: ProcTable, procs': ProcTable, clock: int)
  {
    match Decide(intent, Types.IsAlive(procs, before.pid))
    case Leave => after == before
    case Launch =>
      && after == before.(pid := after.pid, lastChange := clock, sample := Cleared)
      && after.pid > 0 && after.pid !in procs
      && after.pid in procs' && procs'[after.pid].status == Running
    case Terminate => after == before.(lastChange := clock)
    case SendData => after == before.(intent := INTENT_NONE)
    case Abort => false
  }

  /** Nothing known to the operating system changes; a new pid is the entry's own. */
  predicate Extends(procs: ProcTable, procs': ProcTable, after: Fields)
  {
    && (forall p :: p in procs ==> p in procs' && procs'[p] == procs[p])
    && (forall p :: p in procs' && p !in procs ==> p == after.pid && p > 0)
  }
}
