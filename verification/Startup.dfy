/** From the Procfile to the first frame (main.c:61-69): the parsed list, the table made of it
    and the rows of the status thread have the same length and order exactly when the file
    does not end inside a command, and then the run starts in the step system's first state. */
module Startup {
  import opened Types
  import opened Instructions
  import opened ProcfileScan
  import opened ProcfileChunks
  import opened Procfile
  import opened ProcessTable
  import opened Table
  import opened Environment
  import opened RowsShown
  import S = Supervisor

  /** What the step system knows of an entry. */
  function EntryOf(fields: Fields): S.Entry
  {
    S.Entry(fields.intent, fields.desired, fields.pid, fields.lastChange, fields.sample, [], [])
  }

  function EntriesOf(values: seq<Fields>): seq<S.Entry>
  {
    seq(|values|, k requires 0 <= k < |values| => EntryOf(values[k]))
  }

  /** initialize_screen_entry; the log files do not exist yet. */
  function RowOf(fields: Fields, procs: ProcTable, clock: int): S.Row
  {
    S.Row(CurrentActivity(fields.intent, IsAlive(procs, fields.pid)), fields.pid, clock - fields.lastChange, 0,
          fields.sample, false, false)
  }

  lemma RowSaysEntry(fields: Fields, procs: ProcTable, clock: int)
    requires fields.intent == INTENT_START || fields.intent == INTENT_STOP
    ensures SaysEntry(RowOf(fields, procs, clock), EntryOf(fields), procs, clock)
    ensures RowOf(fields, procs, clock).sample == fields.sample
    ensures EntryOf(fields).pid == fields.pid && EntryOf(fields).lastChange == fields.lastChange
    ensures EntryOf(fields).intent == fields.intent
  {
  }

  datatype Filled = AllFilled | PastTheEnd

  /** The loop over the table that fills one row per entry (fiveman_status_thread.c:65-72, and
      the same loop in lines 22-28 and 36-43). `PastTheEnd` is a write behind the array. */
  method FillRows(head: ProcessState?, os: Os, rows: array<S.Row>, ghost nodes: seq<ProcessState>)
    returns (filled: Filled)
    requires IsTable(head, nodes)
    modifies rows
    ensures filled == PastTheEnd <==> |nodes| > rows.Length
    ensures forall k :: 0 <= k < |nodes| && k < rows.Length ==> rows[k] == RowOf(Values(nodes)[k], os.procs, os.clock)
    ensures forall k :: |nodes| <= k < rows.Length ==> rows[k] == old(rows[k])
  {
    var cur, row := head, 0;
    while cur != null
      invariant row <= |nodes| && row <= rows.Length && cur == (if row < |nodes| then nodes[row] else null)
      invariant forall k :: 0 <= k < row ==> rows[k] == RowOf(Values(nodes)[k], os.procs, os.clock)
      invariant forall k :: row <= k < rows.Length ==> rows[k] == old(rows[k])
      decreases |nodes| - row
    {
      if row == rows.Length {
        return PastTheEnd;
      }
      rows[row] := RowOf(cur.Get(), os.procs, os.clock);
      cur := cur.next;
      row := row + 1;
    }
    return AllFilled;
  }

  /** The whole state at the head of both threads' loops. */
  function Begins(entries: seq<S.Entry>, rows: seq<S.Row>, clock: int, issuedAt: int): S.State
  {
    S.State(
      S.Memory(entries, map[], clock, S.Free, false, rows, [rows]),
      S.WorkerThread(S.AtLock, rows),
      S.ScreenThread(S.Drawing(0), false, false, false, issuedAt, 0, [], S.NotLeaving))
  }

  const FRESH: Fields := Fields(INTENT_START, INTENT_START, 0, 0, Cleared)

  lemma BeginsInFirstState(values: seq<Fields>, rows: seq<S.Row>, clock: int)
    requires |rows| == |values| > 0
    requires forall k :: 0 <= k < |values| ==> values[k] == FRESH && rows[k] == RowOf(values[k], map[], clock)
    ensures forall issuedAt: int :: S.Init(Begins(EntriesOf(values), rows, clock, issuedAt))
  {
  }

  /** table_allocate, then table_initialize. */
  method BuildTable(list: ListBuilder, startingPort: int) returns (head: ProcessState?, ghost nodes: seq<ProcessState>)
    requires list.Valid()
    ensures IsTable(head, nodes) && fresh(nodes) && |nodes| == |Paired(list.tokens)|
    ensures forall k :: 0 <= k < |nodes| ==>
      LineOf(nodes[k].instruction) == Paired(list.tokens)[k] && nodes[k].port == startingPort + k
    ensures forall k :: 0 <= k < |nodes| ==> Values(nodes)[k] == FRESH
  {
    hide Paired;
    head, nodes := Allocate(list.head, startingPort, list.nodes);
    assert forall k :: 0 <= k < |nodes| ==> LineOf(nodes[k].instruction) == Paired(list.tokens)[k];
    Table.Initialize(head, nodes);
  }

  datatype Beginning = Ready | NoTable | WritesPastRows

  /** parse_procfile, table_allocate, table_initialize and the rows of
      fiveman_status_thread_create, for a file that has just been opened. */
  method Start(file: File, lineSize: nat, startingPort: int, os: Os)
    returns (outcome: Beginning, head: ProcessState?, rows: array<S.Row>, ghost nodes: seq<ProcessState>)
    requires file.Valid() && file.pos == 0 && !file.eof && lineSize > 0 && os.procs == map[]
    modifies file
    ensures
      var tokens := Tokens(file.content, 0, ':');
      && (outcome == NoTable <==> !(Completes(file.content, 0, ':', lineSize) && |tokens| >= 2))
      && (outcome == Ready <==>
            Completes(file.content, 0, ':', lineSize) && |tokens| >= 2 && Final(file.content, 0, ':') == ':')
    ensures outcome != NoTable ==>
      var lines := Paired(Tokens(file.content, 0, ':'));
      && IsTable(head, nodes) && |nodes| == |lines|
      && |nodes| == rows.Length + (if Final(file.content, 0, ':') == ':' then 0 else 1)
      && forall k :: 0 <= k < |nodes| ==> LineOf(nodes[k].instruction) == lines[k] && nodes[k].port == startingPort + k
    ensures outcome == Ready ==>
      forall issuedAt: int :: S.Init(Begins(EntriesOf(Values(nodes)), rows[..], os.clock, issuedAt))
  {
    hide Completes, Tokens, Final, Paired, Begins, EntriesOf, RowOf, S.Init;
    head, nodes := null, [];
    var result, list := ParseProcfile(file, lineSize);
    if result == Procfile.Aborted {
      rows := new S.Row[0];
      return NoTable, head, rows, nodes;
    }
    FinalIsParity(file.content);
    head, nodes := BuildTable(list, startingPort);
    rows := new S.Row[result.found](_ => S.Row(Stopped, 0, 0, 0, Cleared, false, false));
    var filled := FillRows(head, os, rows, nodes);
    if filled == AllFilled {
      outcome := Ready;
      BeginsInFirstState(Values(nodes), rows[..], os.clock);
    } else {
      outcome := WritesPastRows;
    }
  }

  /** The file ends inside a command exactly when it holds an odd number of tokens. */
  lemma FinalIsParity(text: string)
    ensures Final(text, 0, ':') == ':' <==> |Tokens(text, 0, ':')| % 2 == 0
  {
    ScanShape(text, 0, ':');
    FlipIs(':', |Tokens(text, 0, ':')|);
  }

  /** A Procfile that ends inside a command: for every buffer that holds it the reader finishes
      with one whole line, and the table gets two entries. */
  lemma EndsInsideCommand(lineSize: nat)
    requires lineSize > 6
    ensures
      var text := "a:b\nc:";
      && Completes(text, 0, ':', lineSize) && Tokens(text, 0, ':') == ["a", "b", "c"] && Final(text, 0, ':') == '\n'
      && Paired(Tokens(text, 0, ':')) == [Line(Str("a"), Str("b")), Line(Str("c"), Null)]
  {
    var text := "a:b\nc:";
    FindIs(text, 0, ':', 1);
    FindIs(text, 2, '\n', 3);
    FindIs(text, 4, ':', 5);
    FindIs(text, 6, '\n', 6);
    ScanStep(text, 6, '\n', 6);
    ScanStep(text, 4, ':', 5);
    ScanStep(text, 2, '\n', 3);
    ScanStep(text, 0, ':', 1);
    assert Pieces(text, 0, ':') == [text[0..1]] + ([text[2..3]] + ([text[4..5]] + []));
    assert text[0..1] == "a" && text[2..3] == "b" && text[4..5] == "c";
    assert Pieces(text, 0, ':') == ["a", "b", "c"];
    SmallFilesComplete(text, lineSize);
  }

  /** Where PORT reaches the children at all, each reads its own: the text parses back to
      the entry's port, so no two entries read the same. */
  lemma ChildrenReadTheirPorts(parent: seq<string>, directory: string, path: string, startingPort: nat, j: nat, k: nat)
    requires parent != [] && !Defined(parent[..|parent| - 1], "PORT")
    ensures
      var kept := parent[..|parent| - 1];
      var a := Lookup(kept + [PathEntry(directory, path), PortEntry(startingPort + j)], "PORT");
      var b := Lookup(kept + [PathEntry(directory, path), PortEntry(startingPort + k)], "PORT");
      && a.Str? && Atoi(a.chars) == startingPort + j
      && (a == b <==> j == k)
  {
    ChildLookup(parent, directory, path, startingPort + j, "PORT");
    ChildLookup(parent, directory, path, startingPort + k, "PORT");
    AtoiDecimal(startingPort + j);
    AtoiDecimal(startingPort + k);
  }
}
