# fiveman, modelled and proved in Dafny

fiveman reads a Procfile, keeps one child process running per line, shows them on a screen and,
on quit, shuts them down. This project models what is hard in it and proves what it keeps:

- **The supervisor** (`Supervisor.dfy` and the modules on it): the status thread's pass, the
  screen thread's event loop, the SIGCHLD and SIGINT handlers and the children, as one step system
  whose steps interleave in any order. The mutex is explicit; loops outside it take one step per
  entry, and `posix_spawn` and the store to `state->pid` are separate steps. The results about it hold for
  every run of that system and a table of any length, under the hypotheses their rows name.
- **The same passes as code** (`ProcessTable.dfy`, `Table.dfy`, `EventLoop.dfy`): the process
  states as objects, the table as a linked list, the loops over it, and one turn of the event
  loop, each as one thread runs it undisturbed. `PassRefinement.dfy` and `EventRefinement.dfy` prove
  that a thread of the step system which steps alone does exactly what this code does.
- **The Procfile reader** (`Procfile.dfy`): one fixed buffer, short reads, seeks back, and a list
  that is linked up on the way, measured against one scan of the whole text (`ProcfileScan.dfy`),
  with the buffer size as a parameter.
- **The pager protocol** (`PagerProtocol.dfy`): sender, receiver and two pipes, with short body
  reads and piecemeal writes in any order.
- **Smaller cores**: the child's environment (`Environment.dfy`), the byte counters
  (`Sampling.dfy`), bounded text (`Formatting.dfy`), and `Startup.dfy`, which joins the parser, the
  table and the rows to the first state of the step system.

`dafny verify dfyconfig.toml` checks everything.

## What is assumed

- A pid is never handed out twice, `posix_spawn` succeeds, and `kill(pid, 0)` fails only for a pid
  that is gone (a zombie answers). A child may end at any time, as a zombie or at once gone. A
  signal only makes such an end possible; it never forces one.
- A critical section that touches one entry is one step; a `memcpy` of rows takes two steps a row.
- The pager's four-byte header is written atomically and read whole or as far as it is there. The
  forked receiver lives, and every pager it starts ends.
- No text contains a NUL. `int` counters of a file, a table or a port do not overflow. The byte
  counters do, and their overflow is modelled.
- Foreign calls, the clock, key presses, the environment's `PATH` and the text that `%g` makes of a
  number are parameters or free choices of a step.

## What the proofs found

- *"Nothing is alive after quit" is false.* `AliveAfterQuit` is a run in which fiveman leaves
  because nobody is alive, joins its thread, and ends with a running child: the pass under way had
  reflected START before the quit. `ShutdownSafety` gives the order of events that makes leaving
  safe, and `LeavingIsSafeExactlyWhen` the exact condition on the state in which the loop is left.
- *A quit request does not postpone SIGKILL by itself.* Only a recorded quit moves the 100 seconds.
  What becomes of a request, a key or a SIGINT, depends on where it finds the screen thread
  (`RequestRecordedExactlyWhen`): if the loop is being left it is never recorded; if no quit was
  recorded before, or the count of the turn is over, always; otherwise if and only if the count
  finds somebody alive before the timeout. While another quit is being recorded it is absorbed, as
  the flag is cleared behind it (`RequestAbsorbed`). `FreshQuitKeyThenKill` and
  `AbsorbedSigintThenKill` are runs in which SIGKILL comes 0 and 99 seconds after the last request.
- *The reader stops on some well-formed files.* If a chunk starts exactly one buffer before the end
  of the file, no end-of-file flag is set; if it ends on a delimiter, the next chunk is empty and
  the assert of line 69 fails; so it does on every file that ends at a command's newline and is
  exactly as long as the buffer (`ExactlyOneBufferAborts`). `CompletesExactlyWhen` and
  `CleanFilesCompleteExactlyWhen` say for which files the loop ends.
- *A file that ends inside a command gives a table one longer than `num_entries`*, and the row loops
  then write past their arrays (`Startup.Start`; `EndsInsideCommand` is such a file).
- *A child does not see its parent's last variable*, and sees the new `PATH` only if no entry before
  that last one defines `PATH` (`ChildLookup`, `NewValuesSeenExactlyWhen`).
- *`BYTES_PER_EXABYTE` is one petabyte*, so petabytes are labelled "EB" and "PB" is never shown
  (`UnitNamedExactlyWhen`). The amount is rounded after the unit is chosen, so one byte less than a
  megabyte is shown as 1024 kB (`AmountInRange`, `ShownAs1024`).

## Model

| member | source | states |
|---|---|---|
| `SupervisorInvariants.InvKept` | src/fiveman_status_thread.c:29-52 | every step of either thread, a handler, a child or the clock keeps the inductive invariant on locks, flags, intents and each entry's children |
| `SupervisorInvariants.OneLiveChild` | src/fiveman_process_state.c:242-263 | in every reachable state every child of an entry is gone except the one in its pid, or the one just spawned and about to be stored there |
| `SupervisorInvariants.ReachableIntents` | src/fiveman_process_state.c:337-361 | in every reachable state every intent and wish is START or STOP, so the signal intent, `exit(-1)` and the UNKNOWN activity are never reached |
| `SupervisorInvariants.MutualExclusion` | src/fiveman_status_thread.c:30-47 | the reflect and publish loops never overlap the count, signal and recording loops, and the mutex is free exactly when no such loop runs |
| `Shutdown.SpawnAtMostOnceAfterStop` | src/fiveman_status_thread.c:30-34 | after STOP is recorded for an entry and until its next launch key it is spawned at most once more, and never again from its next reflect on |
| `Shutdown.QuietKept` | src/fiveman_process_state.c:359-361 | once all entries wish to stop and no spawn is armed, every step but a launch key keeps it so, and no step spawns |
| `Shutdown.ShutdownSafety` | src/ncurses_screen.c:400-427 | over all interleavings: quit recorded, then a reflect finished, then a count begun, no launch key: leaving by the count means every child ever spawned is gone; leaving by timeout means every latest child was sent SIGKILL and all older ones are gone |
| `Leaving.LeavingIsSafeExactlyWhen` | src/ncurses_screen.c:400-419 | once the loop has been left, at any point of the tear-down: no continuation ever has a child left if and only if none is left now, none is about to be started, and every wish that the worker will still reflect is to stop |
| `Leaving.AliveAfterQuit` | src/fiveman_status_thread.c:29-52 | there is a run that leaves because nobody is alive and ends, after the join, with a running child |
| `Leaving.PosGrows` | src/fiveman_status_thread.c:29-52 | every worker step advances the position in the pass, which is at most 8n + 7 |
| `Leaving.JoinEnds` | src/fiveman_status_thread.c:84-88 | once the exit flag is set the worker takes at most 8n + 8 steps in any run and is never blocked before it exits |
| `Escalation.PoliteEscalation` | src/ncurses_screen.c:400-427 | in every run an entry is sent only SIGTERMs and then at most one SIGKILL, only to its own children, the SIGKILL 100 seconds or more after every quit recorded before |
| `Escalation.IssuedAtLatestQuit` | src/ncurses_screen.c:420-427 | the noted time is at least the time of every quit recorded so far |
| `QuitRequests.RequestRecordedExactlyWhen` | src/ncurses_screen.c:353-427 | in every run: a quit key or SIGINT, unless it comes while a quit is being recorded, is recorded at the next test of the flags or never; it is if and only if the loop is not being left and it is the first quit, or comes behind the count of its turn, or a count before the test finds somebody alive before the timeout |
| `QuitRequests.KillAfterRequestExactlyWhen` | src/ncurses_screen.c:400-427 | whenever SIGKILL has been sent, the request has been recorded before it under exactly that condition |
| `QuitRequests.RequestAbsorbed` | src/ncurses_screen.c:420-427 | a request that comes while another is being recorded leaves the flag clear and the noted time unchanged, and without a further request nothing is recorded |
| `QuitRequests.LateCountKills` | src/ncurses_screen.c:402-411 | a count that finds somebody alive at the timeout or later: no quit is recorded any more, and every entry started by then has been sent SIGKILL when the loop is left |
| `QuitRequests.FreshQuitKeyThenKill` | src/ncurses_screen.c:353-416 | there is a run, in which no wait for a key exceeds a second, whose last quit key and SIGKILL have the same time |
| `QuitRequests.AbsorbedSigintThenKill` | src/ncurses_screen.c:420-427 | there is such a run in which a SIGINT arrives during the recording of a quit and SIGKILL comes 99 seconds after it |
| `EscalationEnds.ScreenShrinks` | src/ncurses_screen.c:331-429 | with no quit request pending or made, every screen step lowers the measure; only a key in the same second as the one before it, and before the timeout, may raise it, by less than a turn |
| `EscalationEnds.EscalationTerminates` | src/ncurses_screen.c:400-429 | then in every run the screen thread takes at most Measure steps, and one turn's more per turn in which no second passes, until it is done; only the worker blocks it |
| `EscalationEnds.NeverDeadlocked` | src/fiveman_status_thread.c:29-52 | in every state of the invariant one of the two threads can step, until the screen thread is done |
| `EscalationEnds.LateEscalationTerminates` | src/ncurses_screen.c:400-419 | once the timeout has struck it takes at most 6n + 17 steps, however fast the keys come |
| `EscalationEnds.MeasureAfterQuit` | src/ncurses_screen.c:420-427 | a quit just recorded leaves a measure of at most 100 turns of 3n + 9 steps, and a rest of a turn |
| `Snapshots.FramesAreConsistent` | src/ncurses_screen.c:343-350 | every drawn row is one whole row of the array published by one pass or at creation, passes never decrease going down the rows, and a row never mixes two children |
| `RowsShown.FramesSayEntries` | src/ncurses_screen.c:100-108 | row r of any drawn frame of pass g > 0 was sampled by a step of the worker in pass g and says that entry's pid, age, sample and log flags, and its activity by intent and liveness; a row of pass 0 says the entry of thread creation |
| `ProcessTable.ProcessState.constructor` | src/fiveman_process_state.c:20-29 | a new state has intent NONE, and the wish START because calloc leaves 0 |
| `ProcessTable.ProcessState.Initialize` | src/fiveman_process_state.c:46-69 | the intent becomes START; both log paths are shorter than 8192 characters and, if the name fits, are "/tmp/fiveman-", the name, "-stdout." or "-stderr." and five characters |
| `ProcessTable.ProcessState.IsAlive` | src/fiveman_process_state.c:242-248 | true exactly for a positive pid that is not gone |
| `ProcessTable.ProcessState.Start` | src/fiveman_process_state.c:73-127 | a pid never used before runs for this entry and is stored; the sample is cleared; nothing else changes |
| `ProcessTable.ProcessState.Signal` | src/fiveman_process_state.c:129-134 | one killpg if the entry was ever started, otherwise none |
| `ProcessTable.ProcessState.ReapZombieProcesses` | src/fiveman_process_state.c:363-367 | turns exactly the entry's own zombie into a gone process |
| `ProcessTable.ProcessState.ReflectDesiredIntent` | src/fiveman_process_state.c:359-361 | the intent becomes the wish and nothing else changes |
| `ProcessTable.ProcessState.DesiresIntent` | src/fiveman_process_state.c:355-357 | the wish is replaced and nothing else changes |
| `ProcessTable.ProcessState.ConvergeStart` | src/fiveman_process_state.c:250-263 | spawns exactly if the entry has no living child, and then notes the time |
| `ProcessTable.ProcessState.ConvergeSignal` | src/fiveman_process_state.c:265-274 | signals exactly a living child; the intent becomes NONE |
| `ProcessTable.ProcessState.ConvergeStop` | src/fiveman_process_state.c:276-287 | sends SIGTERM to exactly a living child and notes the time |
| `ProcessTable.ProcessState.Converge` | src/fiveman_process_state.c:330-353 | decides by intent and liveness, and sends SIGTERM to exactly a living child that is to stop; an unknown intent is reported as the exit |
| `Table.Allocate` | src/fiveman_process_state_table.c:5-26 | the list of states is acyclic, as long as the list of lines and in its order, with port start + k for line k |
| `Table.Initialize` | src/fiveman_process_state_table.c:32-38 | every entry is initialised and nothing else changes |
| `Table.ReflectDesiredIntent` | src/fiveman_process_state_table.c:56-62 | every intent becomes its wish |
| `Table.DesiresIntent` | src/fiveman_process_state_table.c:64-70 | every wish is replaced and nothing else changes |
| `Table.Signal` | src/fiveman_process_state_table.c:72-78 | one killpg per entry ever started, in table order |
| `Table.SignalsAre` | src/fiveman_process_state_table.c:72-78 | the signal asked for is sent to each pid once per entry ever started that has it, and nothing else is sent |
| `Table.SignalsInTableOrder` | src/fiveman_process_state_table.c:72-78 | and in table order |
| `Table.NumAlive` | src/fiveman_process_state_table.c:80-90 | the count of entries whose process answers; it is 0 exactly when none does |
| `Table.CountAliveIs` | src/fiveman_process_state_table.c:80-90 | that count is the size of the set of rows whose process answers |
| `Table.ReapZombieProcesses` | src/fiveman_process_state_table.c:96-102 | reaps along the table |
| `Table.ReapedAllIs` | src/fiveman_process_state_table.c:96-102 | exactly the table's zombies become gone, all other processes stay as they were |
| `Table.Converge` | src/fiveman_process_state_table.c:40-46 | every entry converges by its own intent, no process known before changes, every new pid is the new pid of some entry, and what is sent is sent in table order |
| `Table.OrdersAre` | src/fiveman_process_state.c:276-287 | among START and STOP entries SIGTERM is sent to each living child once per STOP entry it is the pid of, and nothing else is sent |
| `Table.OrderedOnce` | src/fiveman_process_state.c:276-287 | as no two entries share a child, the living child of a STOP entry is sent SIGTERM exactly once |
| `Table.OrdersInTableOrder` | src/fiveman_process_state_table.c:40-46 | and those SIGTERMs come in table order, with no other between them |
| `Table.Pass` | src/fiveman_status_thread.c:30-34 | reflect, reap and converge of a whole table of known pids, with the signals sent; it completes if and only if every wish is a known intent |
| `Table.PassEntryIs` | src/fiveman_process_state.c:250-287 | what a pass makes of each entry, field by field: left alone, stopped at a noted time, started anew under an unused pid at a noted time, or only reflected |
| `Table.PassStartsAll` | src/fiveman_status_thread.c:30-34 | after a pass in which no child ends every entry that wishes to run has a running child |
| `Table.PassIsFixedPoint` | src/fiveman_process_state.c:250-263 | a second such pass leaves those entries unchanged, pid and last change included, and spawns nothing at all |
| `PassRefinement.WorkerStepsMakeAPass` | src/fiveman_status_thread.c:30-34 | in the step system the worker alone, from the lock to the first sampling, makes exactly a pass of the code and sends the same SIGTERMs in the same order |
| `Convergence.PassStartsEntry` | src/fiveman_status_thread.c:30-34 | in every run from the head of the worker's loop, whatever the clock, the screen thread, SIGCHLD and other entries' children do: if no child of the entry ends and it wishes to run when it is reflected, it has a running child once it is converged |
| `Convergence.RunningEntryIsLeftAlone` | src/fiveman_process_state.c:250-263 | under the same hypotheses an entry with a running child keeps pid, last change and children over any number of whole passes |
| `Convergence.StartedOnceAndKept` | src/fiveman_process_state_table.c:40-46 | both together: what the first pass has started is the entry's running child in every later state, and nothing more is spawned for it |
| `Convergence.StopSignalledOnce` | src/fiveman_process_state.c:276-287 | in any run within one pass, whatever else happens: the worker sends an entry SIGTERM exactly once if the entry wished to stop when it was reflected and its child answered when it was converged, and otherwise not at all |
| `EventLoop.Screen.constructor` | src/ncurses_screen.c:300-320 | all flags are down, the first row is highlighted, the array has total_states cells |
| `EventLoop.Screen.FillStates` | src/ncurses_screen.c:321-325 | cell k is the table's entry k; a cell behind the array is written exactly when the table is longer than total_states |
| `EventLoop.Screen.Handle` | src/ncurses_screen.c:354-399 | a key changes only the quit flag, the highlighted row or that row's wish; the row stays inside the table |
| `EventLoop.Screen.Escalate` | src/ncurses_screen.c:400-416 | everybody ever started gets SIGTERM, or SIGKILL when 100 seconds are over, exactly if anybody is alive; leaving is decided with it |
| `EventLoop.Screen.RecordQuit` | src/ncurses_screen.c:420-427 | every entry wishes to stop, the time is noted, terminating replaces the request |
| `EventLoop.Screen.Turn` | src/ncurses_screen.c:354-427 | the whole turn: flags, wishes and signals sent, in terms of the flags and the table before |
| `Keys.ArrowLaws` | src/ncurses_screen.c:381-395 | down moves one row unless on the last, up one unless on the first, and each undoes the other inside the table |
| `Keys.KeyWishes` | src/ncurses_screen.c:361-370 | in the step system 's' and 'l' record STOP and START for exactly the highlighted entry, and no key changes anything else of any entry |
| `Keys.DownsMove` | src/ncurses_screen.c:387-395 | in every run d down keys and no up key lead to row d, or to the last row |
| `Keys.UpsMove` | src/ncurses_screen.c:381-386 | from any point of a run u up keys and no down key lead u rows up, or to the first row |
| `Keys.DownsThenStop` | src/ncurses_screen.c:361-395 | d down keys, then 's': STOP is recorded in exactly row min(d, n - 1) |
| `EventRefinement.ScreenStepsMakeATurn` | src/ncurses_screen.c:354-427 | in the step system the screen thread alone, from a key to the end of the turn, makes exactly a turn of the code, and what it adds to the entries' histories, row by row, is what the code sends |
| `Instructions.Instruction.constructor` | src/fiveman_instruction.c:6-11 | a new line has no texts and no successor |
| `Instructions.Append` | src/procfile.c:51-56 | linking behind the last complete line gives an acyclic list with the new node at its end |
| `Procfile.ListBuilder.OnName` | src/procfile.c:48-58 | a name opens a new line at the end of the list |
| `Procfile.ListBuilder.OnCommand` | src/procfile.c:59-64 | a command completes the last line and counts as found |
| `Procfile.ListBuilder.NodesSayTokens` | src/procfile.c:47-65 | node k of the list holds token 2k as its name and token 2k + 1, if there is one, as its command |
| `Procfile.SkipBlanks` | src/procfile.c:35-42 | what is left is the token without leading blanks; an all-blank token is kept whole |
| `Procfile.Deliver` | src/procfile.c:47-65 | the token joins the list and the other delimiter is expected next |
| `Procfile.ScanChunk` | src/procfile.c:32-68 | one buffer delivers exactly the tokens that end inside it, and parse_head stands behind the last of them |
| `Procfile.ParseProcfile` | src/procfile.c:27-84 | for every content and buffer size: it finishes exactly when the refill loop completes and there is a whole line, and then list, found and expecting are those of one scan of the whole text |
| `ProcfileScan.ScanShape` | src/procfile.c:33-67 | tokens, their ends and the final expected delimiter agree in number and parity |
| `ProcfileScan.AppendFiles` | src/procfile.c:33-67 | a file ending at a command's newline, followed by another, gives the two lists appended |
| `ProcfileScan.PrintParse` | src/procfile.c:33-67 | printing any list of entries, with any blanks in front, and parsing gives the entries back |
| `ProcfileScan.LeadingBlanksDropped` | src/procfile.c:35-46 | any mixture of spaces and tabs before a name and before a command is dropped, and nothing else of them |
| `ProcfileScan.AllBlankKept` | src/procfile.c:35-46 | a name or command of spaces and tabs only is kept whole |
| `ProcfileChunks.CompletesExactlyWhen` | src/procfile.c:27-76 | the refill loop ends if and only if there is a token, every token fits the buffer, and the chunk holding the last delimiter reaches past the end of the file |
| `ProcfileChunks.SmallFilesComplete` | src/procfile.c:27-76 | a file shorter than the buffer is read exactly when it holds a delimiter |
| `ProcfileChunks.CleanFilesCompleteExactlyWhen` | src/procfile.c:27-81 | a non-empty file ending at a command's newline whose tokens fit the buffer is read completely if and only if its last chunk does not start exactly one buffer before the end |
| `ProcfileChunks.ExactlyOneBufferAborts` | src/procfile.c:27-76 | no such file that is exactly as long as the buffer is read completely |
| `Startup.FillRows` | src/fiveman_status_thread.c:65-72 | row k is filled from entry k; a row behind the array is written exactly when the table is longer than the array |
| `Startup.RowSaysEntry` | src/ncurses_screen.c:94-108 | such a row says its entry's pid, age, activity and sample |
| `Startup.BuildTable` | src/main.c:62-63 | allocate and initialise: the table says the parsed lines, port start + k, every entry in its first state |
| `Startup.FinalIsParity` | src/procfile.c:57-63 | the file ends outside a command exactly when it holds an even number of tokens |
| `Startup.Start` | src/main.c:61-66 | the table has the parsed lines in order, one more than found exactly when the file ends inside a command; otherwise the step system's first state is reached |
| `Startup.EndsInsideCommand` | src/procfile.c:47-65 | the file a:b, newline, c: is read to its end by every buffer that holds it, with one whole line and a second node without a command |
| `Startup.ChildrenReadTheirPorts` | src/fiveman_process_state_table.c:12-23 | where PORT reaches the children, each reads back its own port and no two read the same |
| `Pager.HeaderRoundTrip` | src/fiveman_pager_fork.c:125-126 | ntohl undoes htonl for every 32-bit length |
| `Pager.NetworkOrder` | src/fiveman_pager_fork.c:126 | the header's first byte is the most significant one |
| `Pager.PagerReceiver.constructor` | src/fiveman_pager_fork.c:32-40 | the receiver begins with a zeroed buffer, waiting for a size |
| `Pager.PagerReceiver.ReadSize` | src/fiveman_pager_fork.c:48-61 | the bytes are stored; the fourth one turns them into the length and clears the buffer |
| `Pager.PagerReceiver.ReadBody` | src/fiveman_pager_fork.c:62-66 | the bytes are stored at the pointer; complete exactly when the pointer is the length |
| `Pager.PagerReceiver.StartOver` | src/fiveman_pager_fork.c:67-72 | the receiver is as at the start, but for the old length |
| `Pager.PagerReceiver.Turn` | src/fiveman_pager_fork.c:47-75 | one turn behind select, with any bytes the two reads bring: the receiver after it and what it pages |
| `Pager.SizeDecodedExactlyWhen` | src/fiveman_pager_fork.c:48-61 | under header reads of any lengths the size is decoded if and only if some of them, from the first on, bring exactly four bytes together, and then from those; otherwise everything read is stored as size |
| `PagerProtocol.InvKept` | src/fiveman_pager_fork.c:41-76 | every write, read, page and confirm keeps the invariant that the one outstanding frame is all there is |
| `PagerProtocol.FilledIsTerminated` | src/fiveman_pager_fork.c:38-39 | a complete path in the zeroed buffer is read back exactly |
| `PagerProtocol.PagedIsRequested` | src/fiveman_pager_fork.c:41-76 | in every reachable state the files paged are a prefix of those requested, byte for byte, at most one is outstanding, and none when page_file has returned |
| `PagerProtocol.NoOvershoot` | src/fiveman_pager_fork.c:62-73 | in every reachable state buffer and pipe together hold no more than the length, the frame is whole from the size written until its confirm, no read passes the buffer, and at most one confirm byte is in flight |
| `PagerProtocol.FrameConserved` | src/fiveman_pager_fork.c:62-73 | while the size is still to be read, the one outstanding frame is in the pipe or to be written; afterwards its path is in the buffer, in the pipe or to be written |
| `PagerProtocol.ReceiverStepsMakeATurn` | src/fiveman_pager_fork.c:41-76 | the receiver's steps between two selects make exactly a turn of its code |
| `PagerProtocol.NeverStuck` | src/fiveman_pager_fork.c:79-96 | while a request is outstanding some step can be taken |
| `PagerProtocol.CallReturns` | src/fiveman_pager_fork.c:124-130 | a request takes a bounded number of steps, whatever the short reads and writes |
| `Sampling.SamplingContext.Dorec` | src/fiveman_process_statistics_mac.c:122-165 | a record of type 1 to 6 adds its bytes to exactly its counter, modulo 2^64, and leaves the others; any other type leaves all |
| `Sampling.SamplingContext.SampleInfo` | src/fiveman_process_statistics_mac.c:290-348 | every rate is the largest that, over the whole seconds passed, does not exceed its own counter; all counters start over |
| `Sampling.SecondsAre` | src/fiveman_process_statistics_mac.c:290-295 | the divisor is the microseconds passed in whole seconds, in 32 bits, and 1 for less than a second |
| `Sampling.EventConserves` | src/fiveman_process_statistics_mac.c:132-160 | one record or sample moves bytes between counter, report, remainder and overflow and loses none |
| `Sampling.BytesConserved` | src/fiveman_process_statistics_mac.c:335-347 | over any sequence of records and samples: recorded = reported rates times seconds + remainders + pending + 2^64 times the overflows, which are none below 2^64 bytes |
| `Sampling.SamplingContext.Balance` | src/fiveman_process_statistics_mac.c:335-347 | the same balance, for the counters of a context with any history |
| `Environment.CountEntries` | src/fiveman_process_state.c:89-93 | the counting loop yields the number of entries |
| `Environment.ChildEnvironment` | src/fiveman_process_state.c:76-97 | the child gets all but the parent's last entry, then PATH, then PORT, then the terminator; neither text is cut |
| `Environment.ChildLookup` | src/fiveman_process_state.c:94-97 | every variable's value in the child: the parent's if an entry before its last defines it, else the new PATH or PORT, else none |
| `Environment.NewValuesSeenExactlyWhen` | src/fiveman_process_state.c:76-97 | the new PATH is seen if and only if no earlier entry defines PATH; the new PORT likewise, or if the old one reads the same |
| `Environment.AtoiDecimal` | src/fiveman_process_state.c:82-85 | a port printed with "%i" reads back as the same number |
| `Environment.DecimalDigits` | src/fiveman_process_state.c:82-85 | it is printed in decimal: digit k from the end counts 10^k, without a leading zero |
| `Formatting.UnitNamedExactlyWhen` | src/fiveman.h:21-26 | the suffix names the divisor if and only if the amount is below one petabyte; "PB" is never shown |
| `Formatting.UnitsAre` | src/ncurses_screen.c:16-36 | the divisor and the suffix for every number of bytes |
| `Formatting.AmountIsNearest` | src/ncurses_screen.c:37 | the amount shown is the exact quotient to within half a hundredth |
| `Formatting.AmountInRange` | src/ncurses_screen.c:15-37 | the rounded amount shown of a positive number is at least 1 of its unit; below 1024 petabytes at most 1024, and 1024 if and only if at most half a hundredth is missing to the next unit; above, at most 8192 for a `long long` |
| `Formatting.ShownAs1024` | src/ncurses_screen.c:30-37 | 1048575 bytes are shown as 1024 kB |
| `Formatting.TextIs` | src/ncurses_screen.c:37-38 | the number, then the suffix, and nothing else |
| `Formatting.ByteMeasurementString` | src/ncurses_screen.c:15-39 | at most size - 1 characters of the text and a terminator are written, nothing beside them, and the full length is returned |
| `Formatting.ShownIsPrefix` | src/ncurses_screen.c:41-52 | the pair's text is a prefix of "a/b", all of it exactly when shorter than the size, and no more is cut than the terminator needs |
| `Formatting.ReadwriteByteMeasurementString` | src/ncurses_screen.c:41-52 | on a zeroed array one longer than the size the result is always a terminated prefix of "a/b"; the extra slot is needed exactly when '/' takes the last place |

## Left out

- Infinite loops: the worker's, the receiver's and the event loop's `for(;;)` are steps of a state machine, since they do not end. One turn of the receiver's and of the event loop (from the key on) and the worker's pass up to sampling appear as code too; sampling, publishing and drawing are steps only.
- `Table.Pass` and `EventLoop.Screen.Turn`: are about one thread without interference; interleaving is the step system's matter.
- `Escalation.PoliteEscalation`: speaks of recorded quits; for requests see `QuitRequests`.
- `PagerProtocol.PagedIsRequested`: header reads are assumed whole. After a short one the receiver asks for four bytes again; what then happens to the size is `Pager.SizeDecodedExactlyWhen`.
- `Procfile.ParseProcfile`: opening and closing the file, read errors and NUL bytes are not modelled.
- `ProcessTable.ProcessState.Start`: the environment is `Environment.ChildEnvironment`; the command line, the log redirections and the spawn attributes are not in its contract.
- `EventLoop.Screen.Handle`: the keys 'o' and 'e' also page a file and set `paged_at`; here they change nothing, and the pager protocol is modelled by itself.
- `ProcessTable.ProcessState.Initialize`: what `mktemp` makes of a template that was cut short is not modelled, only that the name is no longer than the template.
- `Sampling.SamplingContext.SampleInfo`: CPU percentage and memory are not modelled, nor is the throttle, which compares seconds with microseconds; samples may come at any time.
- `Formatting.ByteMeasurementString`: amounts are real numbers and "%g" is a parameter; floating-point rounding is not modelled.
- The state column of a drawn row is computed live from the entry, not from the snapshot; only the stored part of a row is modelled.
- `paged_at` is written by the screen thread and read by the worker without the mutex; the log flags of a row are free choices.
- SIGCHLD handling is one reap of one entry's pid at a time, at any moment; signal masks and the other handlers are not modelled.
- Grandchildren and process groups: a signal reaches the child only.
- ncurses drawing, column extents, ages, options, DTrace and Mach set-up and memory freeing have little to prove.
