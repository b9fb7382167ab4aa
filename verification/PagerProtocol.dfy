/** Sender, receiver and the two pipes, interleaved in any order: what is paged is what was
    asked for, in order and byte for byte, and every request is answered. */
module PagerProtocol {
  import opened Pager
  import opened Strings

  /** fiveman_pager_fork_page_file: its two writes, then the wait for the confirm byte. */
  datatype Sender =
    | Idle
    | WritingSize(file: seq<byte>)
    | WritingBody(file: seq<byte>, sent: nat)
    | Waiting(file: seq<byte>)

  /** fiveman_pager_fork_main: at select, at the body read (which follows a complete header
      without another select), in the pager, with the confirm byte written, or past the end
      of the buffer. */
  datatype ReceiverPc = AtSelect | AtBody | Paging | Confirmed | Overrun

  /** `requests` and `paged` are history: the files asked for and the files paged. */
  datatype System = System(
    requests: seq<seq<byte>>,
    sender: Sender,
    pipe: seq<byte>,
    pc: ReceiverPc,
    receiver: Receiver,
    confirms: seq<byte>,
    paged: seq<seq<byte>>)

  datatype Step =
    | Call(file: seq<byte>)
    | WriteSize
    | WriteBody(k: nat)
    | TakeConfirm
    | Select(k: nat)
    | ReadBody(k: nat)
    | PagerEnds
    | StartOver

  /** A path as fiveman_process_state_initialize makes them: short, and without a zero. */
  predicate IsPath(file: seq<byte>)
  {
    |file| < BUFFER_SIZE && 0 !in file
  }

  function Start(): System
  {
    System([], Idle, [], AtSelect, FreshReceiver(), [], [])
  }

  /** After the body: with nothing (more) to write the sender waits at once. */
  function BodyFrom(file: seq<byte>, sent: nat): Sender
  {
    if sent < |file| then WritingBody(file, sent) else Waiting(file)
  }

  predicate Enabled(s: System, step: Step)
  {
    match step
    case Call(file) => s.sender == Idle && IsPath(file)
    case WriteSize => s.sender.WritingSize? && |s.sender.file| < 0x1_0000_0000
    case WriteBody(k) => s.sender.WritingBody? && 1 <= k && s.sender.sent + k <= |s.sender.file|
    case TakeConfirm => s.sender.Waiting? && s.confirms != []
    case Select(k) =>
      && s.pc == AtSelect && s.pipe != [] && |s.receiver.buffer| == BUFFER_SIZE
      && k == if s.receiver.readingSize then (if |s.pipe| < 4 then |s.pipe| else 4) else 0
    case ReadBody(k) =>
      && s.pc == AtBody && |s.receiver.buffer| == BUFFER_SIZE && k <= |s.pipe| && k <= s.receiver.numBytes
      && (s.receiver.numBytes > 0 ==> k >= 1)
    case PagerEnds => s.pc == Paging
    case StartOver => s.pc == Confirmed
  }

  function Next(s: System, step: Step): System
    requires Enabled(s, step)
  {
    match step
    case Call(file) => s.(requests := s.requests + [file], sender := WritingSize(file))
    case WriteSize =>
      s.(pipe := s.pipe + Htonl(|s.sender.file|), sender := BodyFrom(s.sender.file, 0))
    case WriteBody(k) =>
      var sent := s.sender.sent;
      s.(pipe := s.pipe + s.sender.file[sent..sent + k], sender := BodyFrom(s.sender.file, sent + k))
    case TakeConfirm =>
      // One read of up to 4096 bytes.
      s.(confirms := if |s.confirms| <= 4096 then [] else s.confirms[4096..], sender := Idle)
    case Select(k) => Selected(s, k)
    case ReadBody(k) => BodyArrived(s, k)
    case PagerEnds =>
      // waitpid returned: the pager showed the file named by the buffer; '1' is written.
      s.(paged := s.paged + [CString(s.receiver.buffer, 0)], confirms := s.confirms + [49], pc := Confirmed)
    case StartOver =>
      s.(receiver := FreshReceiver().(numBytes := s.receiver.numBytes), pc := AtSelect)
  }

  /** select returned, and the branch for the size has run if it applies. */
  function Selected(s: System, k: nat): System
    requires k <= |s.pipe| && |s.receiver.buffer| == BUFFER_SIZE
  {
    if s.receiver.readingSize then
      if s.receiver.at + k > BUFFER_SIZE then s.(pc := Overrun)
      else
        var r := SizeRead(s.receiver, s.pipe[..k]);
        s.(pipe := s.pipe[k..], receiver := r, pc := if r.readingFile then AtBody else AtSelect)
    else
      s.(pc := if s.receiver.readingFile then AtBody else AtSelect)
  }

  function BodyArrived(s: System, k: nat): System
    requires k <= |s.pipe| && |s.receiver.buffer| == BUFFER_SIZE
  {
    if s.receiver.at + k > BUFFER_SIZE then s.(pc := Overrun)
    else
      var r := BodyRead(s.receiver, s.pipe[..k]);
      s.(pipe := s.pipe[k..], receiver := r, pc := if r.at == r.numBytes then Paging else AtSelect)
  }

  // ---------------------------------------------------------------- the invariant

  /** The buffer after n bytes of the file have been stored in zeros. */
  function Filled(file: seq<byte>, n: nat): (buffer: seq<byte>)
    requires n <= |file| && |file| <= BUFFER_SIZE
    ensures |buffer| == BUFFER_SIZE
  {
    Stored(Zeros(), 0, file[..n])
  }

  /** The receiver waits for a size, or is about to. */
  predicate Ready(s: System)
  {
    || s.pc == Confirmed
    || (s.pc == AtSelect && s.receiver == FreshReceiver().(numBytes := s.receiver.numBytes))
  }

  /** The first n bytes of the one outstanding file have been written. They are, with the
      size in front, all in the pipe; or the size has been read, and they are in the buffer
      and in the pipe; or all of them are in the buffer. Nothing else is in the pipe. */
  predicate Outstanding(s: System, file: seq<byte>, n: nat)
  {
    var r := s.receiver;
    && IsPath(file) && n <= |file|
    && s.requests == s.paged + [file] && s.confirms == []
    && (|| (Ready(s) && s.pipe == Htonl(|file|) + file[..n])
        || (&& (s.pc == AtBody || s.pc == AtSelect) && (r.at < |file| || (s.pc == AtBody && file == []))
            && !r.readingSize && r.readingFile && r.numBytes == |file|
            && r.at <= n && r.buffer == Filled(file, r.at) && s.pipe == file[r.at..n])
        || (&& s.pc == Paging && n == |file| && s.pipe == [] && r.buffer == Filled(file, n)
            && !r.readingSize && r.readingFile && r.at == r.numBytes == |file|))
  }

  /** Everything asked for has been paged. */
  predicate Settled(s: System)
  {
    s.requests == s.paged && s.pipe == [] && Ready(s)
  }

  predicate Inv(s: System)
  {
    && |s.receiver.buffer| == BUFFER_SIZE && s.receiver.at <= BUFFER_SIZE
    && match s.sender
       case Idle => Settled(s) && s.confirms == []
       case WritingSize(file) =>
         IsPath(file) && s.requests == s.paged + [file] && s.pipe == [] && Ready(s) && s.confirms == []
       case WritingBody(file, n) => n < |file| && Outstanding(s, file, n)
       case Waiting(file) =>
         || Outstanding(s, file, |file|)
         || (Settled(s) && |s.confirms| == 1 && s.paged != [] && s.paged[|s.paged| - 1] == file)
  }

  lemma StoreMore(file: seq<byte>, at: nat, k: nat)
    requires |file| <= BUFFER_SIZE && at + k <= |file|
    ensures Stored(Filled(file, at), at, file[at..at + k]) == Filled(file, at + k)
  {
    assert file[..at] + file[at..at + k] == file[..at + k];
  }

  /** The buffer is zero-terminated because the path is shorter than the buffer. */
  lemma FilledIsTerminated(file: seq<byte>)
    requires IsPath(file)
    ensures CString(Filled(file, |file|), 0) == file
  {
    var buffer := Filled(file, |file|);
    assert buffer[..|file|] == file && buffer[|file|] == 0;
    CStringIs(buffer, 0, file);
  }

  // ---------------------------------------------------------------- kept by every step

  lemma WriteKept(s: System, k: nat)
    requires Inv(s) && Enabled(s, WriteBody(k))
    ensures Inv(Next(s, WriteBody(k)))
  {
    WriteMore(s, Next(s, WriteBody(k)), s.sender.file, s.sender.sent, k);
  }

  lemma WriteMore(s: System, s': System, file: seq<byte>, n: nat, k: nat)
    requires n + k <= |file| && Outstanding(s, file, n) && n < |file| && 1 <= k
    requires s'.pipe == s.pipe + file[n..n + k] && s' == s.(pipe := s'.pipe, sender := s'.sender)
    ensures Outstanding(s', file, n + k)
  {
    Join(file, 0, n, k);
    assert file[0..n] == file[..n] && file[0..n + k] == file[..n + k];
    assert (Htonl(|file|) + file[..n]) + file[n..n + k] == Htonl(|file|) + (file[..n] + file[n..n + k]);
    if s.receiver.at <= n {
      Join(file, s.receiver.at, n, k);
    }
  }

  lemma Join(file: seq<byte>, at: nat, n: nat, k: nat)
    requires at <= n && n + k <= |file|
    ensures file[at..n] + file[n..n + k] == file[at..n + k]
  {
  }

  lemma SizeArrives(s: System, file: seq<byte>, n: nat, k: nat)
    requires |s.receiver.buffer| == BUFFER_SIZE && Outstanding(s, file, n)
    requires Enabled(s, Select(k)) && s.receiver.readingSize
    ensures Outstanding(Next(s, Select(k)), file, n) && Next(s, Select(k)).sender == s.sender
    ensures |Next(s, Select(k)).receiver.buffer| == BUFFER_SIZE
    ensures Next(s, Select(k)).pc == AtBody
  {
    var size := Htonl(|file|);
    assert s.pipe[..4] == size && s.pipe[4..] == file[..n];
    assert Stored(s.receiver.buffer, 0, size)[..4] == size;
    HeaderRoundTrip(|file|);
    assert file[0..n] == file[..n];
    assert Filled(file, 0) == Zeros();
  }

  lemma BodyArrives(s: System, file: seq<byte>, n: nat, k: nat)
    requires |s.receiver.buffer| == BUFFER_SIZE && Outstanding(s, file, n) && Enabled(s, ReadBody(k))
    ensures Outstanding(Next(s, ReadBody(k)), file, n) && Next(s, ReadBody(k)).sender == s.sender
    ensures |Next(s, ReadBody(k)).receiver.buffer| == BUFFER_SIZE
    ensures s.receiver.at + k <= |file|
  {
    hide Zeros, Stored, CString, Htonl, Ntohl;
    var at := s.receiver.at;
    assert s.pipe == file[at..n];
    assert s.pipe[..k] == file[at..at + k] && s.pipe[k..] == file[at + k..n];
    StoreMore(file, at, k);
  }

  lemma SelectKept(s: System, k: nat)
    requires Inv(s) && Enabled(s, Select(k))
    ensures Inv(Next(s, Select(k)))
  {
    match s.sender
    case WritingBody(file, n) => if s.receiver.readingSize { SizeArrives(s, file, n, k); }
    case Waiting(file) => if s.receiver.readingSize { SizeArrives(s, file, |file|, k); }
    case _ =>
  }

  lemma ReadKept(s: System, k: nat)
    requires Inv(s) && Enabled(s, ReadBody(k))
    ensures Inv(Next(s, ReadBody(k)))
  {
    match s.sender
    case WritingBody(file, n) => BodyArrives(s, file, n, k);
    case Waiting(file) => BodyArrives(s, file, |file|, k);
    case _ =>
  }

  lemma PagerKept(s: System)
    requires Inv(s) && Enabled(s, PagerEnds)
    ensures Inv(Next(s, PagerEnds))
  {
    if s.sender.Waiting? {
      FilledIsTerminated(s.sender.file);
    }
  }

  lemma InvKept(s: System, step: Step)
    requires Inv(s) && Enabled(s, step)
    ensures Inv(Next(s, step))
  {
    match step
    case WriteSize =>
      assert s.sender.file[..0] == [];
      assert [] + Htonl(|s.sender.file|) == Htonl(|s.sender.file|) + [];
    case WriteBody(k) => WriteKept(s, k);
    case Select(k) => SelectKept(s, k);
    case ReadBody(k) => ReadKept(s, k);
    case PagerEnds => PagerKept(s);
    case _ =>
  }

  predicate IsRun(run: seq<System>, steps: seq<Step>)
  {
    && |run| == |steps| + 1
    && forall k {:trigger steps[k]} :: 0 <= k < |steps| ==>
         Enabled(run[k], steps[k]) && run[k + 1] == Next(run[k], steps[k])
  }

  lemma {:induction false} Reachable(run: seq<System>, steps: seq<Step>, k: nat)
    requires IsRun(run, steps) && run[0] == Start() && k < |run|
    ensures Inv(run[k])
  {
    if k > 0 {
      Reachable(run, steps, k - 1);
      InvKept(run[k - 1], steps[k - 1]);
    }
  }

  // ---------------------------------------------------------------- main results

  /** In every reachable state the files paged are a prefix of the files requested, byte for
      byte; at most one request is outstanding; and whenever page_file has returned, everything
      requested has been paged. */
  lemma PagedIsRequested(run: seq<System>, steps: seq<Step>, k: nat)
    requires IsRun(run, steps) && run[0] == Start() && k < |run|
    ensures run[k].paged <= run[k].requests && |run[k].requests| <= |run[k].paged| + 1
    ensures run[k].sender == Idle ==> run[k].paged == run[k].requests
  {
    Reachable(run, steps, k);
  }

  /** The bytes in the buffer, in the pipe and still to be written are together the one
      outstanding frame, so a read that asks for too much cannot overshoot; the buffer never
      overflows; and at most one confirm byte is in flight. */
  lemma NoOvershoot(run: seq<System>, steps: seq<Step>, k: nat)
    requires IsRun(run, steps) && run[0] == Start() && k < |run|
    ensures run[k].pc != Overrun && |run[k].confirms| <= 1
    ensures run[k].receiver.readingFile && run[k].pc != Confirmed ==>
      run[k].receiver.at + |run[k].pipe| <= run[k].receiver.numBytes < BUFFER_SIZE
    ensures run[k].sender.WritingBody? ==> FrameWhole(run[k], run[k].sender.file, run[k].sender.sent)
    ensures run[k].sender.Waiting? && run[k].confirms == [] ==>
      FrameWhole(run[k], run[k].sender.file, |run[k].sender.file|)
  {
    Reachable(run, steps, k);
    if run[k].sender.WritingBody? {
      FrameConserved(run[k], run[k].sender.file, run[k].sender.sent);
    }
    if run[k].sender.Waiting? && run[k].confirms == [] {
      FrameConserved(run[k], run[k].sender.file, |run[k].sender.file|);
    }
  }

  /** No byte of the frame is lost or doubled: while the receiver has the size still to read,
      or has not yet turned from the last frame, the frame is in the pipe or to be written;
      afterwards its path is in the buffer, in the pipe or to be written. */
  predicate FrameWhole(s: System, file: seq<byte>, n: nat)
  {
    && n <= |file| < BUFFER_SIZE && s.receiver.at <= |s.receiver.buffer|
    && if s.receiver.readingSize || s.pc == Confirmed
       then s.pipe + file[n..] == Htonl(|file|) + file
       else s.receiver.buffer[..s.receiver.at] + s.pipe + file[n..] == file
  }

  lemma FrameConserved(s: System, file: seq<byte>, n: nat)
    requires Outstanding(s, file, n) && s.receiver.at <= |s.receiver.buffer|
    ensures FrameWhole(s, file, n)
  {
    assert file[..n] + file[n..] == file;
    assert Htonl(|file|) + (file[..n] + file[n..]) == (Htonl(|file|) + file[..n]) + file[n..];
    if s.pipe != Htonl(|file|) + file[..n] {
      var at := s.receiver.at;
      assert Filled(file, at)[..at] == file[..at];
      assert file[..at] + file[at..n] == file[..n];
    }
  }

  // ---------------------------------------------------------------- the receiver's code

  /** The receiver's steps between two selects change its variables, and page, as one turn of
      its loop does (PagerReceiver.Turn). */
  lemma ReceiverStepsMakeATurn(s: System, k: nat, j: nat)
    requires Inv(s) && Enabled(s, Select(k))
    requires Next(s, Select(k)).pc == AtBody ==> Enabled(Next(s, Select(k)), ReadBody(j))
    ensures
      var s1, header := Next(s, Select(k)), if s.receiver.readingSize then s.pipe[..k] else [];
      && s1.pc == AtBody
      && var s2 := Next(s1, ReadBody(j));
         && TurnFits(s.receiver, header, s1.pipe[..j])
         && TurnOf(s.receiver, header, s1.pipe[..j]) ==
              if s2.pc == Paging
              then (Next(Next(s2, PagerEnds), StartOver).receiver, Next(s2, PagerEnds).paged[|s.paged|..])
              else (s2.receiver, [])
  {
    hide Inv, Enabled, Outstanding, CString, Zeros, Filled, Stored, Htonl, Ntohl;
    TurnArrives(s, k, j);
    SelectIsSize(s, k);
    var s1 := Next(s, Select(k));
    ReadIsBody(s1, j);
    if Next(s1, ReadBody(j)).pc == Paging {
      var file := CString(BodyRead(s1.receiver, s1.pipe[..j]).buffer, 0);
      assert (s.paged + [file])[|s.paged|..] == [file];
    }
  }

  lemma TurnArrives(s: System, k: nat, j: nat)
    requires Inv(s) && Enabled(s, Select(k))
    requires Next(s, Select(k)).pc == AtBody ==> Enabled(Next(s, Select(k)), ReadBody(j))
    ensures
      var s1 := Next(s, Select(k));
      && s1.pc == AtBody && Enabled(s1, ReadBody(j)) && j <= |s1.pipe| && |s.receiver.buffer| == BUFFER_SIZE
      && s1.receiver.readingFile && |s1.receiver.buffer| == BUFFER_SIZE && s1.receiver.at + j <= BUFFER_SIZE
  {
    hide Zeros, Filled, Stored, Htonl, Ntohl;
    match s.sender
    case WritingBody(file, n) => TurnWithin(s, file, n, k, j);
    case Waiting(file) => TurnWithin(s, file, |file|, k, j);
    case _ =>
  }

  lemma SelectIsSize(s: System, k: nat)
    requires Enabled(s, Select(k)) && Next(s, Select(k)).pc == AtBody
    ensures Next(s, Select(k)).paged == s.paged
    ensures s.receiver.readingSize ==>
      s.receiver.at + k <= BUFFER_SIZE && k <= |s.pipe|
      && Next(s, Select(k)).receiver == SizeRead(s.receiver, s.pipe[..k])
    ensures !s.receiver.readingSize ==> Next(s, Select(k)).receiver == s.receiver
  {
    hide Zeros, Stored, Htonl, Ntohl;
  }

  lemma ReadIsBody(s: System, j: nat)
    requires Enabled(s, ReadBody(j)) && s.receiver.at + j <= BUFFER_SIZE
    ensures
      var r, s2 := BodyRead(s.receiver, s.pipe[..j]), Next(s, ReadBody(j));
      && s2.receiver == r && s2.paged == s.paged
      && s2.pc == (if r.at == r.numBytes then Paging else AtSelect)
      && (s2.pc == Paging ==>
            && Enabled(s2, PagerEnds) && Enabled(Next(s2, PagerEnds), StartOver)
            && Next(s2, PagerEnds).paged == s.paged + [CString(r.buffer, 0)]
            && Next(Next(s2, PagerEnds), StartOver).receiver == FreshReceiver().(numBytes := r.numBytes))
  {
    hide Zeros, Stored, Htonl, Ntohl, CString;
  }

  lemma TurnWithin(s: System, file: seq<byte>, n: nat, k: nat, j: nat)
    requires |s.receiver.buffer| == BUFFER_SIZE && Outstanding(s, file, n) && Enabled(s, Select(k))
    requires Next(s, Select(k)).pc == AtBody ==> Enabled(Next(s, Select(k)), ReadBody(j))
    ensures Next(s, Select(k)).pc == AtBody && Outstanding(Next(s, Select(k)), file, n)
    ensures |Next(s, Select(k)).receiver.buffer| == BUFFER_SIZE
    ensures Next(s, Select(k)).receiver.at + j <= |file| < BUFFER_SIZE && Next(s, Select(k)).receiver.readingFile
  {
    if s.receiver.readingSize {
      SizeArrives(s, file, n, k);
    }
    BodyArrives(Next(s, Select(k)), file, n, j);
  }

  // ---------------------------------------------------------------- every request is answered

  /** What a request still costs: bytes to write weigh three, bytes in the pipe two. */
  function Cost(s: System): nat
  {
    (match s.sender
     case Idle => 0
     case WritingSize(file) => 3 * (4 + |file|) + 3
     case WritingBody(file, n) => 3 * (if n <= |file| then |file| - n else 0) + 2
     case Waiting(_) => 1)
    + 2 * |s.pipe|
    + (if s.requests == s.paged then (if s.pc == Confirmed then 1 else 0)
       else match s.pc
            case Confirmed => 6
            case AtSelect => if s.receiver.readingSize then 5 else 4
            case AtBody => 3
            case Paging => 2
            case Overrun => 0)
  }

  lemma SelectCosts(s: System, k: nat)
    requires Inv(s) && Enabled(s, Select(k))
    ensures Cost(Next(s, Select(k))) < Cost(s)
  {
    match s.sender
    case WritingBody(file, n) => if s.receiver.readingSize { SizeArrives(s, file, n, k); }
    case Waiting(file) => if s.receiver.readingSize { SizeArrives(s, file, |file|, k); }
    case _ =>
  }

  lemma ReadCosts(s: System, k: nat)
    requires Inv(s) && Enabled(s, ReadBody(k))
    ensures Cost(Next(s, ReadBody(k))) < Cost(s)
  {
    hide Zeros, Filled, Stored, CString, Htonl, Ntohl;
    match s.sender
    case WritingBody(file, n) => ReadCostsWithin(s, file, n, k);
    case Waiting(file) => ReadCostsWithin(s, file, |file|, k);
    case _ =>
  }

  lemma ReadCostsWithin(s: System, file: seq<byte>, n: nat, k: nat)
    requires |s.receiver.buffer| == BUFFER_SIZE && Outstanding(s, file, n) && Enabled(s, ReadBody(k))
    ensures Cost(Next(s, ReadBody(k))) < Cost(s)
  {
    hide Outstanding, Zeros, Filled, Stored, CString, Htonl, Ntohl;
    AtBodyIs(s, file, n);
  }

  lemma AtBodyIs(s: System, file: seq<byte>, n: nat)
    requires Outstanding(s, file, n) && s.pc == AtBody
    ensures |s.requests| == |s.paged| + 1 && s.receiver.numBytes == |file| < BUFFER_SIZE
    ensures s.receiver.readingFile && !s.receiver.readingSize && s.receiver.at + |s.pipe| <= |file|
  {
    hide Zeros, Filled, Stored, CString, Htonl, Ntohl;
  }

  lemma PagerCosts(s: System)
    requires Inv(s) && Enabled(s, PagerEnds)
    ensures Cost(Next(s, PagerEnds)) < Cost(s)
  {
    if s.sender.Waiting? {
      FilledIsTerminated(s.sender.file);
    }
    hide Zeros, Filled, Stored, CString, Htonl, Ntohl;
  }

  lemma StartOverCosts(s: System)
    requires Inv(s) && Enabled(s, StartOver)
    ensures Cost(Next(s, StartOver)) < Cost(s)
  {
    hide Zeros, Filled, Stored, CString, Htonl, Ntohl;
  }

  lemma CostShrinks(s: System, step: Step)
    requires Inv(s) && Enabled(s, step) && !step.Call?
    ensures Cost(Next(s, step)) < Cost(s)
  {
    match step
    case Select(k) => SelectCosts(s, k);
    case ReadBody(k) => ReadCosts(s, k);
    case PagerEnds => PagerCosts(s);
    case StartOver => StartOverCosts(s);
    case _ =>
  }

  /** While a request is outstanding, some step other than a new call can be taken. */
  lemma NeverStuck(s: System)
    requires Inv(s) && s.sender != Idle
    ensures exists step :: Enabled(s, step) && !step.Call?
  {
    var pipe := |s.pipe|;
    var step := if s.sender.WritingSize? then WriteSize
                else if s.sender.WritingBody? then WriteBody(1)
                else if s.confirms != [] then TakeConfirm
                else if s.pc == Confirmed then StartOver
                else if s.pc == Paging then PagerEnds
                else if s.pc == AtBody then ReadBody(if s.receiver.numBytes == 0 then 0 else 1)
                else Select(if s.receiver.readingSize then (if pipe < 4 then pipe else 4) else 0);
    assert Enabled(s, step);
  }

  /** Between two calls the system takes at most Cost steps, so page_file always returns. */
  lemma {:induction false} CallReturns(run: seq<System>, steps: seq<Step>, k: nat)
    requires IsRun(run, steps) && Inv(run[0]) && k < |run|
    requires forall j {:trigger steps[j]} :: 0 <= j < |steps| ==> !steps[j].Call?
    ensures Inv(run[k]) && k + Cost(run[k]) <= Cost(run[0])
  {
    if k > 0 {
      CallReturns(run, steps, k - 1);
      InvKept(run[k - 1], steps[k - 1]);
      CostShrinks(run[k - 1], steps[k - 1]);
    }
  }
}
