/** The pager protocol (fiveman_pager_fork.c): one process asks for files, a forked one pages
    them. Requests are frames on a byte pipe, a length in network byte order and the path;
    answers are single bytes on a second pipe.

    Writes may arrive in pieces and body reads may be short. A header is written by one
    atomic write and read by one read that returns all that is there, up to four bytes. */
module Pager {
  import opened Strings

  newtype byte = n: int | 0 <= n < 256

  const BUFFER_SIZE: nat := 65536

  // ---------------------------------------------------------------- network byte order

  function Htonl(n: nat): (bytes: seq<byte>)
    requires n < 0x1_0000_0000
    ensures |bytes| == 4
  {
    [(n / 0x100_0000) as byte, (n / 0x1_0000 % 0x100) as byte, (n / 0x100 % 0x100) as byte, (n % 0x100) as byte]
  }

  function Ntohl(bytes: seq<byte>): nat
    requires |bytes| == 4
  {
    (bytes[0] as nat) * 0x100_0000 + (bytes[1] as nat) * 0x1_0000 + (bytes[2] as nat) * 0x100 + (bytes[3] as nat)
  }

  /** Most significant byte first. */
  lemma NetworkOrder(n: nat)
    requires n < 0x1_0000_0000
    ensures
      var b := Htonl(n);
      n == b[0] as nat * 16777216 + b[1] as nat * 65536 + b[2] as nat * 256 + b[3] as nat
  {
    HeaderRoundTrip(n);
  }

  lemma HeaderRoundTrip(n: nat)
    requires n < 0x1_0000_0000
    ensures Ntohl(Htonl(n)) == n
  {
    assert n == n / 0x100 * 0x100 + n % 0x100;
    assert n / 0x100 == n / 0x1_0000 * 0x100 + n / 0x100 % 0x100;
    assert n / 0x1_0000 == n / 0x100_0000 * 0x100 + n / 0x1_0000 % 0x100;
  }

  // ---------------------------------------------------------------- the receiver's variables

  /** reading_size, reading_file, buffer_pointer, num_bytes and the buffer. */
  datatype Receiver = Receiver(readingSize: bool, readingFile: bool, at: nat, numBytes: nat, buffer: seq<byte>)

  function Zeros(): (buffer: seq<byte>)
    ensures |buffer| == BUFFER_SIZE
  {
    seq(BUFFER_SIZE, _ => 0)
  }

  function FreshReceiver(): Receiver
  {
    Receiver(true, false, 0, 0, Zeros())
  }

  function Stored(buffer: seq<byte>, at: nat, bytes: seq<byte>): (r: seq<byte>)
    requires at + |bytes| <= |buffer|
    ensures |r| == |buffer|
  {
    buffer[..at] + bytes + buffer[at + |bytes|..]
  }

  /** Lines 49-60: a read meant for the size brought these bytes. */
  function SizeRead(r: Receiver, bytes: seq<byte>): Receiver
    requires r.at + |bytes| <= |r.buffer| && |r.buffer| == BUFFER_SIZE
  {
    var buffer := Stored(r.buffer, r.at, bytes);
    if r.at + |bytes| == 4 then Receiver(false, true, 0, Ntohl(buffer[..4]), Zeros())
    else r.(at := r.at + |bytes|, buffer := buffer)
  }

  /** Lines 63-66: a read meant for the path brought these bytes. */
  function BodyRead(r: Receiver, bytes: seq<byte>): Receiver
    requires r.at + |bytes| <= |r.buffer|
  {
    r.(at := r.at + |bytes|, buffer := Stored(r.buffer, r.at, bytes))
  }

  /** The two reads of a turn do not pass the end of the buffer. */
  predicate TurnFits(r: Receiver, header: seq<byte>, body: seq<byte>)
  {
    && |r.buffer| == BUFFER_SIZE
    && (r.readingSize ==> r.at + |header| <= BUFFER_SIZE)
    && var r1 := if r.readingSize then SizeRead(r, header) else r;
       r1.readingFile ==> r1.at + |body| <= BUFFER_SIZE
  }

  /** One turn of the receiver's loop, when its reads bring these bytes: the receiver after it,
      and what it has paged. */
  function TurnOf(r: Receiver, header: seq<byte>, body: seq<byte>): (Receiver, seq<seq<byte>>)
    requires TurnFits(r, header, body)
  {
    var r1 := if r.readingSize then SizeRead(r, header) else r;
    if !r1.readingFile then (r1, [])
    else
      var r2 := BodyRead(r1, body);
      if r2.at == r2.numBytes then (FreshReceiver().(numBytes := r2.numBytes), [CString(r2.buffer, 0)])
      else (r2, [])
  }

  // ---------------------------------------------------------------- short header reads

  function Total(chunks: seq<seq<byte>>): nat
  {
    if chunks == [] then 0 else |chunks[0]| + Total(chunks[1..])
  }

  function Joined(chunks: seq<seq<byte>>): (bytes: seq<byte>)
    ensures |bytes| == Total(chunks)
  {
    if chunks == [] then [] else chunks[0] + Joined(chunks[1..])
  }

  /** Reads of the size, of any lengths, until it is decoded. */
  function HeaderReads(r: Receiver, chunks: seq<seq<byte>>): Receiver
    requires |r.buffer| == BUFFER_SIZE && r.at + Total(chunks) <= BUFFER_SIZE
    decreases |chunks|
  {
    if chunks == [] || !r.readingSize then r else HeaderReads(SizeRead(r, chunks[0]), chunks[1..])
  }

  /** Some of the reads, from the first on, bring exactly n bytes together. */
  predicate Brings(chunks: seq<seq<byte>>, n: int)
  {
    exists j :: 0 < j <= |chunks| && Total(chunks[..j]) == n
  }

  /** The same, read by read. */
  predicate Meets(chunks: seq<seq<byte>>, n: int)
  {
    chunks != [] && (|chunks[0]| == n || Meets(chunks[1..], n - |chunks[0]|))
  }

  lemma {:induction false} MeetsIs(chunks: seq<seq<byte>>, n: int)
    ensures Meets(chunks, n) <==> Brings(chunks, n)
  {
    if chunks != [] {
      var rest := chunks[1..];
      MeetsIs(rest, n - |chunks[0]|);
      assert chunks[..1][1..] == [];
      assert Total(chunks[..1]) == |chunks[0]|;
      forall j | 0 < j <= |rest|
        ensures Total(chunks[..j + 1]) == |chunks[0]| + Total(rest[..j])
      {
        assert chunks[..j + 1][1..] == rest[..j];
      }
      if j :| 1 < j <= |chunks| && Total(chunks[..j]) == n {
        assert Total(rest[..j - 1]) == n - |chunks[0]|;
      }
    }
  }

  lemma {:induction false} HeaderReadsFrom(r: Receiver, got: seq<byte>, chunks: seq<seq<byte>>)
    requires r.readingSize && !r.readingFile && |r.buffer| == BUFFER_SIZE && r.at == |got|
    requires |got| + Total(chunks) <= BUFFER_SIZE && r.buffer[..|got|] == got
    ensures
      var r' := HeaderReads(r, chunks);
      && (r'.readingFile <==> Meets(chunks, 4 - |got|)) && r'.readingSize == !r'.readingFile
      && (r'.readingFile ==> Total(chunks) + |got| >= 4 && r'.numBytes == Ntohl((got + Joined(chunks))[..4]))
      && (!r'.readingFile ==> r'.at == |got| + Total(chunks))
    decreases |chunks|
  {
    hide Zeros, Ntohl;
    if chunks != [] {
      var more := got + chunks[0];
      assert got + Joined(chunks) == more + Joined(chunks[1..]);
      assert Stored(r.buffer, r.at, chunks[0])[..|more|] == more;
      if |more| == 4 {
        assert (more + Joined(chunks[1..]))[..4] == more;
        assert HeaderReads(SizeRead(r, chunks[0]), chunks[1..]) == SizeRead(r, chunks[0]);
      } else {
        HeaderReadsFrom(SizeRead(r, chunks[0]), more, chunks[1..]);
      }
    }
  }

  /** Under short header reads, of any lengths, the size is decoded exactly if some of the
      reads, from the first on, bring four bytes together; then it is the size those four bytes
      say. Otherwise the receiver goes on storing what it reads as if it were the size. */
  lemma SizeDecodedExactlyWhen(chunks: seq<seq<byte>>)
    requires Total(chunks) <= BUFFER_SIZE
    ensures
      var r := HeaderReads(FreshReceiver(), chunks);
      && (r.readingFile <==> Brings(chunks, 4))
      && (r.readingFile ==> Total(chunks) >= 4 && r.numBytes == Ntohl(Joined(chunks)[..4]))
      && (!r.readingFile ==> r.readingSize && r.at == Total(chunks))
  {
    hide Zeros, Ntohl, Brings, Meets, HeaderReads, Total, Joined;
    HeaderReadsFrom(FreshReceiver(), [], chunks);
    MeetsIs(chunks, 4);
    assert [] + Joined(chunks) == Joined(chunks);
  }

  /** The receiver as the C program keeps it: variables and one fixed buffer. */
  class PagerReceiver {
    var readingSize: bool
    var readingFile: bool
    var bufferPointer: nat
    var numBytes: nat
    const buffer: array<byte>

    ghost predicate Valid()
    {
      buffer.Length == BUFFER_SIZE
    }

    ghost function Value(): Receiver
      reads this, buffer
    {
      Receiver(readingSize, readingFile, bufferPointer, numBytes, buffer[..])
    }

    constructor ()
      ensures Valid() && Value() == FreshReceiver() && fresh(buffer) && buffer.Length == 65536
    {
      readingSize, readingFile, bufferPointer, numBytes := true, false, 0, 0;
      buffer := new byte[BUFFER_SIZE](_ => 0);
      new;
      assert buffer[..] == Zeros();
    }

    /** bzero(buffer, zero_size) */
    method Bzero()
      requires Valid()
      modifies buffer
      ensures buffer[..] == Zeros()
    {
      for i := 0 to buffer.Length
        invariant forall j :: 0 <= j < i ==> buffer[j] == 0
      {
        buffer[i] := 0;
      }
    }

    /** The kernel copies what it read to &buffer[buffer_pointer]. */
    method Copy(bytes: seq<byte>)
      requires Valid() && bufferPointer + |bytes| <= BUFFER_SIZE
      modifies buffer
      ensures buffer[..] == Stored(old(buffer[..]), bufferPointer, bytes)
    {
      for i := 0 to |bytes|
        invariant buffer[..] == Stored(old(buffer[..]), bufferPointer, bytes[..i])
      {
        buffer[bufferPointer + i] := bytes[i];
      }
      assert bytes[..|bytes|] == bytes;
    }

    method ReadSize(bytes: seq<byte>)
      requires Valid() && bufferPointer + |bytes| <= BUFFER_SIZE
      modifies this, buffer
      ensures Value() == SizeRead(old(Value()), bytes)
    {
      Copy(bytes);
      bufferPointer := bufferPointer + |bytes|;
      if bufferPointer == 4 {
        numBytes := Ntohl(buffer[..4]);
        readingSize, readingFile := false, true;
        bufferPointer := 0;
        Bzero();
      }
    }

    method ReadBody(bytes: seq<byte>) returns (complete: bool)
      requires Valid() && bufferPointer + |bytes| <= BUFFER_SIZE
      modifies this, buffer
      ensures Value() == BodyRead(old(Value()), bytes)
      ensures complete <==> bufferPointer == numBytes
    {
      Copy(bytes);
      bufferPointer := bufferPointer + |bytes|;
      complete := bufferPointer == numBytes;
    }

    /** One turn of the loop behind select; `header` and `body` are what its reads bring, and
        `paged` is the file it hands to the pager, if any. */
    method Turn(header: seq<byte>, body: seq<byte>) returns (paged: seq<seq<byte>>)
      requires Valid() && TurnFits(Value(), header, body)
      modifies this, buffer
      ensures (Value(), paged) == TurnOf(old(Value()), header, body)
    {
      hide Stored, Ntohl, Zeros;
      paged := [];
      if readingSize {
        ReadSize(header);
      }
      if readingFile {
        var complete := ReadBody(body);
        if complete {
          paged := [CString(buffer[..], 0)];
          StartOver();
        }
      }
    }

    /** Lines 68-71, after the pager. */
    method StartOver()
      requires Valid()
      modifies this, buffer
      ensures Value() == FreshReceiver().(numBytes := old(numBytes))
    {
      readingSize, readingFile := true, false;
      bufferPointer := 0;
      Bzero();
    }
  }
}
