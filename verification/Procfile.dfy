/** The Procfile reader (procfile.c): a fixed buffer, one read per chunk, a scanner that
    alternates between two delimiters, and a seek back to the last delimiter it consumed. */
module Procfile {
  import opened Instructions
  import opened ProcfileScan
  import opened ProcfileChunks

  /** A FILE opened for reading. */
  class File {
    const content: string
    var pos: nat
    var eof: bool

    ghost predicate Valid()
      reads this
    {
      pos <= |content|
    }

    constructor (content: string)
      ensures Valid() && this.content == content && pos == 0 && !eof
    {
      this.content, pos, eof := content, 0, false;
    }

    /** fread fills the buffer as far as the file goes; a short count sets the end-of-file flag. */
    method Fread(line: array<char>) returns (read: nat)
      requires Valid()
      modifies this`pos, this`eof, line
      ensures Valid() && read == Min(line.Length, |content| - old(pos)) && pos == old(pos) + read
      ensures read <= line.Length && pos <= |content|
      ensures line[..read] == content[old(pos)..old(pos) + read]
      ensures eof <==> old(eof) || old(pos) + line.Length > |content|
    {
      read := Min(line.Length, |content| - pos);
      for i := 0 to read
        invariant pos == old(pos) && eof == old(eof) && line[..i] == content[pos..pos + i]
      {
        line[i] := content[pos + i];
      }
      pos := pos + read;
      eof := eof || read < line.Length;
    }

    /** fseek(SEEK_SET) clears the end-of-file flag. */
    method Fseek(to: nat)
      requires to <= |content|
      modifies this`pos, this`eof
      ensures Valid() && pos == to && !eof
    {
      pos, eof := to, false;
    }
  }

  /** The parser's `head`, `cur`, `prev` and `found`, and the list they build. `tokens` and
      `nodes` are what has been appended so far. */
  class ListBuilder {
    var head: Instruction?
    var cur: Instruction?
    var prev: Instruction?
    var found: nat
    ghost var tokens: seq<string>
    ghost var nodes: seq<Instruction>

    /** The list says the tokens; `cur` is its last node, `prev` its last complete one. */
    ghost predicate Valid()
      reads this, nodes
    {
      && IsList(head, nodes) && |nodes| == (|tokens| + 1) / 2 && found == |tokens| / 2
      && LinesOf(nodes) == Paired(tokens)
      && cur == (if nodes == [] then null else nodes[|nodes| - 1])
      && prev == (if found == 0 then null else nodes[found - 1])
    }

    constructor ()
      ensures Valid() && tokens == [] && nodes == []
    {
      head, cur, prev, found := null, null, null, 0;
      tokens, nodes := [], [];
    }

    /** Node k holds token 2k as its name and token 2k + 1, if there is one, as its command. */
    lemma NodesSayTokens(k: nat)
      requires Valid() && k < |nodes|
      ensures 2 * k < |tokens| && nodes[k].name == Str(tokens[2 * k])
      ensures nodes[k].exec == if 2 * k + 1 < |tokens| then Str(tokens[2 * k + 1]) else Null
    {
      assert LinesOf(nodes)[k] == LineOf(nodes[k]);
      PairedAt(tokens, k);
    }

    lemma HeadFound()
      requires Valid()
      ensures found == |tokens| / 2 && (head != null <==> tokens != [])
    {
    }

    /** case ':' */
    method OnName(token: string)
      requires Valid() && |tokens| % 2 == 0
      modifies this, nodes`next
      ensures Valid() && tokens == old(tokens) + [token]
      ensures cur != null && fresh(cur) && nodes == old(nodes) + [cur]
    {
      hide Paired, IsList;
      PairedMore(tokens, token);
      cur := new Instruction();
      cur.name := Str(token);
      head := Append(head, prev, cur, nodes);
      assert LinesOf(nodes) == old(LinesOf(nodes));
      assert LinesOf(nodes + [cur]) == LinesOf(nodes) + [LineOf(cur)];
      nodes := nodes + [cur];
      tokens := tokens + [token];
      assert |nodes| == found + 1 && |tokens| == 2 * found + 1;
      assert LinesOf(nodes) == Paired(tokens);
    }

    /** case '\n' */
    method OnCommand(token: string)
      requires Valid() && |tokens| % 2 == 1
      modifies this, nodes`exec
      ensures Valid() && tokens == old(tokens) + [token] && nodes == old(nodes)
    {
      hide Paired;
      PairedMore(tokens, token);
      cur.exec := Str(token);
      prev := cur;
      found := found + 1;
      tokens := tokens + [token];
    }
  }

  /** The first non-blank in line[from..to], or `from` if there is none (lines 36-42). */
  method SkipBlanks(line: array<char>, from: nat, to: nat) returns (at: nat)
    requires from <= to <= line.Length
    ensures from <= at <= to && line[at..to] == Trim(line[from..to])
  {
    at := from;
    var j := from;
    while j < to
      invariant from <= j <= to && AllBlank(line[from..j])
    {
      if line[j] != ' ' && line[j] != '\t' {
        at := j;
        assert line[from..to][..j - from] == line[from..j];
        TrimAt(line[from..to], j - from);
        assert line[from..to][j - from..] == line[j..to];
        return;
      }
      j := j + 1;
    }
  }

  lemma {:induction false} TrimAt(text: string, k: nat)
    requires k < |text| && AllBlank(text[..k]) && !IsBlank(text[k])
    ensures Trim(text) == text[k..]
  {
    if k > 0 {
      assert IsBlank(text[..k][0]);
      assert text[1..][..k - 1] == text[..k][1..];
      TrimAt(text[1..], k - 1);
      assert !AllBlank(text[1..]) by { assert !IsBlank(text[1..][k - 1]); }
    }
  }

  /** The switch on the delimiter (lines 47-65): the token goes to the list, and the other
      delimiter is expected next. */
  method Deliver(list: ListBuilder, delimiter: char, token: string) returns (expecting: char)
    requires list.Valid() && delimiter == Flip(':', |list.tokens|)
    modifies list, list.nodes
    ensures list.Valid() && list.tokens == old(list.tokens) + [token] && expecting == Other(delimiter)
    ensures forall k :: 0 <= k < |list.nodes| ==> list.nodes[k] in old(list.nodes) || fresh(list.nodes[k])
  {
    FlipIs(':', |list.tokens|);
    if delimiter == ':' {
      list.OnName(token);
      expecting := '\n';
    } else {
      list.OnCommand(token);
      expecting := ':';
    }
  }

  lemma FlipMore(e: char, n: nat)
    requires e == ':' || e == '\n'
    ensures Flip(e, n + 1) == Other(Flip(e, n))
  {
    FlipIs(e, n);
    FlipIs(e, n + 1);
  }

  /** What the scan of a chunk has done by the time it has consumed up to p. */
  predicate ScannedTo(text: string, base: nat, first: char, limit: nat, given: seq<string>, taken: seq<string>,
                      p: nat, e: char)
  {
    && base <= p <= limit <= |text|
    && e == Flip(':', |taken|)
    && Advance(text, base, first, limit) == Advance(text, p, e, limit)
    && taken + Tokens(text, p, e) == given + Tokens(text, base, first)
  }

  /** The scan of one chunk: the loop over line[..read], from parse_head 0. `base` is the
      chunk's place in the file. */
  method ScanChunk(line: array<char>, read: nat, first: char, list: ListBuilder, ghost text: string, ghost base: nat)
    returns (parseHead: nat, expecting: char)
    requires read <= line.Length && base + read <= |text| && line[..read] == text[base..base + read]
    requires list.Valid() && first == Flip(':', |list.tokens|)
    modifies list, list.nodes
    ensures list.Valid() && parseHead <= read
    ensures ScannedTo(text, base, first, base + read, old(list.tokens), list.tokens, base + parseHead, expecting)
    ensures Advance(text, base, first, base + read) == Cursor(base + parseHead, expecting)
    ensures forall k :: 0 <= k < |list.nodes| ==> list.nodes[k] in old(list.nodes) || fresh(list.nodes[k])
  {
    hide *;
    parseHead, expecting := 0, first;
    ghost var given, limit := list.tokens, base + read;
    StartsScanned(text, base, first, limit, given);
    var i := 0;
    while i < read
      invariant parseHead <= i <= read && list.Valid() && line[..read] == text[base..base + read]
      invariant ScannedTo(text, base, first, limit, given, list.tokens, base + parseHead, expecting)
      invariant forall j :: base + parseHead <= j < base + i ==> text[j] != expecting
      invariant forall k :: 0 <= k < |list.nodes| ==> list.nodes[k] in old(list.nodes) || fresh(list.nodes[k])
    {
      assert line[..read][i] == text[base..base + read][i];
      if line[i] == expecting {
        var start := SkipBlanks(line, parseHead, i);
        var token := line[start..i];
        ghost var taken, p, k := list.tokens, base + parseHead, base + i;
        assert token == Trim(text[p..k]) by {
          SameSlice(line[..read], text, base, parseHead, i);
          assert line[parseHead..i] == line[..read][parseHead..i];
        }
        TakeToken(text, base, first, limit, given, taken, p, expecting, k);
        expecting := Deliver(list, line[i], token);
        assert list.tokens == taken + [Trim(text[p..k])];
        assert ScannedTo(text, base, first, limit, given, list.tokens, k + 1, expecting);
        parseHead := i + 1;
      }
      i := i + 1;
    }
    StuckAt(text, base, first, limit, given, list.tokens, base + parseHead, expecting);
  }

  lemma StartsScanned(text: string, base: nat, first: char, limit: nat, given: seq<string>)
    requires base <= limit <= |text| && first == Flip(':', |given|)
    ensures ScannedTo(text, base, first, limit, given, given, base, first)
  {
  }

  lemma SameSlice(chunk: string, text: string, base: nat, from: nat, to: nat)
    requires base + |chunk| <= |text| && chunk == text[base..base + |chunk|] && from <= to <= |chunk|
    ensures chunk[from..to] == text[base + from..base + to]
  {
    forall k | 0 <= k < to - from
      ensures chunk[from..to][k] == text[base + from..base + to][k]
    {
      assert chunk[from + k] == text[base..base + |chunk|][from + k];
    }
  }

  /** Consuming one delimiter moves one token from what is ahead to what is behind. */
  lemma TakeToken(text: string, base: nat, first: char, limit: nat, given: seq<string>, taken: seq<string>,
                  p: nat, e: char, k: nat)
    requires ScannedTo(text, base, first, limit, given, taken, p, e)
    requires p <= k < limit && text[k] == e && (forall j :: p <= j < k ==> text[j] != e)
    ensures e == Flip(':', |taken|)
    ensures ScannedTo(text, base, first, limit, given, taken + [Trim(text[p..k])], k + 1, Other(e))
  {
    hide Trim, Trimmed, Pieces, Flip;
    var token := Trim(text[p..k]);
    FlipMore(':', |taken|);
    ScanStep(text, p, e, k);
    FindIs(text, p, e, k);
    TrimmedMore(text[p..k], Pieces(text, k + 1, Other(e)));
    Regroup(taken, [token], Tokens(text, k + 1, Other(e)));
  }

  /** The chunk is exhausted: no delimiter that is expected stands between p and its end. */
  lemma StuckAt(text: string, base: nat, first: char, limit: nat, given: seq<string>, taken: seq<string>,
                p: nat, e: char)
    requires ScannedTo(text, base, first, limit, given, taken, p, e)
    requires p <= limit <= |text| && forall j :: p <= j < limit ==> text[j] != e
    ensures Advance(text, base, first, limit) == Cursor(p, e)
  {
  }

  datatype Outcome = Finished(found: nat, expecting: char) | Aborted

  /** parse_procfile, from the opened file on. `Aborted` is a failed assert: a chunk without
      the expected delimiter, or a list without one complete line. */
  method ParseProcfile(file: File, lineSize: nat) returns (outcome: Outcome, list: ListBuilder)
    requires file.Valid() && file.pos == 0 && !file.eof && lineSize > 0
    modifies file
    ensures list.Valid() && fresh(list) && fresh(list.nodes)
    ensures outcome.Finished? <==>
      Completes(file.content, 0, ':', lineSize) && |Tokens(file.content, 0, ':')| >= 2
    ensures outcome.Finished? ==>
      && list.tokens == Tokens(file.content, 0, ':')
      && outcome.expecting == Final(file.content, 0, ':')
      && outcome.found == list.found
  {
    hide *;
    var line := new char[lineSize];
    list := new ListBuilder();
    var expecting, totalRead := ':', 0;
    ghost var text := file.content;
    StartsRead(text, lineSize);
    while !file.eof
      invariant file.Valid() && list.Valid() && fresh(list) && fresh(list.nodes)
      invariant !file.eof && file.pos == totalRead <= |text|
      invariant ReadTo(text, lineSize, list.tokens, totalRead, expecting)
      decreases |text| - totalRead
    {
      ghost var given, p, e := list.tokens, totalRead, expecting;
      ReadToExpects(text, lineSize, given, p, e);
      var read := file.Fread(line);
      var parseHead;
      parseHead, expecting := ScanChunk(line, read, expecting, list, text, totalRead);
      ReadChunk(text, lineSize, given, list.tokens, p, e, p + parseHead, expecting);
      if !(parseHead > 0) {
        outcome := Aborted;
        return;
      }
      totalRead := totalRead + parseHead;
      if file.eof {
        break;
      } else {
        file.Fseek(totalRead);
      }
    }
    list.HeadFound();
    // The two asserts behind the loop: the list has a head exactly when lines were found.
    if (list.found > 0) == (list.head != null) {
      outcome := Finished(list.found, expecting);
    } else {
      outcome := Aborted;
    }
  }

  /** What the refill loop has done by the time it stands at p. */
  predicate ReadTo(text: string, size: nat, taken: seq<string>, p: nat, e: char)
  {
    && p <= |text| && e == Flip(':', |taken|)
    && taken + Tokens(text, p, e) == Tokens(text, 0, ':')
    && (Completes(text, 0, ':', size) <==> Completes(text, p, e, size))
  }

  lemma StartsRead(text: string, size: nat)
    ensures ReadTo(text, size, [], 0, ':')
  {
  }

  /** One chunk: it aborts, it is the last one, or it brings the loop further. */
  lemma ReadChunk(text: string, size: nat, given: seq<string>, taken: seq<string>, p: nat, e: char, q: nat, e': char)
    requires ReadTo(text, size, given, p, e)
    requires
      var limit := p + Min(size, |text| - p);
      ScannedTo(text, p, e, limit, given, taken, q, e') && Advance(text, p, e, limit) == Cursor(q, e')
    ensures q == p ==> !Completes(text, 0, ':', size)
    ensures q > p && p + size <= |text| ==> ReadTo(text, size, taken, q, e')
    ensures q > p && p + size > |text| ==>
      Completes(text, 0, ':', size) && taken == Tokens(text, 0, ':') && taken != [] && e' == Final(text, 0, ':')
  {
    if q > p && p + size > |text| {
      NothingAhead(text, q, e');
      ScanShape(text, 0, ':');
      CompletesHasToken(text, size);
    }
  }

  lemma ReadToExpects(text: string, size: nat, taken: seq<string>, p: nat, e: char)
    requires ReadTo(text, size, taken, p, e)
    ensures e == Flip(':', |taken|)
  {
  }

  lemma CompletesHasToken(text: string, size: nat)
    requires Completes(text, 0, ':', size)
    ensures Tokens(text, 0, ':') != []
  {
  }

  lemma NothingAhead(text: string, p: nat, e: char)
    requires p <= |text| && Advance(text, p, e, |text|).at == p
    ensures Tokens(text, p, e) == []
  {
    ScanStep(text, p, e, Find(text, p, e));
  }
}
