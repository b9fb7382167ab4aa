/** When reading a Procfile chunk by chunk comes to an end: the exact condition, in terms of
    where the delimiters stand, and its consequences. */
module ProcfileChunks {
  import opened ProcfileScan

  datatype Cursor = Cursor(at: nat, expecting: char)

  /** How far whole tokens reach when the text is visible only up to `limit`. */
  function Advance(text: string, p: nat, e: char, limit: nat): (c: Cursor)
    requires p <= |text| && limit <= |text|
    ensures p <= c.at <= |text|
    decreases |text| - p
  {
    var k := Find(text, p, e);
    if k < limit then Advance(text, k + 1, Other(e), limit) else Cursor(p, e)
  }

  function Min(a: nat, b: nat): nat
  {
    if a < b then a else b
  }

  /** Chunks of `size` characters, read from p on, get through the text: each one consumes
      something, and the last one reaches past the end of the file. */
  predicate Completes(text: string, p: nat, e: char, size: nat)
    requires p <= |text|
    decreases |text| - p
  {
    var c := Advance(text, p, e, Min(p + size, |text|));
    c.at > p && (p + size > |text| || Completes(text, c.at, c.expecting, size))
  }

  /** How many of the ends (they increase) are at most `limit`. */
  function Within(ends: seq<nat>, limit: nat): (d: nat)
    ensures d <= |ends|
    ensures d > 0 ==> ends[d - 1] <= limit
    ensures d < |ends| ==> ends[d] > limit
  {
    if ends != [] && ends[0] <= limit then 1 + Within(ends[1..], limit) else 0
  }

  /** Every token with its delimiter is at most `size` characters long. */
  predicate Fits(ends: seq<nat>, p: nat, size: nat)
  {
    ends == [] || (ends[0] <= p + size && Fits(ends[1..], ends[0], size))
  }

  /** Where the chunk starts that holds the last delimiter, when every chunk starts at the
      last delimiter the chunk before it held. */
  function LastStart(ends: seq<nat>, p: nat, size: nat): nat
    decreases |ends|
  {
    var d := Within(ends, p + size);
    if d == 0 || d == |ends| then p else LastStart(ends[d..], ends[d - 1], size)
  }

  lemma {:induction false} EndsGrow(text: string, p: nat, e: char)
    requires p <= |text|
    ensures forall k :: 0 <= k < |Ends(text, p, e)| ==> p < Ends(text, p, e)[k] <= |text|
    ensures forall j, k :: 0 <= j < k < |Ends(text, p, e)| ==> Ends(text, p, e)[j] < Ends(text, p, e)[k]
    decreases |text| - p
  {
    var k := Find(text, p, e);
    if k < |text| {
      EndsGrow(text, k + 1, Other(e));
    }
  }

  /** Advancing consumes exactly the tokens whose ends are in sight. */
  lemma {:induction false} AdvanceIsWithin(text: string, p: nat, e: char, limit: nat)
    requires p <= |text| && limit <= |text|
    ensures
      var ends, c := Ends(text, p, e), Advance(text, p, e, limit);
      var d := Within(ends, limit);
      && c.at == (if d == 0 then p else ends[d - 1])
      && Ends(text, c.at, c.expecting) == ends[d..]
    decreases |text| - p
  {
    hide Find, Advance, Ends, Within;
    var k := Find(text, p, e);
    ScanStep(text, p, e, k);
    AdvanceStep(text, p, e, limit);
    if k < limit {
      AdvanceIsWithin(text, k + 1, Other(e), limit);
      WithinMore(k + 1, Ends(text, k + 1, Other(e)), limit);
    } else {
      WithinNone(Ends(text, p, e), limit);
    }
  }

  lemma WithinNone(ends: seq<nat>, limit: nat)
    requires ends == [] || ends[0] > limit
    ensures Within(ends, limit) == 0
  {
  }

  lemma AdvanceStep(text: string, p: nat, e: char, limit: nat)
    requires p <= |text| && limit <= |text|
    ensures
      var k := Find(text, p, e);
      Advance(text, p, e, limit) == if k < limit then Advance(text, k + 1, Other(e), limit) else Cursor(p, e)
  {
  }

  lemma WithinMore(end: nat, rest: seq<nat>, limit: nat)
    requires end <= limit
    ensures Within([end] + rest, limit) == 1 + Within(rest, limit)
    ensures ([end] + rest)[Within([end] + rest, limit)..] == rest[Within(rest, limit)..]
  {
    assert ([end] + rest)[1..] == rest;
  }

  lemma {:induction false} FitsFrom(ends: seq<nat>, p: nat, size: nat, d: nat)
    requires 0 < d <= |ends| && ends[d - 1] <= p + size
    requires forall j, k :: 0 <= j < k < |ends| ==> ends[j] < ends[k]
    requires forall k :: 0 <= k < |ends| ==> p < ends[k]
    ensures Fits(ends, p, size) <==> Fits(ends[d..], ends[d - 1], size)
  {
    if d > 1 {
      FitsFrom(ends[1..], ends[0], size, d - 1);
      assert ends[1..][d - 1..] == ends[d..];
    }
  }

  lemma {:induction false} WithinAll(ends: seq<nat>, limit: nat, limit': nat)
    requires limit <= limit' && forall k :: 0 <= k < |ends| ==> ends[k] <= limit || ends[k] > limit'
    ensures Within(ends, limit) == Within(ends, limit')
  {
    if ends != [] && ends[0] <= limit {
      WithinAll(ends[1..], limit, limit');
    }
  }

  /** What one chunk read at p sees of the ends, and where the next chunk starts. */
  lemma OneChunk(text: string, p: nat, e: char, size: nat)
    requires p <= |text|
    ensures
      var ends := Ends(text, p, e);
      var d, c := Within(ends, p + size), Advance(text, p, e, Min(p + size, |text|));
      && c.at == (if d == 0 then p else ends[d - 1])
      && Ends(text, c.at, c.expecting) == ends[d..]
      && (d == 0 <==> c.at == p)
      && (p + size > |text| ==> d == |ends|)
  {
    var ends := Ends(text, p, e);
    EndsGrow(text, p, e);
    AdvanceIsWithin(text, p, e, Min(p + size, |text|));
    WithinAll(ends, Min(p + size, |text|), p + size);
  }

  lemma FitsBehindChunk(text: string, p: nat, e: char, size: nat)
    requires p <= |text| && Within(Ends(text, p, e), p + size) > 0
    ensures
      var ends := Ends(text, p, e);
      var d := Within(ends, p + size);
      Fits(ends, p, size) <==> Fits(ends[d..], ends[d - 1], size)
  {
    EndsGrow(text, p, e);
    FitsFrom(Ends(text, p, e), p, size, Within(Ends(text, p, e), p + size));
  }

  /** The exact condition: there is a token, every token fits a chunk, and the chunk that
      holds the last delimiter reaches past the end of the file. */
  lemma {:induction false} CompletesExactlyWhen(text: string, p: nat, e: char, size: nat)
    requires p <= |text|
    ensures
      var ends := Ends(text, p, e);
      Completes(text, p, e, size) <==>
        ends != [] && Fits(ends, p, size) && LastStart(ends, p, size) + size > |text|
    decreases |text| - p
  {
    var ends := Ends(text, p, e);
    var d, c := Within(ends, p + size), Advance(text, p, e, Min(p + size, |text|));
    OneChunk(text, p, e, size);
    if d > 0 {
      FitsBehindChunk(text, p, e, size);
    }
    if d == |ends| && d > 0 {
      assert Fits(ends[d..], ends[d - 1], size);
      assert p + size <= |text| ==> Ends(text, c.at, c.expecting) == [];
    }
    if d > 0 && p + size <= |text| {
      CompletesExactlyWhen(text, c.at, c.expecting, size);
    }
  }

  /** A file shorter than the buffer is read in one chunk, which needs just one delimiter. */
  lemma SmallFilesComplete(text: string, size: nat)
    requires |text| < size
    ensures Completes(text, 0, ':', size) <==> Ends(text, 0, ':') != []
  {
    EndsGrow(text, 0, ':');
    AdvanceIsWithin(text, 0, ':', |text|);
  }

  lemma {:induction false} CleanEnds(text: string, p: nat, e: char)
    requires p < |text| && Clean(text, p, e)
    ensures
      var ends := Ends(text, p, e);
      ends != [] && ends[|ends| - 1] == |text|
    decreases |text| - p
  {
    var k := Find(text, p, e);
    if k + 1 < |text| {
      CleanEnds(text, k + 1, Other(e));
    }
  }

  lemma {:induction false} LastStartIsStart(ends: seq<nat>, p: nat, size: nat)
    ensures LastStart(ends, p, size) == p || LastStart(ends, p, size) in ends
    ensures Fits(ends, p, size) && ends != [] ==> ends[|ends| - 1] <= LastStart(ends, p, size) + size
    decreases |ends|
  {
    var d := Within(ends, p + size);
    if d != 0 && d != |ends| {
      LastStartIsStart(ends[d..], ends[d - 1], size);
      if Fits(ends, p, size) {
        FitsTail(ends, p, size, d);
      }
    }
  }

  lemma {:induction false} FitsTail(ends: seq<nat>, p: nat, size: nat, d: nat)
    requires 0 < d <= |ends| && Fits(ends, p, size)
    ensures Fits(ends[d..], ends[d - 1], size)
  {
    if d > 1 {
      FitsTail(ends[1..], ends[0], size, d - 1);
      assert ends[1..][d - 1..] == ends[d..];
    }
  }

  /** A non-empty file that ends just after a command's newline and whose tokens fit the buffer
      is read completely if and only if its last chunk does not start exactly one buffer before
      the end, where the read would be full and set no end-of-file flag. */
  lemma CleanFilesCompleteExactlyWhen(text: string, size: nat)
    requires text != "" && Clean(text, 0, ':') && Fits(Ends(text, 0, ':'), 0, size)
    ensures Completes(text, 0, ':', size) <==> LastStart(Ends(text, 0, ':'), 0, size) + size != |text|
  {
    CleanEnds(text, 0, ':');
    CompletesExactlyWhen(text, 0, ':', size);
    LastStartIsStart(Ends(text, 0, ':'), 0, size);
  }

  /** So the reader aborts on every such file that is exactly as long as the buffer. */
  lemma ExactlyOneBufferAborts(text: string, size: nat)
    requires text != "" && Clean(text, 0, ':') && |text| == size
    ensures !Completes(text, 0, ':', size)
  {
    EndsGrow(text, 0, ':');
    CleanEnds(text, 0, ':');
    CompletesExactlyWhen(text, 0, ':', size);
    AllWithin(Ends(text, 0, ':'), size);
  }

  lemma {:induction false} AllWithin(ends: seq<nat>, limit: nat)
    requires forall k :: 0 <= k < |ends| ==> ends[k] <= limit
    ensures Within(ends, limit) == |ends|
  {
    if ends != [] {
      AllWithin(ends[1..], limit);
    }
  }
}
