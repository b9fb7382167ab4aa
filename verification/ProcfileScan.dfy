/** What a Procfile says: one scan over the whole text that looks for ':' and newline in
    turn. The reader in Procfile.dfy works chunk by chunk and is measured against this. */
module ProcfileScan {
  import opened Instructions

  // ---------------------------------------------------------------- the scan

  predicate IsBlank(ch: char)
  {
    ch == ' ' || ch == '\t'
  }

  predicate AllBlank(text: string)
  {
    forall k :: 0 <= k < |text| ==> IsBlank(text[k])
  }

  /** A token without its leading blanks, except that an all-blank token is kept whole. */
  function Trim(text: string): string
  {
    if AllBlank(text) then text else TrimStart(text)
  }

  function TrimStart(text: string): string
  {
    if text != "" && IsBlank(text[0]) then TrimStart(text[1..]) else text
  }

  function Other(expecting: char): char
  {
    if expecting == ':' then '\n' else ':'
  }

  /** The first place at or after p that holds ch, or the end of the text. */
  function Find(text: string, p: nat, ch: char): (k: nat)
    requires p <= |text|
    ensures p <= k <= |text|
    ensures k < |text| ==> text[k] == ch
    ensures forall j :: p <= j < k ==> text[j] != ch
    decreases |text| - p
  {
    if p == |text| || text[p] == ch then p else Find(text, p + 1, ch)
  }

  /** The pieces between delimiters that begin at p, when `expecting` is expected first. */
  function Pieces(text: string, p: nat, expecting: char): seq<string>
    requires p <= |text|
    decreases |text| - p
  {
    var k := Find(text, p, expecting);
    if k == |text| then [] else [text[p..k]] + Pieces(text, k + 1, Other(expecting))
  }

  function Trimmed(pieces: seq<string>): (tokens: seq<string>)
    ensures |tokens| == |pieces|
  {
    seq(|pieces|, k requires 0 <= k < |pieces| => Trim(pieces[k]))
  }

  function Tokens(text: string, p: nat, expecting: char): (tokens: seq<string>)
    requires p <= |text|
  {
    Trimmed(Pieces(text, p, expecting))
  }

  /** Where those tokens end: each place is one past a consumed delimiter. */
  function Ends(text: string, p: nat, expecting: char): seq<nat>
    requires p <= |text|
    decreases |text| - p
  {
    var k := Find(text, p, expecting);
    if k == |text| then [] else [k + 1] + Ends(text, k + 1, Other(expecting))
  }

  /** The delimiter still expected at the end of the text. */
  function Final(text: string, p: nat, expecting: char): char
    requires p <= |text|
    decreases |text| - p
  {
    var k := Find(text, p, expecting);
    if k == |text| then expecting else Final(text, k + 1, Other(expecting))
  }

  /** Names and commands in pairs; a last name without a command keeps a null command. */
  function Paired(tokens: seq<string>): (lines: seq<Line>)
    ensures |lines| == (|tokens| + 1) / 2
  {
    seq((|tokens| + 1) / 2, k requires 0 <= k < (|tokens| + 1) / 2 =>
      Line(Str(tokens[2 * k]), if 2 * k + 1 < |tokens| then Str(tokens[2 * k + 1]) else Null))
  }

  lemma PairedAt(tokens: seq<string>, k: nat)
    requires k < |Paired(tokens)|
    ensures Paired(tokens)[k] ==
      Line(Str(tokens[2 * k]), if 2 * k + 1 < |tokens| then Str(tokens[2 * k + 1]) else Null)
  {
  }

  // ---------------------------------------------------------------- general facts

  lemma {:induction false} FindIs(text: string, p: nat, ch: char, k: nat)
    requires p <= k <= |text| && (k < |text| ==> text[k] == ch)
    requires forall j :: p <= j < k ==> text[j] != ch
    ensures Find(text, p, ch) == k
  {
  }

  /** One step of the scan, with the delimiter's place given. */
  lemma ScanStep(text: string, p: nat, e: char, k: nat)
    requires p <= k <= |text| && (k < |text| ==> text[k] == e)
    requires forall j :: p <= j < k ==> text[j] != e
    ensures k == |text| ==> Pieces(text, p, e) == [] && Ends(text, p, e) == [] && Final(text, p, e) == e
    ensures k < |text| ==>
      && Pieces(text, p, e) == [text[p..k]] + Pieces(text, k + 1, Other(e))
      && Ends(text, p, e) == [k + 1] + Ends(text, k + 1, Other(e))
      && Final(text, p, e) == Final(text, k + 1, Other(e))
  {
    FindIs(text, p, e, k);
  }

  function Flip(e: char, n: nat): char
    decreases n
  {
    if n == 0 then e else Flip(Other(e), n - 1)
  }

  lemma {:induction false} FlipIs(e: char, n: nat)
    requires e == ':' || e == '\n'
    ensures Flip(e, n) == if n % 2 == 0 then e else Other(e)
    decreases n
  {
    if n > 0 {
      FlipIs(Other(e), n - 1);
    }
  }

  lemma {:induction false} ScanShape(text: string, p: nat, e: char)
    requires p <= |text|
    ensures |Ends(text, p, e)| == |Pieces(text, p, e)|
    ensures Final(text, p, e) == Flip(e, |Pieces(text, p, e)|)
    decreases |text| - p
  {
    var k := Find(text, p, e);
    ScanStep(text, p, e, k);
    if k < |text| {
      ScanShape(text, k + 1, Other(e));
    }
  }

  /** Text behind p does not matter, only what follows it. */
  lemma {:induction false} Shift(a: string, b: string, p: nat, e: char)
    requires p <= |b|
    ensures Pieces(a + b, |a| + p, e) == Pieces(b, p, e)
    ensures Final(a + b, |a| + p, e) == Final(b, p, e)
    decreases |b| - p
  {
    var k := Find(b, p, e);
    ShiftStep(a, b, p, e, k);
    if k < |b| {
      Shift(a, b, k + 1, Other(e));
    }
  }

  lemma ShiftStep(a: string, b: string, p: nat, e: char, k: nat)
    requires p <= k <= |b| && k == Find(b, p, e)
    ensures k == |b| ==>
      && Pieces(b, p, e) == Pieces(a + b, |a| + p, e) == []
      && Final(b, p, e) == Final(a + b, |a| + p, e) == e
    ensures k < |b| ==>
      && Pieces(b, p, e) == [b[p..k]] + Pieces(b, k + 1, Other(e))
      && Pieces(a + b, |a| + p, e) == [b[p..k]] + Pieces(a + b, |a| + (k + 1), Other(e))
      && Final(b, p, e) == Final(b, k + 1, Other(e))
      && Final(a + b, |a| + p, e) == Final(a + b, |a| + (k + 1), Other(e))
  {
    hide *;
    var text := a + b;
    assert forall j :: |a| + p <= j < |a| + k ==> text[j] == b[j - |a|];
    ScanStep(b, p, e, k);
    ScanStep(text, |a| + p, e, |a| + k);
    assert text[|a| + p..|a| + k] == b[p..k];
  }

  /** The text ends just after the newline of a command, or is empty. */
  predicate Clean(text: string, p: nat, e: char)
    requires p <= |text|
    decreases |text| - p
  {
    if p == |text| then e == ':'
    else
      var k := Find(text, p, e);
      k < |text| && Clean(text, k + 1, Other(e))
  }

  lemma {:induction false} AppendFrom(a: string, b: string, p: nat, e: char)
    requires p <= |a| && Clean(a, p, e)
    ensures Pieces(a + b, p, e) == Pieces(a, p, e) + Pieces(b, 0, ':')
    ensures Final(a + b, p, e) == Final(b, 0, ':')
    ensures Final(a, p, e) == ':'
    decreases |a| - p
  {
    var text := a + b;
    if p == |a| {
      ScanStep(a, p, e, p);
      Shift(a, b, 0, ':');
    } else {
      var k := Find(a, p, e);
      SameStep(a, b, p, e, k);
      AppendFrom(a, b, k + 1, Other(e));
      Regroup([a[p..k]], Pieces(a, k + 1, Other(e)), Pieces(b, 0, ':'));
    }
  }

  lemma Regroup(s: seq<string>, t: seq<string>, u: seq<string>)
    ensures s + (t + u) == (s + t) + u
  {
  }

  /** A step that stays inside a is the same step in a + b. */
  lemma SameStep(a: string, b: string, p: nat, e: char, k: nat)
    requires p <= k < |a| && k == Find(a, p, e)
    ensures Find(a + b, p, e) == k
    ensures Pieces(a, p, e) == [a[p..k]] + Pieces(a, k + 1, Other(e))
    ensures Pieces(a + b, p, e) == [a[p..k]] + Pieces(a + b, k + 1, Other(e))
    ensures Final(a, p, e) == Final(a, k + 1, Other(e))
    ensures Final(a + b, p, e) == Final(a + b, k + 1, Other(e))
  {
    var text := a + b;
    assert forall j :: p <= j <= k ==> text[j] == a[j];
    ScanStep(a, p, e, k);
    ScanStep(text, p, e, k);
    FindIs(text, p, e, k);
    assert text[p..k] == a[p..k];
  }

  /** Parsing a Procfile that ends at a command's newline, followed by another Procfile, gives
      the two lists appended. */
  lemma AppendFiles(a: string, b: string)
    requires Clean(a, 0, ':')
    ensures Paired(Tokens(a + b, 0, ':')) == Paired(Tokens(a, 0, ':')) + Paired(Tokens(b, 0, ':'))
    ensures Final(a + b, 0, ':') == Final(b, 0, ':')
  {
    AppendFrom(a, b, 0, ':');
    ScanShape(a, 0, ':');
    FlipIs(':', |Pieces(a, 0, ':')|);
    var s, t := Tokens(a, 0, ':'), Tokens(b, 0, ':');
    assert Tokens(a + b, 0, ':') == s + t;
    PairedAppend(s, t);
  }

  lemma PairedAppend(s: seq<string>, t: seq<string>)
    requires |s| % 2 == 0
    ensures Paired(s + t) == Paired(s) + Paired(t)
  {
    var h := |s| / 2;
    assert forall k :: h <= k < |Paired(s + t)| ==> 2 * k - |s| == 2 * (k - h);
  }

  lemma TrimmedMore(piece: string, pieces: seq<string>)
    ensures Trimmed([piece] + pieces) == [Trim(piece)] + Trimmed(pieces)
  {
    hide Trim;
  }

  /** A name opens a new line; a command completes the last one. */
  lemma PairedMore(tokens: seq<string>, token: string)
    ensures |tokens| % 2 == 0 ==> Paired(tokens + [token]) == Paired(tokens) + [Line(Str(token), Null)]
    ensures |tokens| % 2 == 1 ==>
      var last := |Paired(tokens)| - 1;
      Paired(tokens + [token]) == Paired(tokens)[last := Line(Paired(tokens)[last].name, Str(token))]
  {
  }

  // ---------------------------------------------------------------- print, then parse

  /** A Procfile line as a person writes it, with blanks before the name and the command. */
  datatype Entry = Entry(namePad: string, name: string, commandPad: string, command: string)

  /** The token survives trimming: it starts with no blank, and blanks stand only before text. */
  predicate Survives(pad: string, token: string)
  {
    && AllBlank(pad)
    && (token == "" ==> pad == "")
    && (token != "" ==> !IsBlank(token[0]))
  }

  predicate Printable(entry: Entry)
  {
    && Survives(entry.namePad, entry.name) && Survives(entry.commandPad, entry.command)
    && ':' !in entry.name && '\n' !in entry.command
  }

  function Print(entries: seq<Entry>): string
  {
    if entries == [] then ""
    else
      var e := entries[0];
      (e.namePad + e.name + ":" + e.commandPad + e.command + "\n") + Print(entries[1..])
  }

  function Said(entry: Entry): Line
  {
    Line(Str(entry.name), Str(entry.command))
  }

  lemma {:induction false} TrimDropsPad(pad: string, token: string)
    requires Survives(pad, token)
    ensures Trim(pad + token) == token
  {
    if token == "" {
      assert pad + token == token;
    } else {
      assert (pad + token)[|pad|] == token[0];
      TrimStartDropsPad(pad, token);
    }
  }

  lemma {:induction false} TrimStartDropsPad(pad: string, token: string)
    requires AllBlank(pad) && token != "" && !IsBlank(token[0])
    ensures TrimStart(pad + token) == token
  {
    if pad == "" {
      assert pad + token == token;
    } else {
      assert (pad + token)[1..] == pad[1..] + token;
      TrimStartDropsPad(pad[1..], token);
    }
  }

  /** "left:right" and a newline are two pieces, and the scan ends where it began. */
  lemma TwoPieces(left: string, right: string, text: string)
    requires text == left + ":" + right + "\n" && ':' !in left && '\n' !in right
    ensures Pieces(text, 0, ':') == [left, right]
    ensures Clean(text, 0, ':')
  {
    assert forall j :: 0 <= j < |left| ==> text[j] == left[j];
    ScanStep(text, 0, ':', |left|);
    FindIs(text, 0, ':', |left|);
    SecondPiece(left, right, text);
    assert text[0..|left|] == left;
  }

  lemma SecondPiece(left: string, right: string, text: string)
    requires text == left + ":" + right + "\n" && '\n' !in right
    ensures Pieces(text, |left| + 1, '\n') == [right]
    ensures Clean(text, |left| + 1, '\n')
  {
    var p := |left| + 1;
    assert forall j :: p <= j < p + |right| ==> text[j] == right[j - p];
    ScanStep(text, p, '\n', p + |right|);
    FindIs(text, p, '\n', p + |right|);
    ScanStep(text, |text|, ':', |text|);
    assert text[p..p + |right|] == right;
  }

  /** One printed line scans to its name and its command. */
  lemma LineScans(entry: Entry)
    requires Printable(entry)
    ensures Tokens(Print([entry]), 0, ':') == [entry.name, entry.command]
    ensures Clean(Print([entry]), 0, ':')
  {
    var left, right := entry.namePad + entry.name, entry.commandPad + entry.command;
    assert Print([entry][1..]) == "";
    assert Print([entry]) == left + ":" + right + "\n";
    TwoPieces(left, right, Print([entry]));
    TrimDropsPad(entry.namePad, entry.name);
    TrimDropsPad(entry.commandPad, entry.command);
  }

  /** Only spaces and tabs. */
  predicate SpacesAndTabs(text: string)
  {
    forall k :: 0 <= k < |text| ==> text[k] == ' ' || text[k] == '\t'
  }

  /** A line in characters: the spaces and tabs in front of the name and in front of the command
      are dropped, whatever mixture they are, and nothing else is. */
  lemma LeadingBlanksDropped(before: string, name: string, between: string, command: string)
    requires SpacesAndTabs(before) && name != "" && ':' !in name && name[0] != ' ' && name[0] != '\t'
    requires SpacesAndTabs(between) && command != "" && '\n' !in command && command[0] != ' ' && command[0] != '\t'
    ensures Tokens(before + name + ":" + between + command + "\n", 0, ':') == [name, command]
  {
    var left, right := before + name, between + command;
    var text := before + name + ":" + between + command + "\n";
    assert text == left + ":" + right + "\n";
    TwoPieces(left, right, text);
    TrimDropsPad(before, name);
    TrimDropsPad(between, command);
  }

  /** A command, or a name, of nothing but spaces and tabs is kept whole. */
  lemma AllBlankKept(before: string, between: string)
    requires SpacesAndTabs(before) && SpacesAndTabs(between)
    ensures Tokens(before + ":" + between + "\n", 0, ':') == [before, between]
  {
    var text := before + ":" + between + "\n";
    TwoPieces(before, between, text);
  }

  /** Printing any list of entries and parsing the text gives the list back. */
  lemma {:induction false} PrintParse(entries: seq<Entry>)
    requires forall k :: 0 <= k < |entries| ==> Printable(entries[k])
    ensures Paired(Tokens(Print(entries), 0, ':')) == seq(|entries|, k requires 0 <= k < |entries| => Said(entries[k]))
    ensures Final(Print(entries), 0, ':') == ':'
    ensures Clean(Print(entries), 0, ':')
  {
    if entries != [] {
      var first, rest := Print([entries[0]]), Print(entries[1..]);
      assert Print([entries[0]][1..]) == "";
      assert Print(entries) == first + rest;
      LineScans(entries[0]);
      PrintParse(entries[1..]);
      AppendFiles(first, rest);
      CleanAppend(first, rest, 0, ':');
    }
  }

  lemma {:induction false} CleanAppend(a: string, b: string, p: nat, e: char)
    requires p <= |a| && Clean(a, p, e) && Clean(b, 0, ':')
    ensures Clean(a + b, p, e)
    decreases |a| - p
  {
    if p == |a| {
      CleanShift(a, b, 0, ':');
    } else {
      var k := Find(a, p, e);
      var text := a + b;
      assert forall j :: p <= j <= k ==> text[j] == a[j];
      FindIs(text, p, e, k);
      CleanAppend(a, b, k + 1, Other(e));
    }
  }

  lemma {:induction false} CleanShift(a: string, b: string, p: nat, e: char)
    requires p <= |b| && Clean(b, p, e)
    ensures Clean(a + b, |a| + p, e)
    decreases |b| - p
  {
    if p < |b| {
      var k := Find(b, p, e);
      var text := a + b;
      assert forall j :: |a| + p <= j < |a| + k ==> text[j] == b[j - |a|];
      FindIs(text, |a| + p, e, |a| + k);
      CleanShift(a, b, k + 1, Other(e));
    }
  }
}
