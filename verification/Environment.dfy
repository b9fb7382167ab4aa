/** The environment a child is started with (fiveman_process_state.c:76-97): a copy of
    fiveman's own, in which a new PATH and a PORT are put at the end. */
module Environment {
  import opened Formatting
  import opened Instructions

  /** environ: n entries and a null pointer behind them. */
  ghost predicate IsEnviron(environ: array<Text>, n: nat)
    reads environ
  {
    && n < environ.Length && environ[n] == Null
    && forall k :: 0 <= k < n ==> environ[k].Str?
  }

  ghost function Entries(environ: array<Text>, n: nat): (entries: seq<string>)
    requires IsEnviron(environ, n)
    reads environ
    ensures |entries| == n
  {
    seq(n, k requires 0 <= k < n && IsEnviron(environ, n) reads environ => environ[k].chars)
  }

  /** The entry defines the variable: "name=...". */
  predicate Defines(entry: string, name: string)
  {
    |entry| > |name| && entry[..|name|] == name && entry[|name|] == '='
  }

  /** getenv: the value of the first entry that defines the variable. */
  function Lookup(entries: seq<string>, name: string): Text
  {
    if entries == [] then Null
    else if Defines(entries[0], name) then Str(entries[0][|name| + 1..])
    else Lookup(entries[1..], name)
  }

  predicate Defined(entries: seq<string>, name: string)
  {
    exists k :: 0 <= k < |entries| && Defines(entries[k], name)
  }

  // ---------------------------------------------------------------- decimal numbers

  function Decimal(n: nat): string
  {
    if n < 10 then ["0123456789"[n]] else Decimal(n / 10) + ["0123456789"[n % 10]]
  }

  function Digit(ch: char): nat
  {
    if '0' <= ch <= '9' then (ch - '0') as nat else 0
  }

  /** atoi on a string of digits. */
  function Atoi(text: string): nat
  {
    if text == "" then 0 else Atoi(text[..|text| - 1]) * 10 + Digit(text[|text| - 1])
  }

  lemma DigitIs(n: nat)
    requires n < 10
    ensures Digit("0123456789"[n]) == n
  {
    assert '0' + n as char == "0123456789"[n];
  }

  lemma {:induction false} AtoiDecimal(n: nat)
    ensures Atoi(Decimal(n)) == n
  {
    hide Digit;
    DigitIs(n % 10);
    if n < 10 {
      assert Decimal(n)[..0] == "";
    } else {
      AtoiDecimal(n / 10);
      assert Decimal(n)[..|Decimal(n)| - 1] == Decimal(n / 10);
    }
  }

  function Pow10(k: nat): (power: nat)
    ensures power > 0
  {
    if k == 0 then 1 else 10 * Pow10(k - 1)
  }

  lemma {:induction false} DecimalLength(n: nat, k: nat)
    requires n < Pow10(k) && k > 0
    ensures 0 < |Decimal(n)| <= k
  {
    if n >= 10 {
      DecimalLength(n / 10, k - 1);
    }
  }

  // ---------------------------------------------------------------- building the child's

  function PathEntry(directory: string, path: string): string
  {
    "PATH=" + directory + ":" + path
  }

  function PortEntry(port: nat): string
  {
    "PORT=" + Decimal(port)
  }

  /** The loop of lines 89-93. */
  method CountEntries(environ: array<Text>, ghost n: nat) returns (esize: nat)
    requires IsEnviron(environ, n)
    ensures esize == n
  {
    esize := 0;
    var c, i := environ[0], 0;
    while c.Str?
      invariant i <= n + 1
      invariant i == 0 ==> c == environ[0] && esize == 0
      invariant i > 0 ==> c == environ[i - 1] && esize == i - 1
      decreases n + 1 - i
    {
      esize := i;
      c := environ[i];
      i := i + 1;
    }
  }

  /** Decimal notation: the digit k places from the end is the one that counts 10^k, and there is
      no leading zero. */
  lemma {:induction false} DecimalDigits(n: nat, k: nat)
    requires k < |Decimal(n)|
    ensures Decimal(n)[|Decimal(n)| - 1 - k] == '0' + (n / Pow10(k) % 10) as char
    ensures n >= 10 ==> Decimal(n)[0] != '0'
    ensures n < 10 ==> |Decimal(n)| == 1
    decreases n
  {
    hide Decimal, Pow10;
    DecimalStep(n);
    DigitChar(n % 10);
    PowersAre(k);
    if n >= 10 {
      DecimalStep(n / 10);
      if n < 100 {
        DigitChar(n / 10);
      }
      if k == 0 {
        DecimalDigits(n / 10, 0);
      } else {
        DecimalDigits(n / 10, k - 1);
        DivideOnce(n, Pow10(k - 1));
      }
    }
  }

  lemma DecimalStep(n: nat)
    ensures |Decimal(n)| > 0
    ensures Decimal(n) == if n < 10 then ["0123456789"[n]] else Decimal(n / 10) + ["0123456789"[n % 10]]
  {
  }

  lemma PowersAre(k: nat)
    ensures Pow10(k) == if k == 0 then 1 else 10 * Pow10(k - 1)
  {
  }

  lemma DigitChar(n: nat)
    requires n < 10
    ensures "0123456789"[n] == '0' + n as char && (n > 0 ==> "0123456789"[n] != '0')
  {
  }

  lemma DivideOnce(n: nat, d: nat)
    requires d > 0
    ensures n / (10 * d) == n / 10 / d
  {
    var q, r := n / 10 / d, n / 10 % d;
    assert n / 10 == q * d + r && 0 <= r < d;
    assert n == 10 * (q * d + r) + n % 10;
    var rest := 10 * r + n % 10;
    assert 0 <= rest < 10 * d;
    assert n == q * (10 * d) + rest;
    Quotient(n, 10 * d, q, rest);
  }

  lemma Quotient(n: nat, d: nat, q: nat, rest: nat)
    requires n == q * d + rest && rest < d
    ensures n / d == q
  {
    var q' := n / d;
    assert n == q' * d + n % d && 0 <= n % d < d;
    Monotone(q', q, d);
    Monotone(q, q', d);
  }

  lemma {:induction false} Monotone(a: nat, b: nat, d: nat)
    ensures a < b ==> a * d + d <= b * d
    decreases b
  {
    if a < b {
      assert b * d == (b - 1) * d + d;
      Monotone(a, b - 1, d);
    }
  }

  /** The whole of lines 76-97. `getenv("PATH")` must succeed, as the program takes its
      length unchecked; so the parent has at least one entry. */
  method ChildEnvironment(environ: array<Text>, directory: string, port: nat, ghost n: nat) returns (child: array<Text>)
    requires IsEnviron(environ, n) && n >= 1
    requires Lookup(Entries(environ, n), "PATH").Str? && port < 0x8000_0000
    ensures fresh(child) && child.Length == n + 2 && IsEnviron(child, n + 1)
    ensures Entries(child, n + 1) ==
      Entries(environ, n)[..n - 1] + [PathEntry(directory, Lookup(Entries(environ, n), "PATH").chars), PortEntry(port)]
  {
    hide Lookup, Decimal;
    var existing := Getenv(environ, "PATH", n);
    var pathSize := |"PATH="| + |existing.chars| + |directory| + 2;
    var path := Kept(PathEntry(directory, existing.chars), pathSize);
    var portSize := |"PORT="| + 128;
    PortFits(port);
    var portText := Kept(PortEntry(port), portSize);
    var esize := CountEntries(environ, n);
    child := new Text[esize + 2](_ => Null);
    for i := 0 to esize
      invariant child.Length == n + 2 && child[..i] == environ[..i]
      invariant forall k :: i <= k < child.Length ==> child[k] == Null
    {
      child[i] := environ[i];
    }
    child[esize - 1] := Str(path);
    child[esize] := Str(portText);
    assert forall k :: 0 <= k < n - 1 ==> child[k] == environ[k];
  }

  lemma PortFits(port: nat)
    requires port < 0x8000_0000
    ensures |PortEntry(port)| < |"PORT="| + 128
  {
    assert Pow10(10) == 10000000000;
    DecimalLength(port, 10);
  }

  /** getenv, as a walk over environ. */
  method Getenv(environ: array<Text>, name: string, ghost n: nat) returns (value: Text)
    requires IsEnviron(environ, n)
    ensures value == Lookup(Entries(environ, n), name)
  {
    var i := 0;
    ghost var entries := Entries(environ, n);
    while environ[i].Str?
      invariant i <= n && Lookup(entries, name) == Lookup(entries[i..], name)
      decreases n - i
    {
      if Defines(environ[i].chars, name) {
        return Str(environ[i].chars[|name| + 1..]);
      }
      i := i + 1;
    }
    return Null;
  }

  // ---------------------------------------------------------------- what the child sees

  lemma {:induction false} LookupAppend(a: seq<string>, b: seq<string>, name: string)
    ensures Lookup(a + b, name) == if Defined(a, name) then Lookup(a, name) else Lookup(b, name)
    ensures Lookup(a, name).Str? <==> Defined(a, name)
  {
    if a == [] {
      assert a + b == b;
    } else {
      LookupAppend(a[1..], b, name);
      assert (a + b)[1..] == a[1..] + b;
      assert Defined(a, name) <==> Defines(a[0], name) || Defined(a[1..], name) by {
        if k :| 0 <= k < |a| && Defines(a[k], name) {
          assert k > 0 ==> a[1..][k - 1] == a[k];
        }
        if k :| 0 <= k < |a[1..]| && Defines(a[1..][k], name) {
          assert a[k + 1] == a[1..][k];
        }
      }
    }
  }

  /** The child's lookups, for every variable: a variable that the parent defines before its
      last entry keeps the parent's value; otherwise PATH and PORT are the new ones, and any
      other variable is undefined, even if the parent's last entry defined it. */
  lemma ChildLookup(parent: seq<string>, directory: string, path: string, port: nat, name: string)
    requires parent != [] && '=' !in name
    ensures
      var kept := parent[..|parent| - 1];
      var child := kept + [PathEntry(directory, path), PortEntry(port)];
      Lookup(child, name) ==
        if Defined(kept, name) then Lookup(parent, name)
        else if name == "PATH" then Str(directory + ":" + path)
        else if name == "PORT" then Str(Decimal(port))
        else Null
  {
    var kept := parent[..|parent| - 1];
    var added := [PathEntry(directory, path), PortEntry(port)];
    hide Lookup, Defined;
    LookupAppend(kept, added, name);
    LookupAppend(kept, [parent[|parent| - 1]], name);
    assert parent == kept + [parent[|parent| - 1]];
    OnlyItsOwn("PATH", directory + ":" + path, name);
    OnlyItsOwn("PORT", Decimal(port), name);
    assert PathEntry(directory, path) == "PATH" + "=" + (directory + ":" + path);
    assert PortEntry(port) == "PORT" + "=" + Decimal(port);
    LookupPair(PathEntry(directory, path), PortEntry(port), name);
  }

  lemma OnlyItsOwn(variable: string, value: string, name: string)
    requires '=' !in variable && '=' !in name
    ensures Defines(variable + "=" + value, name) <==> name == variable
    ensures (variable + "=" + value)[|variable| + 1..] == value
  {
    var entry := variable + "=" + value;
    assert entry[..|variable|] == variable && entry[|variable|] == '=';
    assert forall k :: 0 <= k < |variable| ==> entry[k] == variable[k];
    if Defines(entry, name) {
      assert forall k :: 0 <= k < |name| ==> entry[k] == entry[..|name|][k] == name[k];
      assert |name| == |variable|;
    }
  }

  lemma LookupPair(first: string, second: string, name: string)
    ensures Lookup([first, second], name) ==
      if Defines(first, name) then Str(first[|name| + 1..])
      else if Defines(second, name) then Str(second[|name| + 1..])
      else Null
  {
    assert [first, second][1..] == [second];
    assert [second][1..] == [] && Lookup([], name) == Null;
    assert Lookup([second], name) == if Defines(second, name) then Str(second[|name| + 1..]) else Null;
  }

  /** A child finds the Procfile directory in front of its PATH exactly when no entry before
      the parent's last one defines PATH, and its own port exactly when none defines PORT or
      the port found there happens to be written the same. */
  lemma NewValuesSeenExactlyWhen(parent: seq<string>, directory: string, path: string, port: nat)
    requires parent != [] && Lookup(parent, "PATH") == Str(path)
    ensures
      var kept := parent[..|parent| - 1];
      var child := kept + [PathEntry(directory, path), PortEntry(port)];
      && (Lookup(child, "PATH") == Str(directory + ":" + path) <==> !Defined(kept, "PATH"))
      && (Lookup(child, "PORT") == Str(Decimal(port)) <==>
            !Defined(kept, "PORT") || Lookup(parent, "PORT") == Str(Decimal(port)))
  {
    ChildLookup(parent, directory, path, port, "PATH");
    ChildLookup(parent, directory, path, port, "PORT");
    assert |directory + ":" + path| > |path|;
  }
}
