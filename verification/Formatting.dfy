/** Byte amounts as text in a bounded buffer (ncurses_screen.c:15-52): the unit that is chosen,
    and the "read/write" pair, which always leaves a terminated string in its caller's array. */
module Formatting {
  import opened Strings

  const BYTES_PER_KILOBYTE: nat := 1024
  const BYTES_PER_MEGABYTE: nat := BYTES_PER_KILOBYTE * 1024
  const BYTES_PER_GIGABYTE: nat := BYTES_PER_MEGABYTE * 1024
  const BYTES_PER_TERABYTE: nat := BYTES_PER_GIGABYTE * 1024
  const BYTES_PER_PETABYTE: nat := BYTES_PER_TERABYTE * 1024
  const BYTES_PER_EXABYTE: nat := BYTES_PER_TERABYTE * 1024  // as in fiveman.h:26

  const NUL: char := '\0'

  // ---------------------------------------------------------------- the unit

  datatype Unit = Unit(bytes: nat, suffix: string)

  /** The if-chain of byte_measurement_string. The quotient is at least 1 for the same numbers
      whichever way a negative one is rounded. */
  function UnitOf(measurement: int): Unit
  {
    if measurement / BYTES_PER_EXABYTE >= 1 then Unit(BYTES_PER_EXABYTE, "EB")
    else if measurement / BYTES_PER_PETABYTE >= 1 then Unit(BYTES_PER_PETABYTE, "PB")
    else if measurement / BYTES_PER_TERABYTE >= 1 then Unit(BYTES_PER_TERABYTE, "TB")
    else if measurement / BYTES_PER_GIGABYTE >= 1 then Unit(BYTES_PER_GIGABYTE, "GB")
    else if measurement / BYTES_PER_MEGABYTE >= 1 then Unit(BYTES_PER_MEGABYTE, "MB")
    else if measurement / BYTES_PER_KILOBYTE >= 1 then Unit(BYTES_PER_KILOBYTE, "kB")
    else Unit(1, "B")
  }

  function Power(exponent: nat): nat
  {
    if exponent == 0 then 1 else 1024 * Power(exponent - 1)
  }

  /** The power of 1024 that a suffix stands for. */
  function Meaning(suffix: string): nat
  {
    if suffix == "EB" then Power(6)
    else if suffix == "PB" then Power(5)
    else if suffix == "TB" then Power(4)
    else if suffix == "GB" then Power(3)
    else if suffix == "MB" then Power(2)
    else if suffix == "kB" then Power(1)
    else Power(0)
  }

  /** The amount is divided by the unit its suffix names exactly below one petabyte; from there
      on it is divided by a petabyte and labelled as exabytes, and "PB" is never shown. */
  lemma UnitNamedExactlyWhen(measurement: int)
    ensures Meaning(UnitOf(measurement).suffix) == UnitOf(measurement).bytes <==> measurement < Power(5)
    ensures UnitOf(measurement).suffix != "PB"
    ensures measurement >= Power(5) ==> UnitOf(measurement) == Unit(Power(5), "EB")
  {
  }

  /** The units, in numbers of bytes. */
  lemma UnitsAre(measurement: int)
    ensures UnitOf(measurement) ==
      if measurement < 1024 then Unit(1, "B")
      else if measurement < 1048576 then Unit(1024, "kB")
      else if measurement < 1073741824 then Unit(1048576, "MB")
      else if measurement < 1099511627776 then Unit(1073741824, "GB")
      else if measurement < 1125899906842624 then Unit(1099511627776, "TB")
      else Unit(1125899906842624, "EB")
  {
  }

  /** round: to the nearest integer, halves away from zero. */
  function Round(x: real): int
  {
    if x >= 0.0 then (x + 0.5).Floor else -(-x + 0.5).Floor
  }

  /** Nearest, and away from zero in the middle. */
  lemma RoundIsNearest(x: real)
    ensures x - 0.5 <= Round(x) as real <= x + 0.5
    ensures x >= 0.0 ==> x - 0.5 < Round(x) as real
    ensures x < 0.0 ==> Round(x) as real < x + 0.5
  {
  }

  /** The amount shown, in hundredths of its unit. */
  function Amount(measurement: int): real
  {
    Round(measurement as real / UnitOf(measurement).bytes as real * 100.0) as real / 100.0
  }

  /** The amount shown is at least 1 of its unit, and at most 1024 up to 1024 petabytes. It is
      rounded to hundredths after the unit is chosen, so it reaches 1024 exactly when no more
      than half a hundredth is missing to the next unit. From there on, for lack of a further
      unit, it goes up to 8192, for the largest `long long`. */
  lemma AmountInRange(measurement: int)
    requires measurement > 0
    ensures Amount(measurement) >= 1.0
    ensures measurement < Power(6) ==>
      var unit := UnitOf(measurement).bytes;
      Amount(measurement) <= 1024.0
      && (Amount(measurement) == 1024.0 <==> 200 * (1024 * unit - measurement) <= unit)
    ensures Power(6) <= measurement ==> Amount(measurement) >= 1024.0
    ensures measurement < 0x8000_0000_0000_0000 ==> Amount(measurement) <= 8192.0
  {
    InUnit(measurement);
    var unit := UnitOf(measurement).bytes;
    var m, u := measurement as real, unit as real;
    Quotient(m, u);
    Hundredths(m, u, m / u * 100.0);
    RoundIs(m / u * 100.0);
    assert 204799.0 * u <= 200.0 * m <==> (204799 * unit) as real <= (200 * measurement) as real;
    assert m < 1024.0 * u <==> measurement as real < (1024 * unit) as real;
    assert m <= 8192.0 * u <==> measurement as real <= (8192 * unit) as real;
  }

  /** The amount shown is off by at most half a hundredth of its unit. */
  lemma AmountIsNearest(measurement: int)
    requires measurement > 0
    ensures
      var exact := measurement as real / UnitOf(measurement).bytes as real;
      exact - 0.005 <= Amount(measurement) <= exact + 0.005
  {
    RoundIsNearest(measurement as real / UnitOf(measurement).bytes as real * 100.0);
  }

  lemma Quotient(m: real, u: real)
    requires u > 0.0
    ensures m / u * 100.0 * u == m * 100.0
  {
    assert m / u * u == m;
  }

  lemma InUnit(measurement: int)
    requires measurement > 0
    ensures UnitOf(measurement).bytes <= measurement
    ensures measurement < Power(6) <==> measurement < 1024 * UnitOf(measurement).bytes
    ensures measurement < 0x8000_0000_0000_0000 ==> measurement <= 8192 * UnitOf(measurement).bytes
  {
  }

  lemma Ordered(a: real, b: real, u: real)
    requires u > 0.0
    ensures a < b <==> a * u < b * u
  {
    assert (b - a) * u == b * u - a * u;
    assert a < b ==> (b - a) * u > 0.0;
    assert a > b ==> (a - b) * u > 0.0 && (a - b) * u == a * u - b * u;
  }

  lemma OrderedBy(a: real, b: real, u: real, p: real, q: real)
    requires u > 0.0 && a * u == p && b * u == q
    ensures a < b <==> p < q
  {
    Ordered(a, b, u);
  }

  /** The quotient in hundredths, on real numbers. */
  lemma Hundredths(m: real, u: real, x: real)
    requires 0.0 < u <= m && x * u == m * 100.0
    ensures x >= 100.0
    ensures x < 102400.0 <==> m < 1024.0 * u
    ensures x < 102399.5 <==> 200.0 * m < 204799.0 * u
    ensures x <= 819200.0 <==> m <= 8192.0 * u
  {
    var p := m * 100.0;
    OrderedBy(x, 100.0, u, p, 100.0 * u);
    OrderedBy(x, 102400.0, u, p, 102400.0 * u);
    OrderedBy(x, 102399.5, u, p, 102399.5 * u);
    OrderedBy(819200.0, x, u, 819200.0 * u, p);
    Linear(p, m, u);
  }

  lemma Linear(p: real, m: real, u: real)
    requires p == m * 100.0 && 0.0 < u <= m
    ensures 100.0 * u <= p
    ensures p < 102400.0 * u <==> m < 1024.0 * u
    ensures p < 102399.5 * u <==> 200.0 * m < 204799.0 * u
    ensures p <= 819200.0 * u <==> m <= 8192.0 * u
  {
  }

  lemma RoundIs(x: real)
    requires x >= 100.0
    ensures Round(x) >= 100
    ensures x < 102400.0 ==> Round(x) <= 102400 && (Round(x) == 102400 <==> x >= 102399.5)
    ensures x >= 102400.0 ==> Round(x) >= 102400
    ensures x <= 819200.0 ==> Round(x) <= 819200
  {
  }

  /** For instance one byte less than a megabyte is shown as 1024 kB. */
  lemma ShownAs1024()
    ensures UnitOf(1048575) == Unit(BYTES_PER_KILOBYTE, "kB") && Amount(1048575) == 1024.0
  {
  }

  /** printf's "%g%s"; `g` says what "%g" makes of a number, and never makes a terminator. */
  function MeasurementText(measurement: int, g: real -> string): (text: string)
    requires forall x: real :: NUL !in g(x)
    ensures text != "" && NUL !in text
  {
    g(Amount(measurement)) + UnitOf(measurement).suffix
  }

  /** The number stands in front, the suffix behind it, and nothing else is shown. */
  lemma TextIs(measurement: int, g: real -> string)
    requires forall x: real :: NUL !in g(x)
    ensures
      var text, number, suffix := MeasurementText(measurement, g), g(Amount(measurement)), UnitOf(measurement).suffix;
      && |text| == |number| + |suffix|
      && text[..|number|] == number && text[|text| - |suffix|..] == suffix
    ensures 1024 <= measurement < 1048576 ==>
      var text := MeasurementText(measurement, g);
      |text| >= 2 && text[|text| - 2..] == "kB"
    ensures measurement == 2048 ==> MeasurementText(measurement, g) == g(2.0) + "kB"
  {
    UnitsAre(measurement);
  }

  // ---------------------------------------------------------------- bounded text

  /** What snprintf keeps of a text in a buffer of `size` characters. */
  function Kept(text: string, size: nat): (kept: string)
    ensures kept <= text && |kept| == (if |text| < size then |text| else if size > 0 then size - 1 else 0)
  {
    if |text| < size then text else if size > 0 then text[..size - 1] else ""
  }

  /** snprintf to &buffer[at] with `size` characters of room; returns the untruncated length. */
  method Snprintf(buffer: array<char>, at: nat, size: nat, text: string) returns (written: nat)
    requires at + size <= buffer.Length
    modifies buffer
    ensures written == |text|
    ensures buffer[at..at + |Kept(text, size)|] == Kept(text, size)
    ensures size > 0 ==> buffer[at + |Kept(text, size)|] == NUL
    ensures forall k :: 0 <= k < buffer.Length && !(at <= k <= at + |Kept(text, size)| && size > 0) ==>
      buffer[k] == old(buffer[k])
  {
    var kept := Kept(text, size);
    for i := 0 to |kept|
      invariant buffer[at..at + i] == kept[..i]
      invariant forall k :: 0 <= k < buffer.Length && !(at <= k < at + i) ==> buffer[k] == old(buffer[k])
    {
      buffer[at + i] := kept[i];
    }
    if size > 0 {
      buffer[at + |kept|] := NUL;
    }
    assert buffer[at..at + |kept|] == kept;
    written := |text|;
  }

  /** What readwrite_byte_measurement_string leaves, given the two amounts' texts. */
  function Shown(a: string, b: string, size: nat): string
  {
    if |a| >= size then Kept(a, size)
    else if |a| + 1 < size then a + "/" + Kept(b, size - |a| - 1)
    else a + "/"
  }

  /** Always a prefix of "a/b"; all of it exactly when it is shorter than the size; and no
      more is cut off than the terminator needs. */
  lemma ShownIsPrefix(a: string, b: string, size: nat)
    requires b != ""
    ensures Shown(a, b, size) <= a + "/" + b
    ensures Shown(a, b, size) == a + "/" + b <==> |a + "/" + b| < size
    ensures |a + "/" + b| >= size > 0 ==> size - 1 <= |Shown(a, b, size)| <= size
    ensures |a + "/" + b| >= size > 0 ==> (|Shown(a, b, size)| == size <==> |a| + 1 == size)
  {
    var text := a + "/" + b;
    if |a| >= size {
      assert text[..|a|] == a;
    } else if |a| + 1 < size {
      assert text[|a| + 1..] == b;
      assert (a + "/") == text[..|a| + 1];
    }
  }

  lemma WhatIsShown(a: string, b: string, size: nat, chars: seq<char>)
    requires NUL !in a && NUL !in b && b != ""
    requires |Shown(a, b, size)| < |chars| && chars[..|Shown(a, b, size)|] == Shown(a, b, size)
    requires chars[|Shown(a, b, size)|] == NUL && |chars| == size + 1
    ensures NUL in chars && CString(chars, NUL) <= a + "/" + b
    ensures CString(chars, NUL) == a + "/" + b <==> |a + "/" + b| < size
    ensures |a + "/" + b| >= size > 0 ==> |CString(chars, NUL)| >= size - 1
    ensures size > 0 ==> (NUL in chars[..size] <==> |a| + 1 != size)
  {
    hide CString, Shown;
    ShownIsPrefix(a, b, size);
    var shown := Shown(a, b, size);
    assert forall k :: 0 <= k < |shown| ==> shown[k] == (a + "/" + b)[k];
    assert NUL !in shown;
    CStringIs(chars, NUL, shown);
    if |shown| < size {
      assert chars[..size][|shown|] == NUL;
    } else {
      assert chars[..size] == shown;
    }
  }

  /** byte_measurement_string, to &buffer[at] with `size` characters of room. */
  method ByteMeasurementString(measurement: int, g: real -> string, buffer: array<char>, at: nat, size: nat)
    returns (written: nat)
    requires at + size <= buffer.Length && forall x: real :: NUL !in g(x)
    modifies buffer
    ensures written == |MeasurementText(measurement, g)|
    ensures
      var kept := Kept(MeasurementText(measurement, g), size);
      && buffer[at..at + |kept|] == kept
      && (size > 0 ==> buffer[at + |kept|] == NUL)
      && forall k :: 0 <= k < buffer.Length && !(at <= k <= at + |kept| && size > 0) ==> buffer[k] == old(buffer[k])
  {
    written := Snprintf(buffer, at, size, MeasurementText(measurement, g));
  }

  /** readwrite_byte_measurement_string, on the callers' zeroed arrays, which have a slot more
      than `bufSize`. That slot is what terminates the text when the '/' lands in the last
      place the function may use. */
  method ReadwriteByteMeasurementString(readMeasurement: int, writeMeasurement: int, g: real -> string,
                                        buffer: array<char>, bufSize: nat)
    returns (written: nat)
    requires buffer.Length == bufSize + 1 && forall k :: 0 <= k < buffer.Length ==> buffer[k] == NUL
    requires forall x: real :: NUL !in g(x)
    modifies buffer
    ensures
      var a, b := MeasurementText(readMeasurement, g), MeasurementText(writeMeasurement, g);
      var text, shown := a + "/" + b, CString(buffer[..], NUL);
      && NUL in buffer[..] && shown <= text
      && (shown == text <==> |text| < bufSize)
      && (|text| >= bufSize > 0 ==> |shown| >= bufSize - 1)
      && (bufSize > 0 ==> (NUL in buffer[..bufSize] <==> |a| + 1 != bufSize))
      && written == if |a| >= bufSize then |a| else if |a| + 1 < bufSize then |text| else |a| + 1
  {
    hide CString, MeasurementText;
    ghost var a, b := MeasurementText(readMeasurement, g), MeasurementText(writeMeasurement, g);
    written := ByteMeasurementString(readMeasurement, g, buffer, 0, bufSize);
    if written < bufSize {
      buffer[written] := '/';
      written := written + 1;
      assert buffer[..written] == a + "/" by {
        assert buffer[0..|a|] == a;
      }
      var remainder := bufSize - written;
      if remainder > 0 {
        ghost var kept := Kept(b, remainder);
        var more := ByteMeasurementString(writeMeasurement, g, buffer, written, remainder);
        assert buffer[..written] == a + "/";
        assert buffer[..written + |kept|] == buffer[..written] + buffer[written..written + |kept|];
        written := written + more;
      }
    }
    WhatIsShown(a, b, bufSize, buffer[..]);
  }
}
