/** The byte counters behind the rates (fiveman_process_statistics_mac.c): trace records add to
    six 64-bit counters; a sample divides them by the seconds passed and starts them over. */
module Sampling {

  const TWO_TO_32: nat := 0x1_0000_0000
  const TWO_TO_64: nat := 0x1_0000_0000_0000_0000
  const MICROSECONDS_PER_SECOND: nat := 1000000

  datatype Channel = DevRead | DevWrite | FsRead | FsWrite | NetRead | NetWrite

  /** uint64_t */
  type Counter = n: nat | n < TWO_TO_64

  datatype Counters = Counters(devRead: Counter, devWrite: Counter, fsRead: Counter, fsWrite: Counter,
                               netRead: Counter, netWrite: Counter)
  {
    function Get(ch: Channel): Counter
    {
      match ch
      case DevRead => devRead
      case DevWrite => devWrite
      case FsRead => fsRead
      case FsWrite => fsWrite
      case NetRead => netRead
      case NetWrite => netWrite
    }
  }

  /** The six rates of a sample, named as in the sample struct. */
  datatype Rates = Rates(ioRead: nat, ioWrite: nat, netRead: nat, netWrite: nat, fsRead: nat, fsWrite: nat)
  {
    function Get(ch: Channel): nat
    {
      match ch
      case DevRead => ioRead
      case DevWrite => ioWrite
      case FsRead => fsRead
      case FsWrite => fsWrite
      case NetRead => netRead
      case NetWrite => netWrite
    }
  }

  /** The channel a record type stands for (IO_RECORD_TYPE), if any. */
  predicate TypeIs(recordType: nat, ch: Channel)
  {
    match ch
    case DevRead => recordType == 1
    case DevWrite => recordType == 2
    case FsRead => recordType == 3
    case FsWrite => recordType == 4
    case NetRead => recordType == 5
    case NetWrite => recordType == 6
  }

  /** What dtrace hands to dorec: no record, the end of the records, a traced value, or other. */
  datatype Probe = NoRecord | ExitAction | Traced(recordType: nat, blockSize: nat) | OtherAction

  datatype Verdict = ConsumeNext | ConsumeThis

  /** Unsigned 64-bit addition. */
  function Add(counter: Counter, bytes: nat): Counter
  {
    (counter + bytes) % TWO_TO_64
  }

  lemma AddIs(counter: Counter, bytes: nat)
    ensures Add(counter, bytes) == (counter + bytes) % 0x1_0000_0000_0000_0000
  {
  }

  lemma AddNothing()
    ensures forall counter: Counter :: Add(counter, 0) == counter
  {
  }

  /** time_delta_in_seconds, through its 64- and 32-bit widths; zero counts as one. */
  function Seconds(now: nat, previous: nat): (seconds: nat)
    ensures seconds > 0
  {
    var delta := (now - previous) % TWO_TO_64;
    var seconds := delta / MICROSECONDS_PER_SECOND % TWO_TO_32;
    if seconds == 0 then 1 else seconds
  }

  /** In whole seconds, rounded down, but at least one, in the 32 bits they are kept in. */
  lemma SecondsAre(now: nat, previous: nat)
    ensures
      var whole := (now - previous) % 0x1_0000_0000_0000_0000 / 1000000 % 4294967296;
      Seconds(now, previous) == if whole == 0 then 1 else whole
    ensures previous <= now < previous + 1000000 ==> Seconds(now, previous) == 1
    ensures previous + 1000000 <= now < previous + 4294967296 * 1000000 ==>
      Seconds(now, previous) * 1000000 <= now - previous < (Seconds(now, previous) + 1) * 1000000
  {
  }

  /** A rate is the largest that, over the whole seconds passed, does not exceed the counter. */
  lemma RateIsLargest(counter: nat, now: nat, previous: nat)
    requires previous + 1000000 <= now < previous + 4294967296 * 1000000
    ensures
      var rate, seconds := counter / Seconds(now, previous), (now - previous) / 1000000;
      rate * seconds <= counter < (rate + 1) * seconds
  {
    hide Seconds;
    SecondsAre(now, previous);
    var seconds := Seconds(now, previous);
    assert seconds == (now - previous) / 1000000;
    DivMod(counter, seconds);
    assert (counter / seconds + 1) * seconds == counter / seconds * seconds + seconds;
  }

  class SamplingContext {
    var fsRead: Counter
    var fsWrite: Counter
    var netRead: Counter
    var netWrite: Counter
    var devRead: Counter
    var devWrite: Counter
    ghost var history: seq<Event>  // everything that has happened to it

    function Value(): Counters
      reads this
    {
      Counters(devRead, devWrite, fsRead, fsWrite, netRead, netWrite)
    }

    ghost predicate Valid()
      reads this
    {
      forall ch: Channel :: Value().Get(ch) == Run(history, ch).pending
    }

    /** calloc */
    constructor ()
      ensures Valid() && Value() == Counters(0, 0, 0, 0, 0, 0) && history == []
    {
      history := [];
      fsRead, fsWrite, netRead, netWrite, devRead, devWrite := 0, 0, 0, 0, 0, 0;
    }

    method Dorec(probe: Probe) returns (verdict: Verdict)
      requires Valid()
      modifies this
      ensures Valid() && history == old(history) + [Recorded(probe)]
      ensures forall ch: Channel :: Value().Get(ch) == After(Recorded(probe), ch, old(Value()).Get(ch))
      ensures verdict == ConsumeNext <==> probe == NoRecord || probe == ExitAction
      ensures probe.Traced? ==>
        var was, n := old(Value()), probe.blockSize;
        match probe.recordType
        case 1 => Value() == was.(devRead := (was.devRead + n) % 0x1_0000_0000_0000_0000)
        case 2 => Value() == was.(devWrite := (was.devWrite + n) % 0x1_0000_0000_0000_0000)
        case 3 => Value() == was.(fsRead := (was.fsRead + n) % 0x1_0000_0000_0000_0000)
        case 4 => Value() == was.(fsWrite := (was.fsWrite + n) % 0x1_0000_0000_0000_0000)
        case 5 => Value() == was.(netRead := (was.netRead + n) % 0x1_0000_0000_0000_0000)
        case 6 => Value() == was.(netWrite := (was.netWrite + n) % 0x1_0000_0000_0000_0000)
        case _ => Value() == was
      ensures !probe.Traced? ==> Value() == old(Value())
    {
      hide Run, Add;
      RunMore(history, Recorded(probe));
      AddNothing();
      history := history + [Recorded(probe)];
      if probe == NoRecord {
        return ConsumeNext;
      }
      if probe.Traced? {
        if probe.recordType == 1 { AddIs(devRead, probe.blockSize); devRead := Add(devRead, probe.blockSize); }
        else if probe.recordType == 2 { AddIs(devWrite, probe.blockSize); devWrite := Add(devWrite, probe.blockSize); }
        else if probe.recordType == 3 { AddIs(fsRead, probe.blockSize); fsRead := Add(fsRead, probe.blockSize); }
        else if probe.recordType == 4 { AddIs(fsWrite, probe.blockSize); fsWrite := Add(fsWrite, probe.blockSize); }
        else if probe.recordType == 5 { AddIs(netRead, probe.blockSize); netRead := Add(netRead, probe.blockSize); }
        else if probe.recordType == 6 { AddIs(netWrite, probe.blockSize); netWrite := Add(netWrite, probe.blockSize); }
      }
      verdict := if probe == ExitAction then ConsumeNext else ConsumeThis;
    }

    /** The balance of BytesConserved, in terms of the counters themselves. */
    lemma Balance(ch: Channel)
      requires Valid()
      ensures
        var ledger := Run(history, ch);
        && ledger.recorded == ledger.reported + ledger.remainder + Value().Get(ch) + TWO_TO_64 * ledger.overflows
        && (ledger.recorded < TWO_TO_64 ==> ledger.overflows == 0)
    {
      BytesConserved(history, ch);
    }

    /** The rates and the reset at the end of fiveman_sample_info. */
    method SampleInfo(now: nat, previous: nat) returns (rates: Rates)
      requires Valid()
      modifies this
      ensures Valid() && history == old(history) + [Sampled(now, previous)]
      ensures forall ch: Channel :: rates.Get(ch) == old(Value()).Get(ch) / Seconds(now, previous)
      ensures
        var was, seconds := old(Value()), Seconds(now, previous);
        && rates.ioRead == was.devRead / seconds && rates.ioWrite == was.devWrite / seconds
        && rates.netRead == was.netRead / seconds && rates.netWrite == was.netWrite / seconds
        && rates.fsRead == was.fsRead / seconds && rates.fsWrite == was.fsWrite / seconds
      ensures previous + 1000000 <= now < previous + 4294967296 * 1000000 ==>
        forall ch: Channel ::
          rates.Get(ch) * ((now - previous) / 1000000) <= old(Value()).Get(ch)
            < (rates.Get(ch) + 1) * ((now - previous) / 1000000)
      ensures Value() == Counters(0, 0, 0, 0, 0, 0)
    {
      hide Run, Seconds;
      RunMore(history, Sampled(now, previous));
      history := history + [Sampled(now, previous)];
      var seconds := Seconds(now, previous);
      rates := Rates(devRead / seconds, devWrite / seconds, netRead / seconds, netWrite / seconds,
                     fsRead / seconds, fsWrite / seconds);
      netRead, netWrite := 0, 0;
      devRead, devWrite := 0, 0;
      fsRead, fsWrite := 0, 0;
      if previous + 1000000 <= now < previous + 4294967296 * 1000000 {
        forall ch: Channel
          ensures rates.Get(ch) * ((now - previous) / 1000000) <= old(Value()).Get(ch)
                    < (rates.Get(ch) + 1) * ((now - previous) / 1000000)
        {
          RateIsLargest(old(Value()).Get(ch), now, previous);
        }
      }
    }
  }

  // ---------------------------------------------------------------- any interleaving

  /** What happens to one sampling context between its creation and its end. */
  datatype Event = Recorded(probe: Probe) | Sampled(now: nat, previous: nat)

  /** The bytes an event records on the channel. */
  function Bytes(event: Event, ch: Channel): nat
  {
    if event.Recorded? && event.probe.Traced? && TypeIs(event.probe.recordType, ch) then event.probe.blockSize else 0
  }

  /** The channel's counter after the event, by the contracts of Dorec and SampleInfo. */
  function After(event: Event, ch: Channel, pending: Counter): Counter
  {
    if event.Recorded? then Add(pending, Bytes(event, ch)) else 0
  }

  /** The bytes a rate stands for over so many seconds. */
  function Over(rate: nat, seconds: nat): nat
  {
    rate * seconds
  }

  /** The rate an event reports, times its seconds. */
  function Reported(event: Event, pending: Counter): nat
  {
    if event.Sampled? then
      var seconds := Seconds(event.now, event.previous);
      Over(pending / seconds, seconds)
    else 0
  }

  /** What the division of a sample leaves over. */
  function Remainder(event: Event, pending: Counter): nat
  {
    if event.Sampled? then pending % Seconds(event.now, event.previous) else 0
  }

  /** How many times the event makes the counter overflow. */
  function Overflow(event: Event, ch: Channel, pending: Counter): nat
  {
    if event.Recorded? then (pending + Bytes(event, ch)) / TWO_TO_64 else 0
  }

  /** Everything one channel sees: the counter at the end, and what the events add up to. */
  datatype Ledger = Ledger(pending: Counter, recorded: nat, reported: nat, remainder: nat, overflows: nat, seconds: nat)

  function Run(events: seq<Event>, ch: Channel): Ledger
  {
    if events == [] then Ledger(0, 0, 0, 0, 0, 0)
    else
      var event, before := events[|events| - 1], Run(events[..|events| - 1], ch);
      Ledger(After(event, ch, before.pending), before.recorded + Bytes(event, ch),
             before.reported + Reported(event, before.pending), before.remainder + Remainder(event, before.pending),
             before.overflows + Overflow(event, ch, before.pending),
             before.seconds + (if event.Sampled? then Seconds(event.now, event.previous) else 0))
  }

  lemma RunMore(events: seq<Event>, event: Event)
    ensures forall ch: Channel :: Run(events + [event], ch).pending == After(event, ch, Run(events, ch).pending)
  {
    assert (events + [event])[..|events|] == events;
  }

  lemma DivMod(n: nat, d: nat)
    requires d > 0
    ensures n == n / d * d + n % d && n % d < d
  {
  }

  /** One event moves bytes, it neither loses nor invents any. */
  lemma EventConserves(event: Event, ch: Channel, pending: Counter)
    ensures pending + Bytes(event, ch) ==
      Reported(event, pending) + Remainder(event, pending)
      + After(event, ch, pending) + TWO_TO_64 * Overflow(event, ch, pending)
    ensures event.Sampled? ==> Remainder(event, pending) < Seconds(event.now, event.previous)
    ensures event.Recorded? ==> Remainder(event, pending) == 0
  {
    hide Seconds;
    if event.Sampled? {
      DivMod(pending, Seconds(event.now, event.previous));
    } else {
      DivMod(pending + Bytes(event, ch), TWO_TO_64);
    }
  }

  /** No byte is lost or invented, on any channel, in any order of records and samples and
      whatever the clock does: what was recorded is what the rates report, the remainders of
      their divisions, the pending counter, and the overflows of the counter, if any. */
  lemma {:induction false} BytesConserved(events: seq<Event>, ch: Channel)
    ensures
      var ledger := Run(events, ch);
      && ledger.recorded == ledger.reported + ledger.remainder + ledger.pending + TWO_TO_64 * ledger.overflows
      && ledger.remainder <= ledger.seconds
      && (ledger.recorded < TWO_TO_64 ==> ledger.overflows == 0)
  {
    hide Bytes, After, Reported, Remainder, Overflow, Seconds;
    if events != [] {
      var init, event := events[..|events| - 1], events[|events| - 1];
      BytesConserved(init, ch);
      EventConserves(event, ch, Run(init, ch).pending);
    }
  }
}
