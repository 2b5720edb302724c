/** CPU package power from the RAPL energy counter (`get_cpu_power`,
    app.py). The counter is read in microjoules; the power is the energy
    used since the previous successful reading divided by the time between
    them. A counter that went down has wrapped, and the counter's range is
    added back. The state (previous energy and time) changes only when a
    call succeeds. */
module Power {
  import opened Wrappers
  import opened Text

  const MicrojoulesPerJoule: real := 1000000.0

  /** The state kept between calls: the previous counter value and the
      time it was read. Python keeps the two in separate globals that are
      always set together. */
  datatype EnergySample = EnergySample(energy: int, time: real)

  /** A call's answer and the state it leaves behind. */
  datatype PowerOutcome = PowerOutcome(watts: Option<real>, next: Option<EnergySample>)

  /** The contents of a counter file as `int(f.read().strip())` reads them:
      nothing for an unreadable file, and otherwise the stripped text read
      as `int()` reads it. Unless the text has an information separator
      (which `strip()` removes and `int()` rejects), the explicit strip
      changes nothing. */
  function ReadCounter(text: Option<string>): (r: Option<int>)
    ensures text.None? ==> r.None?
    ensures text.Some? && NoSeparator(text.value) ==> r == ParseInt(text.value)
  {
    match text
    case None => None
    case Some(t) =>
      var r := ParseInt(Strip(t));
      if NoSeparator(t) then StripBeforeParse(t); r else r
  }

  /** A counter file as the kernel writes it, the decimal value and a
      newline, reads back as that value. */
  lemma CounterFileReads(n: nat)
    ensures ReadCounter(Some(Decimal(n) + "\n")) == Some(n)
  {
    var d := Decimal(n);
    var s := d + "\n";
    assert d[0] == s[0] && IsDigit(d[0]);
    assert TrimStart(s) == s;
    assert s[..|s| - 1] == d;
    assert TrimEnd(d) == d;
    assert Strip(s) == d;
    ParseDecimal(n);
  }

  /** The energy used between two readings of the counter: the plain
      difference, or, when the counter went down, the difference plus the
      counter's range (`None` when the range cannot be read). */
  function EnergyDelta(previous: int, current: int, maxRange: Option<int>): (delta: Option<int>)
    ensures delta.None? <==> current < previous && maxRange.None?
  {
    var diff := current - previous;
    if diff < 0 then
      match maxRange
      case None => None
      case Some(range) => Some(diff + range)
    else Some(diff)
  }

  /** A counter that counts modulo its range and has advanced by less than
      one full range: the delta is exactly the energy used, whether or not
      it wrapped. */
  lemma WrapRecovered(previous: int, used: int, range: int)
    requires 0 <= previous < range
    requires 0 <= used < range
    ensures EnergyDelta(previous, (previous + used) % range, Some(range)) == Some(used)
  {
    var current := (previous + used) % range;
    if previous + used < range {
      assert current == previous + used;
    } else {
      assert current == previous + used - range;
    }
  }

  /** When the counter did not go down, the range is never consulted. */
  lemma RangeOnlyOnWrap(previous: int, current: int, r1: Option<int>, r2: Option<int>)
    requires previous <= current
    ensures EnergyDelta(previous, current, r1) == EnergyDelta(previous, current, r2) == Some(current - previous)
  {
  }

  /** `(energy_diff / 1000000.0) / time_diff`; Python raises on a zero interval. */
  function Watts(delta: int, elapsed: real): real
    requires elapsed != 0.0
  {
    (delta as real / MicrojoulesPerJoule) / elapsed
  }

  /** The power, multiplied back over the interval, is the energy in
      microjoules; over a positive interval it has the sign of the energy. */
  lemma WattsMeaning(delta: int, elapsed: real)
    requires elapsed != 0.0
    ensures Watts(delta, elapsed) * elapsed * MicrojoulesPerJoule == delta as real
    ensures elapsed > 0.0 ==> (Watts(delta, elapsed) < 0.0 <==> delta < 0)
  {
    var joules := delta as real / MicrojoulesPerJoule;
    assert joules * MicrojoulesPerJoule == delta as real;
    assert Watts(delta, elapsed) * elapsed == joules;
    if elapsed > 0.0 {
      assert delta < 0 ==> joules < 0.0;
      assert delta >= 0 ==> joules >= 0.0;
    }
  }

  /** One call of `get_cpu_power`, given what the counter file read as
      (`None` when it cannot be opened or `int()` rejects its contents),
      `now`, the clock read after it, and what the range file reads as,
      which matters only when the counter went down (the only case in which
      the source opens it). Any exception (one of those reads failing, a
      zero interval) yields `None` and keeps the previous state, because the
      state is stored after the division; a successful call stores the
      counter value just read and its time. */
  function PowerStep(previous: Option<EnergySample>, energy: Option<int>, now: real,
                     maxRange: Option<int>): (o: PowerOutcome)
    ensures o.watts.None? ==> o.next == previous
    ensures o.watts.Some? ==> energy.Some? && o.next == Some(EnergySample(energy.value, now))
  {
    match energy
    case None => PowerOutcome(None, previous)
    case Some(current) =>
      match previous
      case None => PowerOutcome(Some(0.0), Some(EnergySample(current, now)))
      case Some(p) =>
        var elapsed := now - p.time;
        match EnergyDelta(p.energy, current, maxRange)
        case None => PowerOutcome(None, previous)
        case Some(delta) =>
          if elapsed == 0.0 then PowerOutcome(None, previous)
          else PowerOutcome(Some(Watts(delta, elapsed)), Some(EnergySample(current, now)))
  }

  /** The first successful reading reports zero and seeds the state. */
  lemma PowerFirstReading(current: int, now: real, maxRange: Option<int>)
    ensures PowerStep(None, Some(current), now, maxRange)
         == PowerOutcome(Some(0.0), Some(EnergySample(current, now)))
  {
  }

  /** A call fails exactly when the counter cannot be read, or there is a
      previous reading and either no time has passed or the counter went
      down and its range cannot be read. */
  lemma PowerFailure(previous: Option<EnergySample>, energy: Option<int>, now: real, maxRange: Option<int>)
    ensures PowerStep(previous, energy, now, maxRange).watts.None?
        <==> energy.None?
             || (previous.Some?
                 && (now == previous.value.time
                     || (energy.value < previous.value.energy && maxRange.None?)))
  {
  }

  /** Later readings report the energy used over the interval (the plain
      difference when the counter went up, the difference plus the range
      when it went down) spread over the time between the readings. */
  lemma PowerRate(p: EnergySample, current: int, now: real, maxRange: Option<int>)
    requires now != p.time
    requires current < p.energy ==> maxRange.Some?
    ensures var used := if current < p.energy then current - p.energy + maxRange.value
                        else current - p.energy;
      var w := PowerStep(Some(p), Some(current), now, maxRange).watts;
      && w.Some?
      && w.value * (now - p.time) * MicrojoulesPerJoule == used as real
  {
    var used := if current < p.energy then current - p.energy + maxRange.value
                else current - p.energy;
    assert PowerStep(Some(p), Some(current), now, maxRange).watts == Some(Watts(used, now - p.time));
    WattsMeaning(used, now - p.time);
  }

  /** 500 microjoules over one second is 0.0005 W; a counter of range 1000
      that went from 900 to 100 used 200 microjoules. */
  lemma PowerExamples()
    ensures PowerStep(Some(EnergySample(1000, 0.0)), Some(1500), 1.0, None).watts == Some(0.0005)
    ensures PowerStep(Some(EnergySample(900, 0.0)), Some(100), 1.0, Some(1000)).watts == Some(0.0002)
    ensures PowerStep(Some(EnergySample(900, 0.0)), Some(100), 1.0, None).watts == None
  {
  }

  /** The power calculator with its module-level state. */
  class PowerMeter {
    var previous: Option<EnergySample>

    constructor()
      ensures previous == None
    {
      previous := None;
    }

    /** `get_cpu_power`. */
    method Read(energyText: Option<string>, now: real, rangeText: Option<string>)
      returns (watts: Option<real>)
      modifies this
      ensures PowerOutcome(watts, previous)
           == PowerStep(old(previous), ReadCounter(energyText), now, ReadCounter(rangeText))
    {
      var reading := ReadCounter(energyText);
      if reading.None? {
        return None;
      }
      var current := reading.value;
      match previous {
        case None =>
          previous := Some(EnergySample(current, now));
          watts := Some(0.0);
        case Some(p) =>
          var diff := current - p.energy;
          var elapsed := now - p.time;
          if diff < 0 {
            var range := ReadCounter(rangeText);
            if range.None? {
              return None;
            }
            diff := diff + range.value;
          }
          assert EnergyDelta(p.energy, current, ReadCounter(rangeText)) == Some(diff);
          if elapsed == 0.0 {
            return None;
          }
          var w := Watts(diff, elapsed);
          previous := Some(EnergySample(current, now));
          watts := Some(w);
      }
    }
  }
}
