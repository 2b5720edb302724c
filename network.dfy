/** Network throughput from the byte counters of `/proc/net/dev`
    (`get_network_speed`, app.py). The received bytes (field 0) and the
    transmitted bytes (field 8) are summed over every interface line except
    the two header lines and the loopback interface; the rate is the change
    since the previous successful call, in megabits per second. Deltas are
    not corrected: a counter that went down yields a negative rate. */
module Network {
  import opened Wrappers
  import opened Text

  const Loopback: string := "lo"
  /** `/proc/net/dev` opens with this many header lines. */
  const HeaderLines: nat := 2
  /** Positions of the byte counters among the fields after the colon. */
  const RxField: nat := 0
  const TxField: nat := 8

  datatype Traffic = Traffic(rx: int, tx: int)

  /** What one line adds to the totals. */
  datatype LineCounts =
    | Skipped                   // no colon, or the loopback interface
    | Counted(rx: int, tx: int)
    | Malformed                 // a missing field or a field `int()` rejects

  function ClassifyLine(line: string): LineCounts {
    if ':' !in line then Skipped
    else
      var parts := Split(line, ':');
      if Strip(parts[0]) == Loopback then Skipped
      else
        var stats := Fields(parts[1]);
        if |stats| <= RxField then Malformed
        else
          match ParseInt(stats[RxField])
          case None => Malformed
          case Some(rx) =>
            if |stats| <= TxField then Malformed
            else
              match ParseInt(stats[TxField])
              case None => Malformed
              case Some(tx) => Counted(rx, tx)
  }

  /** Adds one line's counts to running totals; a malformed line makes the
      whole read fail, as the exception it raises leaves the loop. */
  function AddLine(acc: Option<Traffic>, counts: LineCounts): Option<Traffic> {
    match acc
    case None => None
    case Some(t) =>
      match counts
      case Skipped => acc
      case Malformed => None
      case Counted(rx, tx) => Some(Traffic(t.rx + rx, t.tx + tx))
  }

  /** Running totals over classified lines, `None` once one is malformed. */
  function Tally(counts: seq<LineCounts>): Option<Traffic> {
    if counts == [] then Some(Traffic(0, 0))
    else AddLine(Tally(counts[..|counts| - 1]), counts[|counts| - 1])
  }

  /** `f` applied to every element, in order. */
  function Each<T, U>(xs: seq<T>, f: T -> U): (ys: seq<U>)
    ensures |ys| == |xs|
    ensures forall i | 0 <= i < |xs| :: ys[i] == f(xs[i])
  {
    seq(|xs|, i requires 0 <= i < |xs| => f(xs[i]))
  }

  lemma EachAppend<T, U>(a: seq<T>, b: seq<T>, f: T -> U)
    ensures Each(a + b, f) == Each(a, f) + Each(b, f)
  {
    assert forall i | 0 <= i < |a| :: (a + b)[i] == a[i];
    assert forall i | 0 <= i < |b| :: (a + b)[|a| + i] == b[i];
  }

  function Classified(lines: seq<string>): (counts: seq<LineCounts>)
    ensures |counts| == |lines|
    ensures forall i | 0 <= i < |lines| :: counts[i] == ClassifyLine(lines[i])
  {
    Each(lines, ClassifyLine)
  }

  /** The totals over a block of lines, `None` when one is malformed. */
  function Totals(lines: seq<string>): Option<Traffic> {
    Tally(Classified(lines))
  }

  /** Python's `lines[n:]`. */
  function Drop(lines: seq<string>, n: nat): (rest: seq<string>)
    ensures |rest| == if |lines| <= n then 0 else |lines| - n
    ensures |lines| > n ==> rest == lines[n..]
    ensures lines == lines[..|lines| - |rest|] + rest
  {
    if |lines| <= n then [] else lines[n..]
  }

  /** The summing loop of `get_network_speed`. */
  method SumTraffic(lines: seq<string>) returns (total: Option<Traffic>)
    ensures total == Totals(lines)
  {
    ghost var counts := Classified(lines);
    var totalRx, totalTx := 0, 0;
    var i := 0;
    while i < |lines|
      invariant 0 <= i <= |lines|
      invariant Tally(counts[..i]) == Some(Traffic(totalRx, totalTx))
    {
      var lineCounts := ClassifyLine(lines[i]);
      assert counts[i] == lineCounts;
      TallyStep(counts, i);
      match lineCounts {
        case Skipped =>
        case Malformed =>
          TallyFailurePersists(counts, i + 1);
          return None;
        case Counted(rx, tx) =>
          totalRx := totalRx + rx;
          totalTx := totalTx + tx;
      }
      i := i + 1;
    }
    assert counts[..i] == counts;
    total := Some(Traffic(totalRx, totalTx));
  }

  /** The running totals grow one line at a time. */
  lemma TallyStep(counts: seq<LineCounts>, i: nat)
    requires i < |counts|
    ensures Tally(counts[..i + 1]) == AddLine(Tally(counts[..i]), counts[i])
  {
    assert counts[..i + 1][..i] == counts[..i];
  }

  /** Combines the totals of two consecutive blocks of lines. */
  function Combine(a: Option<Traffic>, b: Option<Traffic>): Option<Traffic> {
    if a.Some? && b.Some? then Some(Traffic(a.value.rx + b.value.rx, a.value.tx + b.value.tx))
    else None
  }

  /** Tallying two consecutive blocks adds their totals, and fails if
      either block fails. */
  lemma {:induction false} TallyAppend(a: seq<LineCounts>, b: seq<LineCounts>)
    ensures Tally(a + b) == Combine(Tally(a), Tally(b))
    decreases |b|
  {
    if b == [] {
      assert a + b == a;
    } else {
      var b' := b[..|b| - 1];
      assert (a + b)[..|a + b| - 1] == a + b';
      assert (a + b)[|a + b| - 1] == b[|b| - 1];
      TallyAppend(a, b');
    }
  }

  lemma TallyFailurePersists(counts: seq<LineCounts>, i: nat)
    requires i <= |counts|
    requires Tally(counts[..i]) == None
    ensures Tally(counts) == None
  {
    TallyAppend(counts[..i], counts[i..]);
    assert counts[..i] + counts[i..] == counts;
  }

  /** Summing over two blocks of lines adds their totals, and fails if
      either block fails. */
  lemma TotalsAppend(a: seq<string>, b: seq<string>)
    ensures Totals(a + b) == Combine(Totals(a), Totals(b))
  {
    EachAppend(a, b, ClassifyLine);
    TallyAppend(Classified(a), Classified(b));
  }

  /** The tally fails exactly when some line is malformed. */
  lemma {:induction false} TallyFail(counts: seq<LineCounts>)
    ensures Tally(counts).None? <==> exists i | 0 <= i < |counts| :: counts[i].Malformed?
  {
    if counts != [] {
      var init := counts[..|counts| - 1];
      TallyFail(init);
      assert forall i | 0 <= i < |init| :: init[i] == counts[i];
    }
  }

  /** The totals are `None` exactly when some line is malformed. */
  lemma TotalsFail(lines: seq<string>)
    ensures Totals(lines).None? <==> exists i | 0 <= i < |lines| :: ClassifyLine(lines[i]).Malformed?
  {
    var counts := Classified(lines);
    TallyFail(counts);
    if Totals(lines).None? {
      var i :| 0 <= i < |counts| && counts[i].Malformed?;
      assert ClassifyLine(lines[i]).Malformed?;
    }
  }

  /** Lines that are skipped, among them the loopback interface, change
      nothing wherever they stand. */
  lemma SkippedLineIgnored(before: seq<string>, line: string, after: seq<string>)
    requires ClassifyLine(line).Skipped?
    ensures Totals(before + [line] + after) == Totals(before + after)
  {
    TotalsAppend(before + [line], after);
    TotalsAppend(before, [line]);
    TotalsAppend(before, after);
    assert Classified([line]) == [Skipped];
    assert Tally([Skipped]) == Some(Traffic(0, 0)) by {
      assert [Skipped][..0] == [];
    }
  }

  /** The loopback interface is never counted. */
  lemma LoopbackSkipped(line: string)
    requires ':' in line && Strip(Split(line, ':')[0]) == Loopback
    ensures ClassifyLine(line).Skipped?
  {
  }

  /** A line is skipped exactly when it has no colon or names the loopback
      interface. */
  lemma SkippedExactly(line: string)
    ensures ClassifyLine(line).Skipped? <==>
      ':' !in line || Strip(Split(line, ':')[0]) == Loopback
  {
  }

  /** A line is malformed exactly when it names an interface other than
      loopback and lacks field 8 or holds a field 0 or 8 that `int()`
      rejects. */
  lemma MalformedExactly(line: string)
    ensures ClassifyLine(line).Malformed? <==>
      && ':' in line
      && Strip(Split(line, ':')[0]) != Loopback
      && var stats := Fields(Split(line, ':')[1]);
        || |stats| <= TxField
        || ParseInt(stats[RxField]).None?
        || ParseInt(stats[TxField]).None?
  {
  }

  /** Every other interface line is counted with its field 0 and field 8. */
  lemma InterfaceLineCounted(line: string)
    requires ':' in line && Strip(Split(line, ':')[0]) != Loopback
    requires var stats := Fields(Split(line, ':')[1]);
      && |stats| > TxField
      && ParseInt(stats[RxField]).Some?
      && ParseInt(stats[TxField]).Some?
    ensures var stats := Fields(Split(line, ':')[1]);
      ClassifyLine(line) ==
        Counted(ParseInt(stats[RxField]).value, ParseInt(stats[TxField]).value)
  {
  }

  /** A counted line adds its two counters to the totals of the lines
      before it. */
  lemma CountedLineAdds(before: seq<string>, line: string)
    requires ClassifyLine(line).Counted?
    ensures Totals(before + [line]) ==
      Combine(Totals(before), Some(Traffic(ClassifyLine(line).rx, ClassifyLine(line).tx)))
  {
    var c := ClassifyLine(line);
    TotalsAppend(before, [line]);
    assert Classified([line]) == [c];
    assert Tally([c]) == Some(Traffic(c.rx, c.tx)) by {
      assert [c][..0] == [];
    }
  }

  /** A well-formed interface line adds its field 0 and field 8. */
  lemma CountedFields(line: string)
    requires ClassifyLine(line).Counted?
    ensures ':' in line
    ensures var stats := Fields(Split(line, ':')[1]);
      && Strip(Split(line, ':')[0]) != Loopback
      && |stats| > TxField
      && ParseInt(stats[RxField]) == Some(ClassifyLine(line).rx)
      && ParseInt(stats[TxField]) == Some(ClassifyLine(line).tx)
  {
  }

  // ---------------------------------------------------------- the meter

  /** The counter state kept between calls. */
  datatype NetSample = NetSample(rx: int, tx: int, time: real)

  datatype Speeds = Speeds(download: real, upload: real)

  /** A call's answer and the counter state it leaves behind. */
  datatype NetOutcome = NetOutcome(speeds: Option<Speeds>, next: Option<NetSample>)

  /** `(bytes / seconds) * 8 / 1000000`; Python raises on a zero interval. */
  function Mbps(bytes: int, seconds: real): (rate: real)
    requires seconds != 0.0
  {
    (bytes as real / seconds) * 8.0 / 1000000.0
  }

  /** The rate, multiplied back over the interval, is the byte count in
      megabits; its sign over a positive interval is the sign of the delta. */
  lemma MbpsMeaning(bytes: int, seconds: real)
    requires seconds != 0.0
    ensures Mbps(bytes, seconds) * seconds * 1000000.0 == bytes as real * 8.0
    ensures seconds > 0.0 ==> (Mbps(bytes, seconds) < 0.0 <==> bytes < 0)
  {
    var q := bytes as real / seconds;
    assert q * seconds == bytes as real;
    if seconds > 0.0 {
      assert bytes < 0 ==> q < 0.0;
      assert bytes >= 0 ==> q >= 0.0;
    }
  }

  /** One call of `get_network_speed`: `dev` is the file's lines (`None`
      when it cannot be opened), `now` the clock read at the start. A
      failed call (file unreadable, a malformed line, no time elapsed)
      keeps the state; a successful one stores the new totals and time. */
  function NetStep(previous: Option<NetSample>, dev: Option<seq<string>>, now: real): (o: NetOutcome)
    ensures o.speeds.None? ==> o.next == previous
    ensures o.speeds.Some?
        ==> dev.Some? && Totals(Drop(dev.value, HeaderLines)).Some?
            && var t := Totals(Drop(dev.value, HeaderLines)).value;
               o.next == Some(NetSample(t.rx, t.tx, now))
  {
    match dev
    case None => NetOutcome(None, previous)
    case Some(lines) =>
      match Totals(Drop(lines, HeaderLines))
      case None => NetOutcome(None, previous)
      case Some(t) =>
        match previous
        case None => NetOutcome(Some(Speeds(0.0, 0.0)), Some(NetSample(t.rx, t.tx, now)))
        case Some(p) =>
          var elapsed := now - p.time;
          if elapsed == 0.0 then NetOutcome(None, previous)
          else
            NetOutcome(Some(Speeds(Mbps(t.rx - p.rx, elapsed), Mbps(t.tx - p.tx, elapsed))),
                       Some(NetSample(t.rx, t.tx, now)))
  }

  /** The first successful call reports zero and seeds the state. */
  lemma NetFirstCall(dev: seq<string>, now: real)
    requires Totals(Drop(dev, HeaderLines)).Some?
    ensures var t := Totals(Drop(dev, HeaderLines)).value;
      NetStep(None, Some(dev), now) == NetOutcome(Some(Speeds(0.0, 0.0)), Some(NetSample(t.rx, t.tx, now)))
  {
  }

  /** A call fails exactly when the file cannot be read, a line is
      malformed, or there are previous totals and no time has passed (the
      division raises before the state is stored). */
  lemma NetFailure(previous: Option<NetSample>, dev: Option<seq<string>>, now: real)
    ensures NetStep(previous, dev, now).speeds.None?
        <==> || dev.None?
             || Totals(Drop(dev.value, HeaderLines)).None?
             || (previous.Some? && now == previous.value.time)
  {
  }

  /** Later calls report the uncorrected deltas: the download rate,
      multiplied over the interval, is the change in received bytes, and
      over a positive interval it is negative exactly when the counter
      went down (likewise for upload). */
  lemma NetDeltasUncorrected(p: NetSample, dev: seq<string>, now: real)
    requires Totals(Drop(dev, HeaderLines)).Some? && now != p.time
    ensures var t := Totals(Drop(dev, HeaderLines)).value;
      var s := NetStep(Some(p), Some(dev), now).speeds;
      && s.Some?
      && s.value.download * (now - p.time) * 1000000.0 == (t.rx - p.rx) as real * 8.0
      && s.value.upload * (now - p.time) * 1000000.0 == (t.tx - p.tx) as real * 8.0
      && (now > p.time ==> (s.value.download < 0.0 <==> t.rx < p.rx))
      && (now > p.time ==> (s.value.upload < 0.0 <==> t.tx < p.tx))
  {
    var t := Totals(Drop(dev, HeaderLines)).value;
    assert NetStep(Some(p), Some(dev), now).speeds
        == Some(Speeds(Mbps(t.rx - p.rx, now - p.time), Mbps(t.tx - p.tx, now - p.time)));
    MbpsMeaning(t.rx - p.rx, now - p.time);
    MbpsMeaning(t.tx - p.tx, now - p.time);
  }

  /** 125000 bytes received over one second is 1 megabit per second. */
  lemma NetExample(dev: seq<string>)
    requires Totals(Drop(dev, HeaderLines)) == Some(Traffic(125000, 0))
    ensures NetStep(Some(NetSample(0, 0, 0.0)), Some(dev), 1.0).speeds == Some(Speeds(1.0, 0.0))
  {
  }

  /** The network-speed calculator with its module-level state. */
  class NetMeter {
    var previous: Option<NetSample>

    constructor()
      ensures previous == None
    {
      previous := None;
    }

    /** `get_network_speed`. */
    method Read(dev: Option<seq<string>>, now: real) returns (speeds: Option<Speeds>)
      modifies this
      ensures NetOutcome(speeds, previous) == NetStep(old(previous), dev, now)
    {
      if dev.None? {
        return None;
      }
      var total := SumTraffic(Drop(dev.value, HeaderLines));
      if total.None? {
        return None;
      }
      var t := total.value;
      match previous {
        case None =>
          previous := Some(NetSample(t.rx, t.tx, now));
          speeds := Some(Speeds(0.0, 0.0));
        case Some(p) =>
          var elapsed := now - p.time;
          if elapsed == 0.0 {
            return None;
          }
          var download := Mbps(t.rx - p.rx, elapsed);
          var upload := Mbps(t.tx - p.tx, elapsed);
          previous := Some(NetSample(t.rx, t.tx, now));
          speeds := Some(Speeds(download, upload));
      }
    }
  }
}
