/** The in-memory metric history (`data_history` and the second half of
    `collect_data`, app.py). Seventeen list-valued series, one per chart,
    each get exactly one entry per collection tick: the probe's reading,
    or 0 (for the per-core series, a vector of `num_cores` zeros) when the
    probe reported nothing. Three scalar entries sit beside them:
    `gpu_mem_total` and `ram_total`, overwritten only when their reading
    is present, and `num_cores`, set once from the first non-empty
    per-core reading. After the appends every series is cut to its last
    `MAX_POINTS` entries, a sliding window over the most recent ticks. */
module History {
  import opened Wrappers
  import Network

  /** `MAX_POINTS`. */
  const MaxPoints: nat := 60
  /** `/ 1024`: nvidia-smi reports memory in MB, the charts show GB. */
  const MegabytesPerGigabyte: real := 1024.0

  /** The dictionary `get_gpu_stats` returns. */
  datatype GpuStats = GpuStats(temp: real, power: real, util: real, memUtil: real,
                               memUsed: real, memTotal: real, freq: real)

  /** The dictionary `get_ram_usage` returns, in GB. */
  datatype RamUsage = RamUsage(used: real, total: real)

  /** Everything one tick collected: the time label and each probe's
      result, `None` where the probe returned `None`. Fan speeds are
      integers in the source; the series store them as numbers. */
  datatype Tick = Tick(stamp: string, gpu: Option<GpuStats>, cpuTemp: Option<real>,
                       cpuFan: Option<int>, gpuFan: Option<int>, cpuUsage: Option<real>,
                       cpuCores: Option<seq<real>>, cpuFreq: Option<real>,
                       cpuPower: Option<real>, ram: Option<RamUsage>,
                       net: Option<Network.Speeds>)

  /** The contents of `data_history`, one field per dictionary entry. */
  datatype HistoryData = HistoryData(
    timestamps: seq<string>,
    cpuTemp: seq<real>,
    cpuUsage: seq<real>,
    cpuCores: seq<seq<real>>,
    cpuFreq: seq<real>,
    cpuFan: seq<real>,
    gpuFan: seq<real>,
    cpuPower: seq<real>,
    gpuTemp: seq<real>,
    gpuPower: seq<real>,
    gpuUtil: seq<real>,
    gpuMemUtil: seq<real>,
    gpuMemUsed: seq<real>,
    gpuMemTotal: real,
    gpuFreq: seq<real>,
    ramUsed: seq<real>,
    ramTotal: real,
    numCores: nat,
    netDownload: seq<real>,
    netUpload: seq<real>)

  /** The history at start-up: every list empty, every scalar 0. */
  const Empty: HistoryData :=
    HistoryData([], [], [], [], [], [], [], [], [], [], [], [], [], 0.0, [], [], 0.0, 0, [], [])

  /** Every list-valued entry has `n` entries. */
  predicate AllLength(h: HistoryData, n: nat) {
    && |h.timestamps| == n && |h.cpuTemp| == n && |h.cpuUsage| == n && |h.cpuCores| == n
    && |h.cpuFreq| == n && |h.cpuFan| == n && |h.gpuFan| == n && |h.cpuPower| == n
    && |h.gpuTemp| == n && |h.gpuPower| == n && |h.gpuUtil| == n && |h.gpuMemUtil| == n
    && |h.gpuMemUsed| == n && |h.gpuFreq| == n && |h.ramUsed| == n && |h.netDownload| == n
    && |h.netUpload| == n
  }

  /** The alignment invariant, every series as long as the time labels so
      that index `i` of every series belongs to the same tick, and the
      window's bound. */
  predicate WellFormed(h: HistoryData) {
    AllLength(h, |h.timestamps|) && |h.timestamps| <= MaxPoints
  }

  // ------------------------------------------------------------ the window

  /** `xs[-MAX_POINTS:]` when the list is longer than `MAX_POINTS`: the most
      recent entries, oldest first. */
  function Window<T>(xs: seq<T>): (w: seq<T>)
    ensures |w| == if |xs| <= MaxPoints then |xs| else MaxPoints
    ensures w == xs[|xs| - |w|..]
  {
    if |xs| > MaxPoints then xs[|xs| - MaxPoints..] else xs
  }

  /** A full window that receives one more entry loses exactly its oldest. */
  lemma WindowDropsOldest<T>(xs: seq<T>, x: T)
    requires |xs| == MaxPoints
    ensures Window(xs + [x]) == xs[1..] + [x]
  {
  }

  /** Cutting early does not change what is kept: the window over a
      window plus new entries is the window over everything. */
  lemma WindowAbsorbs<T>(xs: seq<T>, ys: seq<T>)
    ensures Window(Window(xs) + ys) == Window(xs + ys)
  {
    var w := Window(xs);
    var a := w + ys;
    var b := xs + ys;
    assert a == b[|xs| - |w|..];
    assert Window(a) == b[|b| - |Window(a)|..];
  }

  /** A window that receives one entry keeps that entry last, and before
      it the most recent entries it already had. */
  lemma WindowAppend<T>(xs: seq<T>, x: T)
    requires |xs| <= MaxPoints
    ensures var w := Window(xs + [x]);
      && |w| == (if |xs| < MaxPoints then |xs| + 1 else MaxPoints)
      && w[|w| - 1] == x
      && w[..|w| - 1] == xs[|xs| + 1 - |w|..]
  {
    var a := xs + [x];
    var w := Window(a);
    assert w[..|w| - 1] == a[|a| - |w|..|a| - 1];
  }

  /** Each series is the sliding window over everything ever recorded in
      it: one that was the window over `past` is, after receiving `x`, the
      window over `past` and `x`. */
  lemma KeepsLatest<T>(xs: seq<T>, past: seq<T>, x: T)
    requires xs == Window(past)
    ensures Window(xs + [x]) == Window(past + [x])
  {
    WindowAbsorbs(past, [x]);
  }

  /** Sixty-one entries `0..60` leave the window `1..60`. */
  lemma WindowExample()
    ensures Window(seq(61, i => i)) == seq(60, i => i + 1)
  {
  }

  function Last<T>(xs: seq<T>): T
    requires xs != []
  {
    xs[|xs| - 1]
  }

  // ----------------------------------------------------------- one tick

  /** `[0] * n`. */
  function Zeros(n: nat): (z: seq<real>)
    ensures |z| == n && forall i | 0 <= i < n :: z[i] == 0.0
  {
    seq(n, i => 0.0)
  }

  /** Python truthiness of the per-core reading: present and non-empty. */
  predicate HasCores(cores: Option<seq<real>>) {
    cores.Some? && cores.value != []
  }

  /** `num_cores` after a tick: the width of the first non-empty per-core
      reading, and never changed again. */
  function LatchCores(numCores: nat, cores: Option<seq<real>>): (n: nat)
    ensures n != numCores ==> numCores == 0 && HasCores(cores) && n == |cores.value|
    ensures numCores == 0 && HasCores(cores) ==> n == |cores.value|
  {
    if HasCores(cores) && numCores == 0 then |cores.value| else numCores
  }

  /** Once set, `num_cores` stays put. */
  lemma LatchIsFinal(numCores: nat, cores: Option<seq<real>>)
    requires numCores != 0
    ensures LatchCores(numCores, cores) == numCores
  {
  }

  /** `gpu_mem_total` after a tick: the new reading in GB, or the old value. */
  function GpuMemGauge(gauge: real, gpu: Option<GpuStats>): (g: real)
    ensures gpu.None? ==> g == gauge
    ensures gpu.Some? ==> g * MegabytesPerGigabyte == gpu.value.memTotal
  {
    if gpu.Some? then gpu.value.memTotal / MegabytesPerGigabyte else gauge
  }

  /** `ram_total` after a tick: the new reading, or the old value. */
  function RamGauge(gauge: real, ram: Option<RamUsage>): (g: real)
    ensures ram.None? ==> g == gauge
    ensures ram.Some? ==> g == ram.value.total
  {
    if ram.Some? then ram.value.total else gauge
  }

  /** The first block of a tick: the time label and the CPU-side readings,
      0 where absent; the per-core entry uses `num_cores` as it stood
      before the tick, because the append precedes the latch. */
  function AppendReadings(h: HistoryData, t: Tick): HistoryData {
    h.(timestamps := h.timestamps + [t.stamp],
       cpuTemp := h.cpuTemp + [t.cpuTemp.GetOr(0.0)],
       cpuUsage := h.cpuUsage + [t.cpuUsage.GetOr(0.0)],
       cpuCores := h.cpuCores + [if HasCores(t.cpuCores) then t.cpuCores.value else Zeros(h.numCores)],
       cpuFreq := h.cpuFreq + [t.cpuFreq.GetOr(0.0)],
       cpuFan := h.cpuFan + [t.cpuFan.GetOr(0) as real],
       gpuFan := h.gpuFan + [t.gpuFan.GetOr(0) as real],
       cpuPower := h.cpuPower + [t.cpuPower.GetOr(0.0)])
  }

  /** The GPU block: six series and the `gpu_mem_total` gauge. */
  function AppendGpu(h: HistoryData, gpu: Option<GpuStats>): HistoryData {
    match gpu
    case Some(g) =>
      h.(gpuTemp := h.gpuTemp + [g.temp],
         gpuPower := h.gpuPower + [g.power],
         gpuUtil := h.gpuUtil + [g.util],
         gpuMemUtil := h.gpuMemUtil + [g.memUtil],
         gpuMemUsed := h.gpuMemUsed + [g.memUsed / MegabytesPerGigabyte],
         gpuMemTotal := GpuMemGauge(h.gpuMemTotal, gpu),
         gpuFreq := h.gpuFreq + [g.freq])
    case None =>
      h.(gpuTemp := h.gpuTemp + [0.0],
         gpuPower := h.gpuPower + [0.0],
         gpuUtil := h.gpuUtil + [0.0],
         gpuMemUtil := h.gpuMemUtil + [0.0],
         gpuMemUsed := h.gpuMemUsed + [0.0],
         gpuFreq := h.gpuFreq + [0.0])
  }

  /** The RAM block: one series and the `ram_total` gauge. */
  function AppendRam(h: HistoryData, ram: Option<RamUsage>): HistoryData {
    h.(ramUsed := h.ramUsed + [if ram.Some? then ram.value.used else 0.0],
       ramTotal := RamGauge(h.ramTotal, ram))
  }

  /** The network block: two series. */
  function AppendNet(h: HistoryData, net: Option<Network.Speeds>): HistoryData {
    h.(netDownload := h.netDownload + [if net.Some? then net.value.download else 0.0],
       netUpload := h.netUpload + [if net.Some? then net.value.upload else 0.0])
  }

  /** The history after a tick's appends, the latch and the gauges, before
      the cut, block by block in the source's order. */
  function Appended(h: HistoryData, t: Tick): HistoryData {
    var r := AppendReadings(h, t);
    var latched := r.(numCores := LatchCores(r.numCores, t.cpuCores));
    AppendNet(AppendRam(AppendGpu(latched, t.gpu), t.ram), t.net)
  }

  /** Every list cut to its window; the scalars untouched. */
  function Trimmed(h: HistoryData): HistoryData {
    h.(timestamps := Window(h.timestamps),
       cpuTemp := Window(h.cpuTemp),
       cpuUsage := Window(h.cpuUsage),
       cpuCores := Window(h.cpuCores),
       cpuFreq := Window(h.cpuFreq),
       cpuFan := Window(h.cpuFan),
       gpuFan := Window(h.gpuFan),
       cpuPower := Window(h.cpuPower),
       gpuTemp := Window(h.gpuTemp),
       gpuPower := Window(h.gpuPower),
       gpuUtil := Window(h.gpuUtil),
       gpuMemUtil := Window(h.gpuMemUtil),
       gpuMemUsed := Window(h.gpuMemUsed),
       gpuFreq := Window(h.gpuFreq),
       ramUsed := Window(h.ramUsed),
       netDownload := Window(h.netDownload),
       netUpload := Window(h.netUpload))
  }

  /** The history after one tick of `collect_data`. */
  function AfterTick(h: HistoryData, t: Tick): HistoryData {
    Trimmed(Appended(h, t))
  }

  /** The length of every series after a tick that found `n` entries in each. */
  function Capped(n: nat): nat {
    if n < MaxPoints then n + 1 else MaxPoints
  }

  /** The appends add exactly one entry to every series, whichever probes
      failed: each branch appends to all of its series in both arms. */
  lemma {:induction false} AppendedLengths(h: HistoryData, t: Tick, n: nat)
    requires AllLength(h, n)
    ensures AllLength(Appended(h, t), n + 1)
  {
    var r := AppendReadings(h, t);
    var g := AppendGpu(r.(numCores := LatchCores(r.numCores, t.cpuCores)), t.gpu);
    assert |g.gpuTemp| == |g.gpuPower| == |g.gpuUtil| == |g.gpuMemUtil| == |g.gpuMemUsed|
        == |g.gpuFreq| == n + 1;
  }

  /** The cut leaves aligned series aligned, at most `MAX_POINTS` long. */
  lemma {:induction false} TrimmedLengths(h: HistoryData, n: nat)
    requires AllLength(h, n)
    ensures AllLength(Trimmed(h), if n <= MaxPoints then n else MaxPoints)
  {
  }

  /** Every tick adds exactly one entry to every series, up to the
      window's bound; so aligned series stay aligned. */
  lemma {:induction false} TickLengths(h: HistoryData, t: Tick, n: nat)
    requires AllLength(h, n) && n <= MaxPoints
    ensures AllLength(AfterTick(h, t), Capped(n))
  {
    AppendedLengths(h, t, n);
    TrimmedLengths(Appended(h, t), n + 1);
  }

  /** The alignment and window invariants survive a tick. */
  lemma {:induction false} TickKeepsWellFormed(h: HistoryData, t: Tick)
    requires WellFormed(h)
    ensures WellFormed(AfterTick(h, t))
  {
    TickLengths(h, t, |h.timestamps|);
  }

  /** The window keeps the newest entry last. */
  lemma LastOfWindow<T>(xs: seq<T>)
    requires xs != []
    ensures Window(xs) != [] && Last(Window(xs)) == Last(xs)
  {
  }

  /** The entries a tick adds to the time labels, the CPU temperature and
      usage series and the per-core series: each probe's reading, or 0 when
      it reported nothing; for the per-core series, `num_cores` zeros (the
      count from before this tick). */
  lemma {:induction false} TickRecordsReadings(h: HistoryData, t: Tick)
    ensures var a := AfterTick(h, t);
      && a.timestamps != [] && Last(a.timestamps) == t.stamp
      && a.cpuTemp != [] && Last(a.cpuTemp) == (if t.cpuTemp.Some? then t.cpuTemp.value else 0.0)
      && a.cpuUsage != [] && Last(a.cpuUsage) == (if t.cpuUsage.Some? then t.cpuUsage.value else 0.0)
      && a.cpuCores != []
      && Last(a.cpuCores) == (if HasCores(t.cpuCores) then t.cpuCores.value else Zeros(h.numCores))
  {
    var r := AppendReadings(h, t);
    var p := Appended(h, t);
    assert p.timestamps == r.timestamps && p.cpuTemp == r.cpuTemp
        && p.cpuUsage == r.cpuUsage && p.cpuCores == r.cpuCores;
    var a := AfterTick(h, t);
    assert a.timestamps == Window(r.timestamps) && a.cpuTemp == Window(r.cpuTemp)
        && a.cpuUsage == Window(r.cpuUsage) && a.cpuCores == Window(r.cpuCores);
    LastOfWindow(r.timestamps);
    LastOfWindow(r.cpuTemp);
    LastOfWindow(r.cpuUsage);
    LastOfWindow(r.cpuCores);
  }

  /** The entries a tick adds to the CPU frequency, fan and power series:
      the reading, or 0 when there is none. */
  lemma {:induction false} TickRecordsCpuRest(h: HistoryData, t: Tick)
    ensures var a := AfterTick(h, t);
      && a.cpuFreq != [] && Last(a.cpuFreq) == (if t.cpuFreq.Some? then t.cpuFreq.value else 0.0)
      && a.cpuFan != [] && Last(a.cpuFan) == (if t.cpuFan.Some? then t.cpuFan.value as real else 0.0)
      && a.gpuFan != [] && Last(a.gpuFan) == (if t.gpuFan.Some? then t.gpuFan.value as real else 0.0)
      && a.cpuPower != [] && Last(a.cpuPower) == (if t.cpuPower.Some? then t.cpuPower.value else 0.0)
  {
    var r := AppendReadings(h, t);
    var p := Appended(h, t);
    assert p.cpuFreq == r.cpuFreq && p.cpuFan == r.cpuFan
        && p.gpuFan == r.gpuFan && p.cpuPower == r.cpuPower;
    var a := AfterTick(h, t);
    assert a.cpuFreq == Window(r.cpuFreq) && a.cpuFan == Window(r.cpuFan)
        && a.gpuFan == Window(r.gpuFan) && a.cpuPower == Window(r.cpuPower);
    LastOfWindow(r.cpuFreq);
    LastOfWindow(r.cpuFan);
    LastOfWindow(r.gpuFan);
    LastOfWindow(r.cpuPower);
  }

  /** The GPU block appends the reading's fields (memory in GB), or 0 in
      all six series when there is no GPU reading. */
  predicate GpuEntries(g: HistoryData, gpu: Option<GpuStats>) {
    && g.gpuTemp != [] && g.gpuPower != [] && g.gpuUtil != [] && g.gpuMemUtil != []
    && g.gpuMemUsed != [] && g.gpuFreq != []
    && (gpu.None? ==>
          Last(g.gpuTemp) == Last(g.gpuPower) == Last(g.gpuUtil) == Last(g.gpuMemUtil)
          == Last(g.gpuMemUsed) == Last(g.gpuFreq) == 0.0)
    && (gpu.Some? ==>
          && Last(g.gpuTemp) == gpu.value.temp && Last(g.gpuPower) == gpu.value.power
          && Last(g.gpuUtil) == gpu.value.util && Last(g.gpuMemUtil) == gpu.value.memUtil
          && Last(g.gpuMemUsed) * MegabytesPerGigabyte == gpu.value.memUsed
          && Last(g.gpuFreq) == gpu.value.freq)
  }

  lemma AppendGpuEntries(h: HistoryData, gpu: Option<GpuStats>)
    ensures GpuEntries(AppendGpu(h, gpu), gpu)
  {
  }

  /** The entries a tick adds to the GPU series: the reading's fields
      (memory in GB), or 0 in all six when there is no GPU reading. */
  lemma {:induction false} TickRecordsGpu(h: HistoryData, t: Tick)
    ensures GpuEntries(AfterTick(h, t), t.gpu)
  {
    var r := AppendReadings(h, t);
    var g := AppendGpu(r.(numCores := LatchCores(r.numCores, t.cpuCores)), t.gpu);
    AppendGpuEntries(r.(numCores := LatchCores(r.numCores, t.cpuCores)), t.gpu);
    var a := AfterTick(h, t);
    assert a.gpuTemp == Window(g.gpuTemp) && a.gpuPower == Window(g.gpuPower)
        && a.gpuUtil == Window(g.gpuUtil) && a.gpuMemUtil == Window(g.gpuMemUtil)
        && a.gpuMemUsed == Window(g.gpuMemUsed) && a.gpuFreq == Window(g.gpuFreq);
    LastOfWindow(g.gpuTemp);
    LastOfWindow(g.gpuPower);
    LastOfWindow(g.gpuUtil);
    LastOfWindow(g.gpuMemUtil);
    LastOfWindow(g.gpuMemUsed);
    LastOfWindow(g.gpuFreq);
  }

  /** The entries a tick adds to the RAM and network series: the reading,
      or 0 when there is none. */
  lemma {:induction false} TickRecordsRamAndNet(h: HistoryData, t: Tick)
    ensures var a := AfterTick(h, t);
      && a.ramUsed != [] && Last(a.ramUsed) == (if t.ram.Some? then t.ram.value.used else 0.0)
      && a.netDownload != [] && Last(a.netDownload) == (if t.net.Some? then t.net.value.download else 0.0)
      && a.netUpload != [] && Last(a.netUpload) == (if t.net.Some? then t.net.value.upload else 0.0)
  {
    var p := Appended(h, t);
    var a := AfterTick(h, t);
    assert a.ramUsed == Window(p.ramUsed) && a.netDownload == Window(p.netDownload)
        && a.netUpload == Window(p.netUpload);
    LastOfWindow(p.ramUsed);
    LastOfWindow(p.netDownload);
    LastOfWindow(p.netUpload);
  }

  /** After a tick a series of `n` entries has `min(n + 1, MAX_POINTS)`
      entries, and all but the newest are the most recent entries it had:
      the older entries are kept in order, and a full series loses exactly
      its oldest entry. */
  ghost predicate Slid<T>(before: seq<T>, after: seq<T>) {
    && |before| <= MaxPoints
    && |after| == Capped(|before|)
    && after[..|after| - 1] == before[|before| + 1 - |after|..]
  }

  /** `ys` is `xs` with one entry appended. */
  ghost predicate Extends<T>(xs: seq<T>, ys: seq<T>) {
    |ys| == |xs| + 1 && ys[..|xs|] == xs
  }

  lemma WindowSlides<T>(xs: seq<T>, ys: seq<T>)
    requires |xs| <= MaxPoints && Extends(xs, ys)
    ensures Slid(xs, Window(ys))
  {
    assert ys == xs + [ys[|xs|]];
    WindowAppend(xs, ys[|xs|]);
  }

  lemma AppendGpuExtends(h: HistoryData, gpu: Option<GpuStats>)
    ensures var g := AppendGpu(h, gpu);
      && Extends(h.gpuTemp, g.gpuTemp) && Extends(h.gpuPower, g.gpuPower)
      && Extends(h.gpuUtil, g.gpuUtil) && Extends(h.gpuMemUtil, g.gpuMemUtil)
      && Extends(h.gpuMemUsed, g.gpuMemUsed) && Extends(h.gpuFreq, g.gpuFreq)
  {
  }

  /** The time labels and the CPU-side series slide by one entry per tick. */
  lemma {:induction false} TickSlidesCpu(h: HistoryData, t: Tick)
    requires WellFormed(h)
    ensures var a := AfterTick(h, t);
      && Slid(h.timestamps, a.timestamps)
      && Slid(h.cpuTemp, a.cpuTemp)
      && Slid(h.cpuUsage, a.cpuUsage)
      && Slid(h.cpuCores, a.cpuCores)
      && Slid(h.cpuFreq, a.cpuFreq)
      && Slid(h.cpuFan, a.cpuFan)
      && Slid(h.gpuFan, a.gpuFan)
      && Slid(h.cpuPower, a.cpuPower)
  {
    var p := AppendReadings(h, t);
    assert Appended(h, t).timestamps == p.timestamps && Appended(h, t).cpuTemp == p.cpuTemp
        && Appended(h, t).cpuUsage == p.cpuUsage && Appended(h, t).cpuCores == p.cpuCores
        && Appended(h, t).cpuFreq == p.cpuFreq && Appended(h, t).cpuFan == p.cpuFan
        && Appended(h, t).gpuFan == p.gpuFan && Appended(h, t).cpuPower == p.cpuPower;
    var a := AfterTick(h, t);
    assert a.timestamps == Window(p.timestamps)
        && a.cpuTemp == Window(p.cpuTemp)
        && a.cpuUsage == Window(p.cpuUsage)
        && a.cpuCores == Window(p.cpuCores)
        && a.cpuFreq == Window(p.cpuFreq)
        && a.cpuFan == Window(p.cpuFan)
        && a.gpuFan == Window(p.gpuFan)
        && a.cpuPower == Window(p.cpuPower);
    WindowSlides(h.timestamps, p.timestamps);
    WindowSlides(h.cpuTemp, p.cpuTemp);
    WindowSlides(h.cpuUsage, p.cpuUsage);
    WindowSlides(h.cpuCores, p.cpuCores);
    WindowSlides(h.cpuFreq, p.cpuFreq);
    WindowSlides(h.cpuFan, p.cpuFan);
    WindowSlides(h.gpuFan, p.gpuFan);
    WindowSlides(h.cpuPower, p.cpuPower);
  }

  /** The GPU series slide by one entry per tick. */
  lemma {:induction false} TickSlidesGpu(h: HistoryData, t: Tick)
    requires WellFormed(h)
    ensures var a := AfterTick(h, t);
      && Slid(h.gpuTemp, a.gpuTemp)
      && Slid(h.gpuPower, a.gpuPower)
      && Slid(h.gpuUtil, a.gpuUtil)
      && Slid(h.gpuMemUtil, a.gpuMemUtil)
      && Slid(h.gpuMemUsed, a.gpuMemUsed)
      && Slid(h.gpuFreq, a.gpuFreq)
  {
    var r := AppendReadings(h, t);
    var l := r.(numCores := LatchCores(r.numCores, t.cpuCores));
    var p := AppendGpu(l, t.gpu);
    assert l.gpuTemp == h.gpuTemp && l.gpuPower == h.gpuPower && l.gpuUtil == h.gpuUtil
        && l.gpuMemUtil == h.gpuMemUtil && l.gpuMemUsed == h.gpuMemUsed && l.gpuFreq == h.gpuFreq;
    AppendGpuExtends(l, t.gpu);
    var a := AfterTick(h, t);
    assert a.gpuTemp == Window(p.gpuTemp)
        && a.gpuPower == Window(p.gpuPower)
        && a.gpuUtil == Window(p.gpuUtil)
        && a.gpuMemUtil == Window(p.gpuMemUtil)
        && a.gpuMemUsed == Window(p.gpuMemUsed)
        && a.gpuFreq == Window(p.gpuFreq);
    WindowSlides(h.gpuTemp, p.gpuTemp);
    WindowSlides(h.gpuPower, p.gpuPower);
    WindowSlides(h.gpuUtil, p.gpuUtil);
    WindowSlides(h.gpuMemUtil, p.gpuMemUtil);
    WindowSlides(h.gpuMemUsed, p.gpuMemUsed);
    WindowSlides(h.gpuFreq, p.gpuFreq);
  }

  /** The RAM and network series slide by one entry per tick. */
  lemma {:induction false} TickSlidesRamAndNet(h: HistoryData, t: Tick)
    requires WellFormed(h)
    ensures var a := AfterTick(h, t);
      && Slid(h.ramUsed, a.ramUsed)
      && Slid(h.netDownload, a.netDownload)
      && Slid(h.netUpload, a.netUpload)
  {
    var p := Appended(h, t);
    var a := AfterTick(h, t);
    assert a.ramUsed == Window(p.ramUsed)
        && a.netDownload == Window(p.netDownload)
        && a.netUpload == Window(p.netUpload);
    WindowSlides(h.ramUsed, p.ramUsed);
    WindowSlides(h.netDownload, p.netDownload);
    WindowSlides(h.netUpload, p.netUpload);
  }

  /** Every series of the store slides by one entry per tick: its older
      entries are kept in order, and once it holds `MAX_POINTS` entries
      the oldest one is dropped. */
  lemma TickSlides(h: HistoryData, t: Tick)
    requires WellFormed(h)
    ensures var a := AfterTick(h, t);
      && Slid(h.timestamps, a.timestamps)
      && Slid(h.cpuTemp, a.cpuTemp)
      && Slid(h.cpuUsage, a.cpuUsage)
      && Slid(h.cpuCores, a.cpuCores)
      && Slid(h.cpuFreq, a.cpuFreq)
      && Slid(h.cpuFan, a.cpuFan)
      && Slid(h.gpuFan, a.gpuFan)
      && Slid(h.cpuPower, a.cpuPower)
      && Slid(h.gpuTemp, a.gpuTemp)
      && Slid(h.gpuPower, a.gpuPower)
      && Slid(h.gpuUtil, a.gpuUtil)
      && Slid(h.gpuMemUtil, a.gpuMemUtil)
      && Slid(h.gpuMemUsed, a.gpuMemUsed)
      && Slid(h.gpuFreq, a.gpuFreq)
      && Slid(h.ramUsed, a.ramUsed)
      && Slid(h.netDownload, a.netDownload)
      && Slid(h.netUpload, a.netUpload)
  {
    TickSlidesCpu(h, t);
    TickSlidesGpu(h, t);
    TickSlidesRamAndNet(h, t);
  }

  /** A full series receiving `x` becomes its entries but the oldest,
      followed by `x`. */
  lemma SlidFull<T>(before: seq<T>, after: seq<T>)
    requires Slid(before, after) && |before| == MaxPoints
    ensures after == before[1..] + [after[|after| - 1]]
  {
  }

  /** The scalar entries after a tick: `num_cores` is latched, the gauges
      move only when their reading is present. */
  lemma TickScalars(h: HistoryData, t: Tick)
    ensures var a := AfterTick(h, t);
      && a.numCores == LatchCores(h.numCores, t.cpuCores)
      && (t.gpu.None? ==> a.gpuMemTotal == h.gpuMemTotal)
      && (t.gpu.Some? ==> a.gpuMemTotal * MegabytesPerGigabyte == t.gpu.value.memTotal)
      && (t.ram.None? ==> a.ramTotal == h.ramTotal)
      && (t.ram.Some? ==> a.ramTotal == t.ram.value.total)
  {
  }

  /** Before any per-core reading has succeeded, a failed one appends an
      empty vector, not a vector of the width later readings have. */
  lemma EarlyCoreFailureIsEmpty(h: HistoryData, t: Tick)
    requires h.numCores == 0 && !HasCores(t.cpuCores)
    ensures AfterTick(h, t).cpuCores != [] && Last(AfterTick(h, t).cpuCores) == []
  {
    TickRecordsReadings(h, t);
  }

  /** The store: `data_history`, a dictionary updated in place. */
  class HistoryStore {
    var data: HistoryData

    predicate Valid()
      reads this
    {
      WellFormed(data)
    }

    /** The empty history of app.py's module initialisation. */
    constructor()
      ensures Valid() && data == Empty
    {
      data := Empty;
    }

    /** The `for key in data_history` loop, one list per assignment: every
        list longer than `MAX_POINTS` is replaced by its last `MAX_POINTS`
        entries; the scalar entries fail its `isinstance` test. */
    method Trim()
      modifies this
      ensures data == Trimmed(old(data))
    {
      data := data.(timestamps := Window(data.timestamps));
      data := data.(cpuTemp := Window(data.cpuTemp));
      data := data.(cpuUsage := Window(data.cpuUsage));
      data := data.(cpuCores := Window(data.cpuCores));
      data := data.(cpuFreq := Window(data.cpuFreq));
      data := data.(cpuFan := Window(data.cpuFan));
      data := data.(gpuFan := Window(data.gpuFan));
      data := data.(cpuPower := Window(data.cpuPower));
      data := data.(gpuTemp := Window(data.gpuTemp));
      data := data.(gpuPower := Window(data.gpuPower));
      data := data.(gpuUtil := Window(data.gpuUtil));
      data := data.(gpuMemUtil := Window(data.gpuMemUtil));
      data := data.(gpuMemUsed := Window(data.gpuMemUsed));
      data := data.(gpuFreq := Window(data.gpuFreq));
      data := data.(ramUsed := Window(data.ramUsed));
      data := data.(netDownload := Window(data.netDownload));
      data := data.(netUpload := Window(data.netUpload));
    }

    /** The first block of appends. */
    method PushReadings(t: Tick)
      modifies this
      ensures data == AppendReadings(old(data), t)
    {
      data := data.(timestamps := data.timestamps + [t.stamp]);
      data := data.(cpuTemp := data.cpuTemp + [t.cpuTemp.GetOr(0.0)]);
      data := data.(cpuUsage := data.cpuUsage + [t.cpuUsage.GetOr(0.0)]);
      data := data.(cpuCores := data.cpuCores
                      + [if HasCores(t.cpuCores) then t.cpuCores.value else Zeros(data.numCores)]);
      data := data.(cpuFreq := data.cpuFreq + [t.cpuFreq.GetOr(0.0)]);
      data := data.(cpuFan := data.cpuFan + [t.cpuFan.GetOr(0) as real]);
      data := data.(gpuFan := data.gpuFan + [t.gpuFan.GetOr(0) as real]);
      data := data.(cpuPower := data.cpuPower + [t.cpuPower.GetOr(0.0)]);
    }

    /** The `if gpu:` block. */
    method PushGpu(gpu: Option<GpuStats>)
      modifies this
      ensures data == AppendGpu(old(data), gpu)
    {
      if gpu.Some? {
        var g := gpu.value;
        data := data.(gpuTemp := data.gpuTemp + [g.temp]);
        data := data.(gpuPower := data.gpuPower + [g.power]);
        data := data.(gpuUtil := data.gpuUtil + [g.util]);
        data := data.(gpuMemUtil := data.gpuMemUtil + [g.memUtil]);
        data := data.(gpuMemUsed := data.gpuMemUsed + [g.memUsed / MegabytesPerGigabyte]);
        data := data.(gpuMemTotal := g.memTotal / MegabytesPerGigabyte);
        data := data.(gpuFreq := data.gpuFreq + [g.freq]);
      } else {
        data := data.(gpuTemp := data.gpuTemp + [0.0]);
        data := data.(gpuPower := data.gpuPower + [0.0]);
        data := data.(gpuUtil := data.gpuUtil + [0.0]);
        data := data.(gpuMemUtil := data.gpuMemUtil + [0.0]);
        data := data.(gpuMemUsed := data.gpuMemUsed + [0.0]);
        data := data.(gpuFreq := data.gpuFreq + [0.0]);
      }
    }

    /** The `if ram:` and `if net:` blocks. */
    method PushRamAndNet(ram: Option<RamUsage>, net: Option<Network.Speeds>)
      modifies this
      ensures data == AppendNet(AppendRam(old(data), ram), net)
    {
      if ram.Some? {
        data := data.(ramUsed := data.ramUsed + [ram.value.used]);
        data := data.(ramTotal := ram.value.total);
      } else {
        data := data.(ramUsed := data.ramUsed + [0.0]);
      }
      if net.Some? {
        data := data.(netDownload := data.netDownload + [net.value.download]);
        data := data.(netUpload := data.netUpload + [net.value.upload]);
      } else {
        data := data.(netDownload := data.netDownload + [0.0]);
        data := data.(netUpload := data.netUpload + [0.0]);
      }
    }

    /** One tick of `collect_data` after the probes have run. */
    method AppendTick(t: Tick)
      requires Valid()
      modifies this
      ensures Valid()
      ensures data == AfterTick(old(data), t)
    {
      TickKeepsWellFormed(data, t);
      PushReadings(t);
      if HasCores(t.cpuCores) && data.numCores == 0 {
        data := data.(numCores := |t.cpuCores.value|);
      }
      PushGpu(t.gpu);
      PushRamAndNet(t.ram, t.net);
      Trim();
    }
  }
}
