# System monitor dashboard: metrics engine in Dafny

This project models the in-memory metrics engine of the system monitor
dashboard, `app.py`. A background loop runs a collection tick, then sleeps
one second, forever (app.py:312, and app.py:315 after an error); the tick
itself takes time too (`mpstat` alone samples for a second), so ticks are
more than a second apart and the 60-entry window spans more than a minute.
Each tick probes the host and appends one entry per chart to the history
`data_history`, which the web page reads. The model covers four parts of
that engine:

- **History store** (`history.dfy`, module `History`). The class
  `HistoryStore` holds `data_history`: seventeen list-valued series, the
  gauges `gpu_mem_total` and `ram_total`, and the latched core count
  `num_cores`. Its method `AppendTick` is the second half of
  `collect_data`. It is proved equal to the specification function
  `AfterTick`, and it keeps the alignment and window invariant
  (`WellFormed`). Lemmas about `AfterTick` state what a tick adds to each
  series: the reading, or 0 when the probe failed. They also cover the
  `num_cores` latch, the gauges, and the sliding window of `MAX_POINTS` = 60.
- **Power from the RAPL energy counter** (`power.dfy`, module `Power`).
  `PowerMeter.Read` is `get_cpu_power` with its `previous_energy` and
  `previous_time` state. It is proved equal to the step function
  `PowerStep`. The lemmas cover the first reading, wrap-around correction,
  the failure cases, and the fact that the state changes only on success.
- **Network throughput from `/proc/net/dev`** (`network.dfy`, module
  `Network`). `SumTraffic` is the summing loop and `NetMeter.Read` is
  `get_network_speed`. They are proved against the specification functions
  `Totals` and `NetStep`. Lemmas cover which lines count, the loopback
  interface, malformed lines, and the uncorrected deltas.
- **Per-core usage from `mpstat`** (`cores.dfy`, module `CpuCores`).
  `ReadCores` is the line filter of `get_cpu_cores`. It is proved equal to
  `CoreReading`, and lemmas connect every reported usage to a per-core row
  and back.

`text.dfy` (module `Text`) models the Python string operations these parts
rely on: `str.strip`, `str.split(sep)`, `str.split()`, `str.startswith`,
and `str.isdigit` and `int()` on ASCII base-10 text. `int()` skips its own
set of surrounding whitespace, which lacks the four ASCII information
separators that `str.strip` removes. `wrappers.dfy` holds `Option`.

Every external input is a parameter:

- Command output and file contents are `Option<string>`, or the file's
  lines. `None` stands for a failed command or an unreadable file.
- The clock is a `real`, and the time label is an opaque string.
- Python's `float()` is a parameter `string -> Option<real>`.

A probe that raises inside its `try` is modelled by the function returning
`None`.

Behaviour of the code worth noting:

- The power calculator stores the new reading only when the whole
  computation succeeded (app.py:177-178 come after the division at 175).
  A failed range read or a zero interval therefore leaves the previous
  reading in place.
- Neither calculator guards against a tiny elapsed time. A zero interval
  raises, which yields `None` and leaves the state as it was.
- `data_history` has no lock. `AppendTick` is a sequence of in-place
  updates, and nothing here claims that readers see it atomically.
- A failed per-core read appends `num_cores` zeros, with `num_cores` taken
  as it stood before the latch. Before the first successful read, that is
  an empty vector, not a vector as wide as the previous reading
  (`EarlyCoreFailureIsEmpty`). A later reading of a different width is
  appended as it is.

## Model

| member | source | states |
|---|---|---|
| History.HistoryStore.constructor | app.py:12-34 | the history starts with every list empty and every scalar 0, and satisfies the alignment invariant |
| History.HistoryStore.AppendTick | app.py:264-310 | one tick keeps the store aligned and within the window, and leaves exactly `AfterTick` of the old contents |
| History.HistoryStore.PushReadings | app.py:265-272 | the first block appends the time label and each CPU-side reading, 0 when absent, and `num_cores` zeros for a failed per-core read |
| History.HistoryStore.PushGpu | app.py:278-292 | the GPU block appends to all six GPU series in both arms and sets `gpu_mem_total` only when there is a reading |
| History.HistoryStore.PushRamAndNet | app.py:294-305 | the RAM and network blocks append to their series in both arms and set `ram_total` only when there is a reading |
| History.HistoryStore.Trim | app.py:307-310 | every list is replaced by its window and the scalars are untouched |
| History.Window | app.py:309-310 | the window is the last `min(len, 60)` entries of the list |
| History.WindowDropsOldest | app.py:307-310 | a full window that receives one entry loses exactly its oldest entry |
| History.WindowExample | app.py:307-310 | 61 entries `0..60` leave the window `1..60` |
| History.WindowAbsorbs | app.py:307-310 | cutting after each tick keeps the same entries as cutting once over the whole history |
| History.WindowAppend | app.py:307-310 | after an append the new entry is last, preceded by the most recent older entries |
| History.TickSlides | app.py:264-310 | in every one of the seventeen series a tick keeps the newest older entries in order, right before the new one, and drops only what falls out of the window |
| History.SlidFull | app.py:307-310 | once a series is full, a tick drops exactly its oldest entry and appends one |
| History.KeepsLatest | app.py:307-310 | each series stays the window over everything ever recorded in it |
| History.Zeros | app.py:268 | `[0] * n` has length `n` and only zeros |
| History.LatchCores | app.py:274-276 | `num_cores` changes only from 0, and only on a non-empty per-core reading, and then becomes that reading's length |
| History.LatchIsFinal | app.py:274-276 | once non-zero, `num_cores` never changes |
| History.GpuMemGauge | app.py:283-284 | `gpu_mem_total` is the MB reading divided by 1024 when present, else unchanged |
| History.RamGauge | app.py:294-298 | `ram_total` is the reading when present, else unchanged |
| History.AppendedLengths | app.py:265-305 | the appends add exactly one entry to every list series, whichever probes failed |
| History.TrimmedLengths | app.py:307-310 | the cut keeps equal-length series equal and at most 60 long |
| History.TickLengths | app.py:264-310 | a tick takes every series from length `n` to `min(n + 1, 60)` |
| History.TickKeepsWellFormed | app.py:264-310 | the alignment invariant and the bound of 60 survive every tick |
| History.TickRecordsReadings | app.py:265-268 | the newest time label, CPU temperature, CPU usage and per-core entries are the readings, or 0 or `num_cores` zeros when absent |
| History.TickRecordsCpuRest | app.py:269-272 | the newest CPU frequency, fan, GPU fan and CPU power entries are the readings, or 0 when absent |
| History.TickRecordsGpu | app.py:278-292 | the newest GPU entries are the reading's fields with memory in GB, or 0 in all six without a reading |
| History.TickRecordsRamAndNet | app.py:294-305 | the newest RAM and network entries are the readings, or 0 when absent |
| History.TickScalars | app.py:274-298 | after a tick `num_cores` is latched and each gauge moves only when its reading is present |
| History.EarlyCoreFailureIsEmpty | app.py:268 | a failed per-core read before the latch appends an empty vector |
| Power.CounterFileReads | app.py:158-159 | a counter file holding a decimal value and a newline reads back as that value |
| Power.EnergyDelta | app.py:165-172 | the delta is missing exactly when the counter went down and its range cannot be read |
| Power.WrapRecovered | app.py:168-172 | for a counter modulo its range that advanced less than one range, the corrected delta is exactly the energy used |
| Power.RangeOnlyOnWrap | app.py:169-172 | when the counter did not go down, the delta is the plain difference and the range is never used |
| Power.WattsMeaning | app.py:175 | the power times the interval is the energy in joules, with the energy's sign over a positive interval |
| Power.PowerFirstReading | app.py:180-184 | the first successful reading returns 0 and stores the reading and its time |
| Power.PowerStep | app.py:156-187 | a failed call leaves the state unchanged, and a successful one stores the current reading and time |
| Power.ReadCounter | app.py:158-159 | an unreadable file reads as nothing, and text without information separators reads as `int()` reads it, the explicit `strip()` changing nothing |
| Power.PowerFailure | app.py:156-187 | a call fails exactly when the counter is unreadable, or when no time elapsed or an unreadable range meets a counter that went down |
| Power.PowerRate | app.py:163-179 | a later reading reports the (wrap-corrected) energy used divided by the elapsed time |
| Power.PowerExamples | app.py:163-179 | 500 µJ over 1 s is 0.0005 W, and 900 to 100 with range 1000 is 200 µJ |
| Power.PowerMeter.constructor | app.py:37-38 | no previous reading at start-up |
| Power.PowerMeter.Read | app.py:153-187 | one call returns and stores exactly what `PowerStep` gives for the counter, the clock and the range file |
| Network.Drop | app.py:213 | `readlines()[2:]` is the lines after the first two, or none, and the dropped lines are exactly the ones before it |
| Network.SumTraffic | app.py:212-223 | the loop's totals are `Totals` of the lines, or `None` when a line is malformed |
| Network.TotalsAppend | app.py:214-223 | summing over two blocks of lines adds the blocks' totals |
| Network.TallyFail | app.py:221-223 | the tally fails exactly when some line is malformed |
| Network.TotalsFail | app.py:214-223 | reading the totals fails exactly when some interface line lacks field 0 or 8 as an integer |
| Network.SkippedLineIgnored | app.py:215-220 | lines without a colon and the loopback line change nothing, wherever they stand |
| Network.LoopbackSkipped | app.py:217-220 | the `lo` interface is never counted |
| Network.SkippedExactly | app.py:215-220 | a line is skipped exactly when it has no colon or its stripped interface name is `lo` |
| Network.MalformedExactly | app.py:215-223 | a line makes the read fail exactly when it names another interface and lacks field 8 or has a field 0 or 8 that `int()` rejects |
| Network.InterfaceLineCounted | app.py:215-223 | every other interface line whose fields 0 and 8 are integers is counted with exactly those values |
| Network.CountedLineAdds | app.py:221-223 | a counted line adds its received and transmitted bytes to the totals of the lines before it |
| Network.CountedFields | app.py:221-223 | a counted line contributes its field 0 as received bytes and field 8 as transmitted bytes |
| Network.MbpsMeaning | app.py:230-232 | the rate times the interval is the byte delta in megabits, with the delta's sign over a positive interval |
| Network.NetFirstCall | app.py:237-241 | the first successful call returns 0/0 and stores the totals and time |
| Network.NetFailure | app.py:207-244 | a call fails exactly when the file is unreadable, a line is malformed, or no time elapsed since the previous reading |
| Network.NetStep | app.py:207-244 | a failed call leaves the state unchanged, and a successful one stores the new totals and time |
| Network.NetDeltasUncorrected | app.py:225-236 | later calls report the uncorrected deltas, negative exactly when a counter went down |
| Network.NetExample | app.py:225-236 | 125000 bytes received over 1 s is 1 Mbps |
| Network.NetMeter.constructor | app.py:40-42 | no previous totals at start-up |
| Network.NetMeter.Read | app.py:203-244 | one call returns and stores exactly what `NetStep` gives for the file and the clock |
| CpuCores.CoreReading | app.py:119-139 | a failed command gives no result, and a present result is never empty |
| CpuCores.CoreRowShape | app.py:125-128 | whatever its spacing, a line is a per-core row exactly when it has at least twelve fields, the first starting with `Average:` and the second (the CPU id) all digits, which excludes the interval rows, the `CPU` header and `all` |
| CpuCores.ReadCores | app.py:121-136 | the loop collects exactly `CoreReading`, and a present result is never empty |
| CpuCores.LineUsageRow | app.py:125-135 | a line contributes exactly when it is a per-core row with a readable idle field, and then it contributes 100 minus idle |
| CpuCores.ReportedUsageHasRow | app.py:123-136 | every reported usage is 100 minus the idle field of some per-core row of the output |
| CpuCores.RowIsReported | app.py:123-136 | every per-core row with a readable idle field is reported |
| CpuCores.ReportedRowsInOrder | app.py:121-139 | the result holds one usage per contributing line, in line order: the accepted line numbers, increasing, paired with the usages one to one, and every contributing line among them |
| CpuCores.CoreReadingAbsent | app.py:119-139 | the result is absent exactly when the command failed or no line contributed |
| CpuCores.CollectEmpty | app.py:136 | nothing is collected exactly when every line is rejected |
| CpuCores.CollectAppend | app.py:123-135 | collecting over two blocks of lines is collecting over each, in order |
| CpuCores.CollectOne | app.py:129-135 | one line contributes its value once, or nothing when rejected |
| CpuCores.CollectIndices | app.py:123-135 | the collected values are, one each and in order, the values of exactly the accepted elements, at increasing positions |
| Text.Strip | app.py:125 | `strip()` leaves no whitespace at either end |
| Text.StripKeepsText | app.py:125 | `strip()` removes only whitespace |
| Text.StripIsPiece | app.py:125 | `strip()` keeps one contiguous piece of the text, with only whitespace before and after it |
| Text.StripStartsAsFirstField | app.py:125-126 | for a prefix without whitespace, the stripped line starts with it exactly when the line's first field does |
| Text.Split | app.py:121 | `split(sep)` gives one more piece than there are separators, and no piece holds the separator |
| Text.SplitThenJoin | app.py:121 | joining the pieces of `split(sep)` gives back the text |
| Text.JoinThenSplit | app.py:216 | splitting joined separator-free pieces gives back the pieces |
| Text.Fields | app.py:126 | `split()` gives non-empty pieces without whitespace |
| Text.FieldsKeepText | app.py:126 | `split()` keeps every non-whitespace character, in order |
| Text.FieldsOfWord | app.py:126 | a text without whitespace is its own only field |
| Text.FieldsAtSpace | app.py:126 | `split()` cuts at every whitespace character: the fields around one are the fields of each side |
| Text.FieldsOfJoin | app.py:126 | `split()` undoes `' '.join` of words without whitespace |
| Text.ParseDecimal | app.py:159 | `int()` reads back the decimal text of a natural number |
| Text.ParseNegativeDecimal | app.py:222 | `int()` reads back a minus sign followed by a decimal numeral |
| Text.IntStrip | app.py:159 | what `int()` reads after skipping whitespace starts and ends with neither TAB–CR, SPACE nor non-ASCII whitespace |
| Text.ParseIntPadding | app.py:159 | `int()` ignores the whitespace it skips, so removing that first changes nothing |
| Text.StripBeforeParse | app.py:159 | on text without information separators, `int(s.strip())` is `int(s)` |
| Text.SeparatorStripped | app.py:159 | an information separator at the edge is removed by `strip()` but rejected by `int()`: `int("\x1c5")` fails where `int("\x1c5".strip())` is 5 |
| Text.ParseIntAccepts | app.py:222-223 | `int()` accepts surrounding whitespace, a sign and single underscores between digits |
| Text.ParseIntRejects | app.py:222-223 | `int()` rejects the empty text, inner whitespace, a leading or doubled underscore and a lone sign |

## Left out

- Subprocess calls, file reads of `/proc` and `/sys`, and their timeouts are I/O. Their results are `Option` parameters.
- `get_gpu_stats`, `get_cpu_temp`, `get_cpu_fan`, `get_gpu_fan`, `get_cpu_usage`, `get_cpu_freq` and `get_ram_usage` are not modelled as parsers. They are thin wrappers over regular expressions, CSV fields and `float()`, and their results enter a tick as `Option` values.
- `float()` is a parameter of `CpuCores`; no floating-point parsing or rounding (`round(usage, 2)`) is modelled, and reals are exact.
- Python's `int()` is modelled for ASCII base-10 text only; other Unicode digits are not.
- Text.ParseInt: does not model the interpreter's limit on integer-string conversion (`sys.int_info.default_max_str_digits`, 4300 digits, in CPython 3.11 and the 3.7-3.10 security releases), so a numeral of more than 4300 digits parses here while `int()` raises `ValueError` (and `get_cpu_power` or `get_network_speed` would then return `None`, where `PowerStep` and `NetStep` report a rate). The counters read at app.py:159, 171 and 222-223 are 64-bit kernel values of at most 20 digits, far below the limit.
- Text.ParseDecimal: the round trip `int(str(n)) == n` is proved for every natural `n`; in CPython it holds only for `n` below 10^4300, where `str()` and `int()` stop converting.
- Power.CounterFileReads: likewise holds in CPython only for counter values of at most 4300 digits; kernel counters have at most 20.
- Power.ReadCounter: promises `int(text.strip()) == int(text)` only for text without the ASCII information separators (28 to 31). `strip()` removes those and `int()` rejects them, so with one at an edge the two differ (`Text.SeparatorStripped`).
- Text.ParseIntPadding: states that removing `int()`'s own whitespace first changes nothing, not that `strip()` first changes nothing; the latter fails for the information separators, as above.
- Text.IsDigits: accepts the ASCII digits only. Python's `str.isdigit` also accepts other Unicode digits (such as `²` or `٣`), so an `mpstat` row whose CPU id used them would be counted by app.py:128 but not by the model; `mpstat` writes CPU ids in ASCII.
- `time.time()`, `time.strftime`, `time.sleep`, the `while True` loop and its outer `except` are left out. One tick is modelled, the clock is a parameter and the time label is an opaque string.
- The Flask routes, `render_template`, `jsonify` and the daemon thread are HTTP and concurrency. There is no lock in the code, and no snapshot atomicity is claimed.
- The wiring of the probes into a tick is left out: it is a sequence of calls whose results become the fields of `Tick`.
- The diagnostic `print` calls are left out.
- History.HistoryStore.Trim: the `for key in data_history` loop is written out as one statement per list series, in dictionary order. The scalar entries fail the loop's `isinstance` test and are left alone.
- Python truthiness replaces a present reading of 0 by 0. The model appends the reading, which is the same value.
