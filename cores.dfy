/** Per-core CPU usage from the summary rows of `mpstat -P ALL 1 1`
    (`get_cpu_cores`, app.py). A row counts when, once stripped, it starts
    with `Average:`, it has at least twelve whitespace-separated fields and
    its second field (the CPU id) is all digits, which leaves out the
    `all` row and the column header. Its usage is 100 minus its last field
    (the idle percentage). */
module CpuCores {
  import opened Wrappers
  import opened Text

  const AveragePrefix: string := "Average:"
  /** A per-core row of mpstat has at least this many fields. */
  const MinFields: nat := 12

  /** Whether one output line is a per-core summary row. */
  predicate IsCoreRow(line: string) {
    StartsWith(Strip(line), AveragePrefix)
    && var parts := Fields(line);
    |parts| >= MinFields && IsDigits(parts[1])
  }

  /** The idle column of a row: its last field. */
  function IdleField(line: string): string
    requires IsCoreRow(line)
  {
    var parts := Fields(line);
    parts[|parts| - 1]
  }

  /** The usage one line contributes; `None` for a line that is not a
      per-core row or whose idle field `parseFloat` rejects (the source's
      `except ValueError: continue`). */
  function LineUsage(line: string, parseFloat: string -> Option<real>): Option<real> {
    if IsCoreRow(line) then
      match parseFloat(IdleField(line))
      case Some(idle) => Some(100.0 - idle)
      case None => None
    else None
  }

  /** `LineUsage` with the float parser fixed, as the loop applies it. */
  function UsageOf(parseFloat: string -> Option<real>): string -> Option<real> {
    line => LineUsage(line, parseFloat)
  }

  /** The values `f` gives for the elements of `xs` that it does not
      reject, in order: the shape of the source's accumulating loop. */
  function Collect<T, U>(xs: seq<T>, f: T -> Option<U>): seq<U> {
    if xs == [] then []
    else
      var prior := Collect(xs[..|xs| - 1], f);
      match f(xs[|xs| - 1])
      case Some(u) => prior + [u]
      case None => prior
  }

  /** Whatever its spacing, a line is a per-core row exactly when it has
      at least twelve fields, its first field starts with `Average:` and
      its second (the CPU id) is all digits. So the rows of the
      per-interval block (first field a clock time), the summary block's
      column header (CPU id `CPU`) and its `all` row are not. */
  lemma CoreRowShape(line: string)
    ensures IsCoreRow(line) <==>
      var fs := Fields(line);
      |fs| >= MinFields && StartsWith(fs[0], AveragePrefix) && IsDigits(fs[1])
  {
    assert NoSpace(AveragePrefix);
    StripStartsAsFirstField(line, AveragePrefix);
  }

  /** What `get_cpu_cores` returns for the command's standard output
      (`None` for a failed or timed-out command): the usages, or `None`
      when no row contributed. */
  function CoreReading(stdout: Option<string>, parseFloat: string -> Option<real>): (r: Option<seq<real>>)
    ensures stdout.None? ==> r.None?
    ensures r.Some? ==> r.value != []
  {
    match stdout
    case None => None
    case Some(out) =>
      var usages := Collect(Split(out, '\n'), UsageOf(parseFloat));
      if usages == [] then None else Some(usages)
  }

  /** `get_cpu_cores`: walks the output lines and collects one usage per
      per-core row. */
  method ReadCores(stdout: Option<string>, parseFloat: string -> Option<real>)
    returns (usage: Option<seq<real>>)
    ensures usage == CoreReading(stdout, parseFloat)
    ensures usage.Some? ==> usage.value != []
  {
    if stdout.None? {
      return None;
    }
    var lines := Split(stdout.value, '\n');
    ghost var usageOf := UsageOf(parseFloat);
    var coreUsage: seq<real> := [];
    var i := 0;
    while i < |lines|
      invariant 0 <= i <= |lines|
      invariant coreUsage == Collect(lines[..i], usageOf)
    {
      var line := lines[i];
      assert lines[..i + 1][..i] == lines[..i];
      var u := LineUsage(line, parseFloat);
      if u.Some? {
        coreUsage := coreUsage + [u.value];
      }
      i := i + 1;
    }
    assert lines[..i] == lines;
    usage := if coreUsage == [] then None else Some(coreUsage);
  }

  /** Collecting over two blocks of elements is collecting over each, in order. */
  lemma {:induction false} CollectAppend<T, U>(a: seq<T>, b: seq<T>, f: T -> Option<U>)
    ensures Collect(a + b, f) == Collect(a, f) + Collect(b, f)
    decreases |b|
  {
    if b == [] {
      assert a + b == a;
    } else {
      var b' := b[..|b| - 1];
      assert (a + b)[..|a + b| - 1] == a + b';
      assert (a + b)[|a + b| - 1] == b[|b| - 1];
      CollectAppend(a, b', f);
    }
  }

  /** Nothing is collected exactly when `f` rejects every element. */
  lemma {:induction false} CollectEmpty<T, U>(xs: seq<T>, f: T -> Option<U>)
    ensures Collect(xs, f) == [] <==> forall i | 0 <= i < |xs| :: f(xs[i]).None?
  {
    if xs != [] {
      var init := xs[..|xs| - 1];
      CollectEmpty(init, f);
      assert forall i | 0 <= i < |init| :: init[i] == xs[i];
    }
  }

  /** Every collected value comes from some element, and every element
      `f` accepts has its value collected. */
  lemma {:induction false} CollectMembers<T, U>(xs: seq<T>, f: T -> Option<U>)
    ensures forall u | u in Collect(xs, f) :: exists i | 0 <= i < |xs| :: f(xs[i]) == Some(u)
    ensures forall i | 0 <= i < |xs| && f(xs[i]).Some? :: f(xs[i]).value in Collect(xs, f)
  {
    if xs != [] {
      var init := xs[..|xs| - 1];
      CollectMembers(init, f);
      assert forall i | 0 <= i < |init| :: init[i] == xs[i];
    }
  }

  /** A single element contributes its value, or nothing. */
  lemma CollectOne<T, U>(x: T, f: T -> Option<U>)
    ensures Collect([x], f) == if f(x).Some? then [f(x).value] else []
  {
    assert [x][..0] == [];
  }

  /** The collected values, one per accepted element and in order: `idx`
      lists the accepted positions in increasing order, and the `k`-th
      value is `f`'s value at the `k`-th of them. */
  lemma {:induction false} CollectIndices<T, U>(xs: seq<T>, f: T -> Option<U>) returns (idx: seq<nat>)
    ensures |idx| == |Collect(xs, f)|
    ensures forall j, k | 0 <= j < k < |idx| :: idx[j] < idx[k]
    ensures forall k | 0 <= k < |idx| :: idx[k] < |xs| && f(xs[idx[k]]) == Some(Collect(xs, f)[k])
    ensures forall i | 0 <= i < |xs| && f(xs[i]).Some? :: i in idx
  {
    if xs == [] {
      idx := [];
    } else {
      var n := |xs| - 1;
      var init := xs[..n];
      var prior := CollectIndices(init, f);
      assert forall i | 0 <= i < n :: init[i] == xs[i];
      var before := Collect(init, f);
      match f(xs[n]) {
        case None =>
          assert Collect(xs, f) == before;
          idx := prior;
          AcceptedListed(xs, f, idx);
        case Some(u) =>
          assert Collect(xs, f) == before + [u];
          idx := prior + [n];
          AcceptedListed(xs, f, idx);
      }
    }
  }

  /** The step of `CollectIndices`: positions before the last are covered
      by the indices of the prefix, the last one by the appended index. */
  lemma AcceptedListed<T, U>(xs: seq<T>, f: T -> Option<U>, idx: seq<nat>)
    requires xs != []
    requires forall i | 0 <= i < |xs| - 1 && f(xs[i]).Some? :: i in idx
    requires f(xs[|xs| - 1]).Some? ==> |xs| - 1 in idx
    ensures forall i | 0 <= i < |xs| && f(xs[i]).Some? :: i in idx
  {
  }

  /** Where a collected value came from: an element `f` maps to it. */
  lemma CollectedHasSource<T, U>(xs: seq<T>, f: T -> Option<U>, u: U) returns (i: nat)
    requires u in Collect(xs, f)
    ensures i < |xs| && f(xs[i]) == Some(u)
  {
    CollectMembers(xs, f);
    i :| 0 <= i < |xs| && f(xs[i]) == Some(u);
  }

  /** A line contributes exactly when it is a per-core row whose idle
      field reads as a number, and then it contributes `100 - idle`. */
  lemma LineUsageRow(line: string, parseFloat: string -> Option<real>)
    ensures LineUsage(line, parseFloat).Some?
        <==> IsCoreRow(line) && parseFloat(IdleField(line)).Some?
    ensures LineUsage(line, parseFloat).Some?
        ==> LineUsage(line, parseFloat).value == 100.0 - parseFloat(IdleField(line)).value
  {
  }

  /** Every usage `get_cpu_cores` reports is `100 - idle` for the idle
      field of some per-core row of the output: `line` is that row. */
  lemma ReportedUsageHasRow(out: string, parseFloat: string -> Option<real>, u: real)
    returns (line: string)
    requires CoreReading(Some(out), parseFloat).Some?
    requires u in CoreReading(Some(out), parseFloat).value
    ensures line in Split(out, '\n')
    ensures IsCoreRow(line) && parseFloat(IdleField(line)) == Some(100.0 - u)
  {
    var lines := Split(out, '\n');
    var i := CollectedHasSource(lines, UsageOf(parseFloat), u);
    line := lines[i];
    UsageComesFromRow(line, parseFloat, u);
  }

  lemma UsageComesFromRow(line: string, parseFloat: string -> Option<real>, u: real)
    requires UsageOf(parseFloat)(line) == Some(u)
    ensures IsCoreRow(line) && parseFloat(IdleField(line)) == Some(100.0 - u)
  {
    assert LineUsage(line, parseFloat) == Some(u);
    LineUsageRow(line, parseFloat);
  }

  /** `get_cpu_cores` reports one usage per contributing line, in the
      order of the lines: `rows` lists the line numbers of the lines
      `LineUsage` accepts (by `LineUsageRow`, the per-core rows with a
      readable idle field) in increasing order, and the `k`-th usage is
      the `k`-th of those lines' usage. So the length of the result,
      which becomes `num_cores`, is the number of such rows. */
  lemma ReportedRowsInOrder(out: string, parseFloat: string -> Option<real>) returns (rows: seq<nat>)
    ensures CoreReading(Some(out), parseFloat).None? ==> rows == []
    ensures CoreReading(Some(out), parseFloat).Some? ==> |rows| == |CoreReading(Some(out), parseFloat).value|
    ensures forall j, k | 0 <= j < k < |rows| :: rows[j] < rows[k]
    ensures forall k | 0 <= k < |rows| ::
      && rows[k] < |Split(out, '\n')|
      && CoreReading(Some(out), parseFloat).Some?
      && LineUsage(Split(out, '\n')[rows[k]], parseFloat) == Some(CoreReading(Some(out), parseFloat).value[k])
    ensures forall i | 0 <= i < |Split(out, '\n')| ::
      LineUsage(Split(out, '\n')[i], parseFloat).Some? ==> i in rows
  {
    var lines := Split(out, '\n');
    var usageOf := UsageOf(parseFloat);
    var usages := Collect(lines, usageOf);
    rows := CollectIndices(lines, usageOf);
    var r := CoreReading(Some(out), parseFloat);
    assert r == if usages == [] then None else Some(usages);
    forall k | 0 <= k < |rows|
      ensures r.Some? && LineUsage(lines[rows[k]], parseFloat) == Some(r.value[k])
    {
      assert usageOf(lines[rows[k]]) == LineUsage(lines[rows[k]], parseFloat);
    }
    forall i | 0 <= i < |lines| && LineUsage(lines[i], parseFloat).Some?
      ensures i in rows
    {
      assert usageOf(lines[i]) == LineUsage(lines[i], parseFloat);
    }
  }

  /** Every per-core row whose idle field reads as a number is reported. */
  lemma RowIsReported(out: string, parseFloat: string -> Option<real>, line: string)
    requires line in Split(out, '\n')
    requires IsCoreRow(line) && parseFloat(IdleField(line)).Some?
    ensures CoreReading(Some(out), parseFloat).Some?
    ensures 100.0 - parseFloat(IdleField(line)).value in CoreReading(Some(out), parseFloat).value
  {
    var lines := Split(out, '\n');
    var usageOf := UsageOf(parseFloat);
    CollectMembers(lines, usageOf);
    LineUsageRow(line, parseFloat);
    assert usageOf(line) == LineUsage(line, parseFloat);
    var i :| 0 <= i < |lines| && lines[i] == line;
    assert usageOf(lines[i]).Some?;
  }

  /** `get_cpu_cores` reports nothing exactly when the command failed or
      no line of its output is a per-core row with a readable idle field. */
  lemma CoreReadingAbsent(stdout: Option<string>, parseFloat: string -> Option<real>)
    ensures CoreReading(stdout, parseFloat).None?
        <==> stdout.None?
             || forall line | line in Split(stdout.value, '\n') :: LineUsage(line, parseFloat).None?
  {
    if stdout.Some? {
      var lines := Split(stdout.value, '\n');
      CollectEmpty(lines, UsageOf(parseFloat));
    }
  }
}
