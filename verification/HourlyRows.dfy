/** What the two rollups of hub/internal/store/hosts.go fold: token counts are
    summed, readings are averaged.  float64 is modelled as real. */
module HourlyRows {
  import opened Rollup
  import opened Totals
  import opened Sequences

  // ---------------------------------------------------------------- usage

  datatype Usage = Usage(input: int, output: int, cacheRead: int, cacheWrite: int, cost: real)
  datatype Sum = Sum(calls: nat, usage: Usage)

  function Plus(a: Usage, b: Usage): Usage {
    Usage(a.input + b.input, a.output + b.output, a.cacheRead + b.cacheRead, a.cacheWrite + b.cacheWrite, a.cost + b.cost)
  }

  const NO_USAGE := Usage(0, 0, 0, 0, 0.0)

  function Add(s: Sum, u: Usage): Sum {
    Sum(s.calls + 1, Plus(s.usage, u))
  }

  const USAGE: Shape<Usage, Sum, Sum> := Shape(Sum(0, NO_USAGE), (s: Sum, u: Usage) => Add(s, u), (s: Sum) => s)

  lemma UsageSnoc(rows: seq<Raw<Usage>>, r: Raw<Usage>)
    ensures Fold(USAGE, rows + [r]) == Add(Fold(USAGE, rows), r.data)
  {
    FoldSnoc(USAGE, rows, r);
  }

  lemma AddsCommute(s: Sum, u: Usage, v: Usage)
    ensures Add(Add(s, u), v) == Add(Add(s, v), u)
  {
  }

  /** A row anywhere in the group counts once, whatever its place. */
  lemma {:induction false} UsageAnywhere(a: seq<Raw<Usage>>, r: Raw<Usage>, b: seq<Raw<Usage>>)
    ensures Fold(USAGE, a + [r] + b) == Add(Fold(USAGE, a + b), r.data)
    decreases |b|
  {
    if b == [] {
      assert a + [r] + b == a + [r] && a + b == a;
      UsageSnoc(a, r);
    } else {
      var front, last := Init(b), Last(b);
      UsageAnywhere(a, r, front);
      assert a + [r] + b == (a + [r] + front) + [last];
      assert a + b == (a + front) + [last];
      UsageSnoc(a + [r] + front, last);
      UsageSnoc(a + front, last);
      AddsCommute(Fold(USAGE, a + front), r.data, last.data);
    }
  }

  /** The query orders rows by hour only.  The order within an hour does not
      matter: the sums are those of the rows as a multiset. */
  lemma {:induction false} UsageIsOrderFree(a: seq<Raw<Usage>>, b: seq<Raw<Usage>>)
    requires multiset(a) == multiset(b)
    ensures Fold(USAGE, a) == Fold(USAGE, b)
    decreases |a|
  {
    assert |a| == |multiset(a)| == |multiset(b)| == |b|;
    if a != [] {
      var r := Last(a);
      assert a == Init(a) + [r];
      assert r in multiset(b);
      var i :| 0 <= i < |b| && b[i] == r;
      assert b == b[..i] + [r] + b[i + 1..];
      assert multiset(Init(a)) == multiset(a) - multiset{r};
      assert multiset(b[..i] + b[i + 1..]) == multiset(b) - multiset{r};
      UsageIsOrderFree(Init(a), b[..i] + b[i + 1..]);
      UsageSnoc(Init(a), r);
      UsageAnywhere(b[..i], r, b[i + 1..]);
    }
  }

  function Both(a: Sum, b: Sum): Sum {
    Sum(a.calls + b.calls, Plus(a.usage, b.usage))
  }

  lemma BothAdds(s: Sum, t: Sum, u: Usage, t': Sum, all: Sum, all': Sum)
    requires t' == Add(t, u) && all == Both(s, t) && all' == Add(all, u)
    ensures all' == Both(s, t')
  {
  }

  lemma BothNothing(s: Sum)
    ensures Both(s, Sum(0, NO_USAGE)) == s
  {
  }

  lemma UsageAddsOne(a: seq<Raw<Usage>>, b: seq<Raw<Usage>>, r: Raw<Usage>)
    requires Fold(USAGE, a + b) == Both(Fold(USAGE, a), Fold(USAGE, b))
    ensures Fold(USAGE, a + b + [r]) == Both(Fold(USAGE, a), Fold(USAGE, b + [r]))
  {
    UsageSnoc(a + b, r);
    UsageSnoc(b, r);
    BothAdds(Fold(USAGE, a), Fold(USAGE, b), r.data, Fold(USAGE, b + [r]), Fold(USAGE, a + b), Fold(USAGE, a + b + [r]));
  }

  lemma UsageAddsNone(a: seq<Raw<Usage>>)
    ensures Fold(USAGE, a) == Both(Fold(USAGE, a), Fold(USAGE, []))
  {
    BothNothing(Fold(USAGE, a));
  }

  /** Two groups of rows sum to the sum of both: the hours of a day add up. */
  lemma {:induction false} UsageAddsUp(a: seq<Raw<Usage>>, b: seq<Raw<Usage>>)
    ensures Fold(USAGE, a + b) == Both(Fold(USAGE, a), Fold(USAGE, b))
    decreases |b|
  {
    if b == [] {
      assert a + b == a;
      UsageAddsNone(a);
    } else {
      UsageAddsUp(a, Init(b));
      UsageAddsOne(a, Init(b), Last(b));
      assert a + b == a + Init(b) + [Last(b)] && b == Init(b) + [Last(b)];
    }
  }

  const INPUT: Usage -> int := (u: Usage) => u.input
  const OUTPUT: Usage -> int := (u: Usage) => u.output
  const CACHE_READ: Usage -> int := (u: Usage) => u.cacheRead
  const CACHE_WRITE: Usage -> int := (u: Usage) => u.cacheWrite
  const COST: Usage -> real := (u: Usage) => u.cost

  /** This row holds the totals of the rows picked. */
  ghost predicate HoldsTotals(row: Sum, rows: seq<Raw<Usage>>, pick: Raw<Usage> -> bool) {
    && row.calls == |Rows(rows, pick)|
    && row.usage.input == Total(rows, pick, INPUT) && row.usage.output == Total(rows, pick, OUTPUT)
    && row.usage.cacheRead == Total(rows, pick, CACHE_READ) && row.usage.cacheWrite == Total(rows, pick, CACHE_WRITE)
    && row.usage.cost == RealTotal(rows, pick, COST)
  }

  lemma {:induction false} FilteredTotals(rows: seq<Raw<Usage>>, keep: Raw<Usage> -> bool, pick: Raw<Usage> -> bool)
    requires forall r :: keep(r) == pick(r)
    ensures HoldsTotals(Fold(USAGE, Filter(rows, keep)), rows, pick)
    decreases |rows|
  {
    if rows == [] {
      assert Rows(rows, pick) == {};
    } else {
      var before, r := Filter(Init(rows), keep), Last(rows);
      FilteredTotals(Init(rows), keep, pick);
      RowsStep(rows, pick);
      if keep(r) {
        UsageSnoc(before, r);
      } else {
        assert before + [] == before;
      }
    }
  }

  lemma {:induction false} CallsAreRows(rows: seq<Raw<Usage>>)
    ensures Fold(USAGE, rows).calls == |rows|
    decreases |rows|
  {
    if rows != [] {
      CallsAreRows(Init(rows));
    }
  }

  /** What the fold of rows comes to: their number and the total of each field. */
  lemma UsageIsTotals(rows: seq<Raw<Usage>>)
    ensures Fold(USAGE, rows).calls == |rows|
    ensures HoldsTotals(Fold(USAGE, rows), rows, Every())
  {
    FilteredTotals(rows, Every(), Every());
    FilterEvery(rows);
    CallsAreRows(rows);
  }

  lemma HourIsTotals(rows: seq<Raw<Usage>>, k: Key)
    ensures HoldsTotals(HourRow(USAGE, rows, k), rows, InHour(k.host, k.hour))
  {
    forall r: Raw<Usage>
      ensures OfKey(k)(r) == InHour(k.host, k.hour)(r)
    {
      KeyIsHour(k, r);
    }
    FilteredTotals(rows, OfKey(k), InHour(k.host, k.hour));
  }

  /** Every rolled hour holds the totals of all rows ever recorded in it. */
  ghost predicate AllExact(states: seq<World<Usage, Sum, Sum>>) {
    forall k, key :: 0 <= k < |states| && key in states[k].tables.hourly ==>
      HoldsTotals(states[k].tables.hourly[key], states[k].log, InHour(key.host, key.hour))
  }

  ghost predicate StampedBy(may: int -> bool, steps: seq<Step<Usage>>) {
    forall i :: 0 <= i < |steps| && steps[i].Insert? ==> may(steps[i].r.at)
  }

  ghost predicate AlwaysExact(may: int -> bool) {
    forall states, steps, clock :: IsRun(USAGE, states, steps, clock) && StampedBy(may, steps) ==> AllExact(states)
  }

  lemma ExactInRun(states: seq<World<Usage, Sum, Sum>>, steps: seq<Step<Usage>>, clock: int)
    requires IsRun(USAGE, states, steps, clock) && PastFirstSeconds(steps)
    ensures AllExact(states)
  {
    forall k, key | 0 <= k < |states| && key in states[k].tables.hourly
      ensures HoldsTotals(states[k].tables.hourly[key], states[k].log, InHour(key.host, key.hour))
    {
      RolledHoursAreExact(USAGE, states, steps, clock, k, key);
      HourIsTotals(states[k].log, key);
    }
  }

  /** An hour rolled with one of its two rows does not hold their number. */
  lemma OneOfTwo(r: Raw<Usage>)
    ensures Fold(USAGE, [r]).calls == 1
    ensures |Rows([r, r], InHour(r.host, HourOf(r.at)))| == 2
  {
    UsageIsTotals([r]);
    KeyIsHour(KeyOf(r), r);
    assert Rows([r, r], InHour(r.host, HourOf(r.at))) == {0, 1};
  }

  /** With the times the rows may be stamped with given, every run is exact if
      and only if none of them lies in the first second of an hour.  A row that
      does is rolled up in that very hour, and what follows in the hour is lost. */
  lemma ExactPastFirstSeconds(may: int -> bool)
    ensures AlwaysExact(may) <==> forall at :: may(at) ==> !FirstSecond(at)
  {
    if forall at :: may(at) ==> !FirstSecond(at) {
      forall states: seq<World<Usage, Sum, Sum>>, steps: seq<Step<Usage>>, clock: int
        | IsRun(USAGE, states, steps, clock) && StampedBy(may, steps)
        ensures AllExact(states)
      {
        ExactInRun(states, steps, clock);
      }
    } else {
      var at :| may(at) && FirstSecond(at);
      var r := Raw(0, at, NO_USAGE);
      var states := RolledTooEarly(USAGE, r, r);
      OneOfTwo(r);
      assert StampedBy(may, EarlySteps(r, r));
      assert KeyOf(r) in states[4].tables.hourly;
    }
  }

  // ---------------------------------------------------------------- metrics

  datatype Metric = Metric(memUsed: int, memTotal: int, load: real, gpuBusy: int, mounts: map<string, real>)
  datatype Acc = Acc(n: nat, mem: real, total: real, load: real, gpu: real, mounts: map<string, real>)
  datatype Hour = Hour(memUsed: int, memTotal: int, load: real, gpuBusy: real, mounts: map<string, real>)

  function AddMounts(sums: map<string, real>, mounts: map<string, real>): map<string, real> {
    map p | p in sums.Keys + mounts.Keys ::
      (if p in sums then sums[p] else 0.0) + (if p in mounts then mounts[p] else 0.0)
  }

  function AddMetric(a: Acc, m: Metric): Acc {
    Acc(a.n + 1, a.mem + m.memUsed as real, a.total + m.memTotal as real, a.load + m.load, a.gpu + m.gpuBusy as real,
        AddMounts(a.mounts, m.mounts))
  }

  /** int64(x) */
  function Truncate(x: real): int {
    if x >= 0.0 then x.Floor else -((-x).Floor)
  }

  /** Every total over the number of rows; there is always one. */
  function Average(a: Acc): Hour {
    var n := if a.n == 0 then 1.0 else a.n as real;
    Hour(Truncate(a.mem / n), Truncate(a.total / n), a.load / n, a.gpu / n, map p | p in a.mounts :: a.mounts[p] / n)
  }

  const METRICS: Shape<Metric, Acc, Hour> :=
    Shape(Acc(0, 0.0, 0.0, 0.0, 0.0, map[]), (a: Acc, m: Metric) => AddMetric(a, m), (a: Acc) => Average(a))

  const MEM_USED: Metric -> int := (m: Metric) => m.memUsed
  const MEM_TOTAL: Metric -> int := (m: Metric) => m.memTotal
  const LOAD: Metric -> real := (m: Metric) => m.load
  const GPU_BUSY: Metric -> int := (m: Metric) => m.gpuBusy

  ghost predicate MetricTotals(a: Acc, rows: seq<Raw<Metric>>, pick: Raw<Metric> -> bool) {
    && a.n == |Rows(rows, pick)|
    && a.mem == Total(rows, pick, MEM_USED) as real && a.total == Total(rows, pick, MEM_TOTAL) as real
    && a.load == RealTotal(rows, pick, LOAD) && a.gpu == Total(rows, pick, GPU_BUSY) as real
  }

  lemma {:induction false} FilteredMetrics(rows: seq<Raw<Metric>>, keep: Raw<Metric> -> bool, pick: Raw<Metric> -> bool)
    requires forall r :: keep(r) == pick(r)
    ensures MetricTotals(Fold(METRICS, Filter(rows, keep)), rows, pick)
    decreases |rows|
  {
    if rows == [] {
      assert Rows(rows, pick) == {};
    } else {
      var before, r := Filter(Init(rows), keep), Last(rows);
      FilteredMetrics(Init(rows), keep, pick);
      RowsStep(rows, pick);
      if keep(r) {
        FoldSnoc(METRICS, before, r);
      } else {
        assert before + [] == before;
      }
    }
  }

  /** The whole part, toward zero. */
  ghost predicate IsWhole(n: int, x: real) {
    if x >= 0.0 then n as real <= x < (n + 1) as real else (n - 1) as real < x <= n as real
  }

  lemma TruncateIsWhole(x: real)
    ensures IsWhole(Truncate(x), x)
  {
  }

  /** This row holds the averages of the rows picked, memory in whole bytes. */
  ghost predicate HoldsAverages(h: Hour, rows: seq<Raw<Metric>>, pick: Raw<Metric> -> bool) {
    var n := |Rows(rows, pick)|;
    && n > 0
    && IsWhole(h.memUsed, Total(rows, pick, MEM_USED) as real / n as real)
    && IsWhole(h.memTotal, Total(rows, pick, MEM_TOTAL) as real / n as real)
    && h.load == RealTotal(rows, pick, LOAD) / n as real
    && h.gpuBusy == Total(rows, pick, GPU_BUSY) as real / n as real
  }

  lemma AverageOf(a: Acc, rows: seq<Raw<Metric>>, pick: Raw<Metric> -> bool)
    requires MetricTotals(a, rows, pick) && a.n > 0
    ensures HoldsAverages(Average(a), rows, pick)
  {
    TruncateIsWhole(a.mem / a.n as real);
    TruncateIsWhole(a.total / a.n as real);
  }

  /** In every run a rolled hour holds the averages of all rows ever recorded in it. */
  lemma AveragesAreExact(states: seq<World<Metric, Acc, Hour>>, steps: seq<Step<Metric>>, clock: int, k: nat, key: Key)
    requires IsRun(METRICS, states, steps, clock) && PastFirstSeconds(steps)
    requires k < |states| && key in states[k].tables.hourly
    ensures HoldsAverages(states[k].tables.hourly[key], states[k].log, InHour(key.host, key.hour))
  {
    var log := states[k].log;
    RolledHoursAreExact(METRICS, states, steps, clock, k, key);
    forall r: Raw<Metric>
      ensures OfKey(key)(r) == InHour(key.host, key.hour)(r)
    {
      KeyIsHour(key, r);
    }
    FilteredMetrics(log, OfKey(key), InHour(key.host, key.hour));
    assert |Group(log, key)| > 0;
    MountTotals(Group(log, key), "/");
    AverageOf(Fold(METRICS, Group(log, key)), log, InHour(key.host, key.hour));
  }

  /** Over the rows that report a mount: how many, and what they add up to. */
  function Reports(rows: seq<Raw<Metric>>, p: string): nat {
    if rows == [] then 0 else Reports(Init(rows), p) + if p in Last(rows).data.mounts then 1 else 0
  }

  function TotalFree(rows: seq<Raw<Metric>>, p: string): real {
    if rows == [] then 0.0
    else TotalFree(Init(rows), p) + if p in Last(rows).data.mounts then Last(rows).data.mounts[p] else 0.0
  }

  lemma {:induction false} MountTotals(rows: seq<Raw<Metric>>, p: string)
    ensures var a := Fold(METRICS, rows);
            && a.n == |rows| && Reports(rows, p) <= |rows|
            && (p in a.mounts <==> Reports(rows, p) > 0)
            && TotalFree(rows, p) == (if p in a.mounts then a.mounts[p] else 0.0)
  {
    if rows != [] {
      MountTotals(Init(rows), p);
      assert Fold(METRICS, rows) == AddMetric(Fold(METRICS, Init(rows)), Last(rows).data);
    }
  }

  lemma QuotientsAgree(t: real, m: nat, n: nat)
    requires 0 < m <= n
    ensures t / n as real == t / m as real <==> m == n || t == 0.0
  {
    var a, b := n as real, m as real;
    var q := t / b;
    assert q * b == t;
    if t / a == q {
      assert q * a == t;
      assert q * (a - b) == 0.0;
    }
  }

  /** "Averaged per mountpoint" is so exactly when every row of the hour reports
      the mount (or its total is zero): the total is divided by all the rows. */
  lemma MountAverage(rows: seq<Raw<Metric>>, p: string)
    requires Reports(rows, p) > 0
    ensures p in METRICS.finish(Fold(METRICS, rows)).mounts
    ensures METRICS.finish(Fold(METRICS, rows)).mounts[p] == TotalFree(rows, p) / Reports(rows, p) as real
       <==> Reports(rows, p) == |rows| || TotalFree(rows, p) == 0.0
  {
    MountTotals(rows, p);
    QuotientsAgree(TotalFree(rows, p), Reports(rows, p), |rows|);
  }
}
