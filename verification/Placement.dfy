/** Placement of a stack, hub/internal/apps/placement.go: the disk trend of a
    host, what it says about the days left, one verdict per host and their order.
    float64 is modelled as real, int64 wraps. */
module Placement {
  import opened Sequences
  import opened Sorting
  import opened Trend
  import opened Burst

  // ---------------------------------------------------------------- the trend

  /** One row of a host's metrics: its time in seconds and the free bytes of the
      root mount, where they can be read. */
  datatype Reading = Reading(at: Option<int>, free: Option<real>)

  predicate Usable(r: Reading) {
    r.at.Some? && r.free.Some?
  }

  function Days(rs: seq<Reading>): seq<real> {
    if rs == [] then []
    else Days(Init(rs)) + if Usable(Last(rs)) then [Last(rs).at.value as real / 86400.0] else []
  }

  function Frees(rs: seq<Reading>): seq<real> {
    if rs == [] then [] else Frees(Init(rs)) + if Usable(Last(rs)) then [Last(rs).free.value] else []
  }

  lemma {:induction false} SameLength(rs: seq<Reading>)
    ensures |Days(rs)| == |Frees(rs)| <= |rs|
    decreases |rs|
  {
    if rs != [] {
      SameLength(Init(rs));
    }
  }

  /** Enough history to say anything: twelve samples over half a day. */
  predicate Enough(rs: seq<Reading>) {
    var xs := Days(rs);
    |xs| >= 12 && xs[|xs| - 1] - xs[0] >= 0.5
  }

  /** The slope in bytes per day and the days of history behind it. */
  ghost predicate IsTrend(rs: seq<Reading>, slope: real, window: real) {
    var xs, ys := Days(rs), Frees(rs);
    if Enough(rs) && |xs| == |ys| && Cross(xs, xs, |xs|) != 0.0 then
      window == Total(xs) && exists zs :: Dropped(ys, zs) && slope == Slope(xs, zs)
    else
      slope == 0.0 && window == 0.0
  }

  method FindTrend(rs: seq<Reading>) returns (slope: real, window: real)
    ensures IsTrend(rs, slope, window)
  {
    SameLength(rs);
    if |rs| < 12 {
      return 0.0, 0.0;
    }
    var xs, ys := Series(rs);
    if |xs| < 12 || xs[|xs| - 1] - xs[0] < 0.5 {
      return 0.0, 0.0;
    }
    window := xs[|xs| - 1] - xs[0];
    var zs := DropBurst(ys);
    var num, den := Sums(xs, zs);
    if den == 0.0 {
      return 0.0, 0.0;
    }
    return num / den, window;
  }

  method Series(rs: seq<Reading>) returns (xs: seq<real>, ys: seq<real>)
    ensures xs == Days(rs) && ys == Frees(rs)
  {
    xs, ys := [], [];
    var i := 0;
    while i < |rs|
      invariant 0 <= i <= |rs| && xs == Days(rs[..i]) && ys == Frees(rs[..i])
    {
      assert Init(rs[..i + 1]) == rs[..i];
      if Usable(rs[i]) {
        xs := xs + [rs[i].at.value as real / 86400.0];
        ys := ys + [rs[i].free.value];
      }
      i := i + 1;
    }
    assert rs[..i] == rs;
  }

  /** Which of the first n rows can be read. */
  ghost function Readable(rs: seq<Reading>, n: nat): set<int>
    requires n <= |rs|
  {
    set i | 0 <= i < n && Usable(rs[i])
  }

  /** The samples are the rows that can be read, each at its place among them: its
      day and its free bytes. */
  lemma ReadableSnoc(rs: seq<Reading>, n: nat)
    requires n < |rs|
    ensures |Readable(rs, n + 1)| == |Readable(rs, n)| + if Usable(rs[n]) then 1 else 0
  {
    assert Readable(rs, n + 1) == if Usable(rs[n]) then Readable(rs, n) + {n} else Readable(rs, n);
  }

  lemma {:induction false} SampleCount(rs: seq<Reading>)
    ensures |Days(rs)| == |Frees(rs)| == |Readable(rs, |rs|)|
    decreases |rs|
  {
    if rs == [] {
      assert Readable(rs, 0) == {};
    } else {
      var n := |rs| - 1;
      SampleCount(Init(rs));
      assert Readable(Init(rs), n) == Readable(rs, n);
      ReadableSnoc(rs, n);
    }
  }

  lemma {:induction false} SampleAt(rs: seq<Reading>, i: nat)
    requires i < |rs| && Usable(rs[i])
    ensures var k := |Readable(rs, i)|;
            k < |Days(rs)| == |Frees(rs)|
            && Days(rs)[k] == rs[i].at.value as real / 86400.0 && Frees(rs)[k] == rs[i].free.value
    decreases |rs|
  {
    var front := Init(rs);
    SampleCount(front);
    assert Readable(front, i) == Readable(rs, i);
    if i < |front| {
      SampleAt(front, i);
    }
  }

  method Sums(xs: seq<real>, ys: seq<real>) returns (num: real, den: real)
    requires |xs| == |ys|
    ensures num == Cross(xs, ys, |xs|) && den == Cross(xs, xs, |xs|)
  {
    var sx, sy, sxx, sxy := Totals(xs, ys);
    var n := |xs| as real;
    return n * sxy - sx * sy, n * sxx - sx * sx;
  }

  /** The loop that adds up. */
  method Totals(xs: seq<real>, ys: seq<real>) returns (sx: real, sy: real, sxx: real, sxy: real)
    requires |xs| == |ys|
    ensures sx == Sum(xs, |xs|) && sy == Sum(ys, |xs|) && sxx == Dot(xs, xs, |xs|) && sxy == Dot(xs, ys, |xs|)
  {
    sx, sy, sxx, sxy := 0.0, 0.0, 0.0, 0.0;
    var i := 0;
    while i < |xs|
      invariant 0 <= i <= |xs|
      invariant sx == Sum(xs, i) && sy == Sum(ys, i) && sxx == Dot(xs, xs, i) && sxy == Dot(xs, ys, i)
    {
      sx := sx + xs[i];
      sy := sy + ys[i];
      sxx := sxx + xs[i] * xs[i];
      sxy := sxy + xs[i] * ys[i];
      i := i + 1;
    }
  }

  /** A week of metrics, oldest first. */
  ghost predicate AWeek(rs: seq<Reading>) {
    forall i, j :: 0 <= i < j < |rs| && Usable(rs[i]) && Usable(rs[j]) ==>
      0 <= rs[j].at.value - rs[i].at.value <= 7 * 86400
  }

  ghost predicate IsDay(rs: seq<Reading>, d: real) {
    exists i :: 0 <= i < |rs| && Usable(rs[i]) && d == rs[i].at.value as real / 86400.0
  }

  lemma {:induction false} DayOf(rs: seq<Reading>, k: nat)
    requires k < |Days(rs)|
    ensures IsDay(rs, Days(rs)[k])
    decreases |rs|
  {
    if k < |Days(Init(rs))| {
      DayOf(Init(rs), k);
      var i :| 0 <= i < |Init(rs)| && Usable(Init(rs)[i]) && Days(rs)[k] == Init(rs)[i].at.value as real / 86400.0;
      assert rs[i] == Init(rs)[i];
    } else {
      assert Usable(rs[|rs| - 1]);
    }
  }

  /** Days run forward and lie within seven of each other. */
  lemma {:induction false} DaysOfAWeek(rs: seq<Reading>, p: nat, q: nat)
    requires AWeek(rs) && p < q < |Days(rs)|
    ensures 0.0 <= Days(rs)[q] - Days(rs)[p] <= 7.0
    decreases |rs|
  {
    var before := Init(rs);
    if q < |Days(before)| {
      DaysOfAWeek(before, p, q);
    } else {
      DayOf(before, p);
      var i :| 0 <= i < |before| && Usable(before[i]) && Days(before)[p] == before[i].at.value as real / 86400.0;
      assert rs[i] == before[i];
      var j := |rs| - 1;
      assert 0 <= rs[j].at.value - rs[i].at.value <= 7 * 86400;
    }
  }

  lemma DaysSpan(rs: seq<Reading>)
    requires AWeek(rs) && Enough(rs)
    ensures Spans(Days(rs)) && 0.5 <= Total(Days(rs)) <= 7.0
  {
    var xs := Days(rs);
    forall p, q | 0 <= p < q < |xs|
      ensures xs[p] <= xs[q]
    {
      DaysOfAWeek(rs, p, q);
    }
    DaysOfAWeek(rs, 0, |xs| - 1);
  }

  /** On a week of metrics the guard against dividing by zero is never taken: a
      trend is given exactly when there is enough history, and its window is
      half a day to seven days. */
  lemma TrendWindow(rs: seq<Reading>, slope: real, window: real)
    requires AWeek(rs) && IsTrend(rs, slope, window)
    ensures Enough(rs) <==> window != 0.0
    ensures Enough(rs) ==> 0.5 <= window <= 7.0
    ensures slope != 0.0 ==> Enough(rs)
  {
    SameLength(rs);
    if Enough(rs) {
      DaysSpan(rs);
      DenominatorIsPositive(Days(rs));
    }
  }

  /** Two rows that can be read, so many seconds apart. */
  ghost predicate Apart(rs: seq<Reading>, i: int, j: int, seconds: int) {
    0 <= i < j < |rs| && Usable(rs[i]) && Usable(rs[j]) && rs[j].at.value - rs[i].at.value >= seconds
  }

  lemma FirstToLast(rs: seq<Reading>) returns (i: int, j: int)
    requires AWeek(rs) && Enough(rs)
    ensures Apart(rs, i, j, 43_200)
    ensures Total(Days(rs)) == (rs[j].at.value - rs[i].at.value) as real / 86400.0
  {
    var n := |Days(rs)|;
    DayOf(rs, 0);
    DayOf(rs, n - 1);
    i :| 0 <= i < |rs| && Usable(rs[i]) && Days(rs)[0] == rs[i].at.value as real / 86400.0;
    j :| 0 <= j < |rs| && Usable(rs[j]) && Days(rs)[n - 1] == rs[j].at.value as real / 86400.0;
    assert rs[j].at.value - rs[i].at.value >= 43_200;
  }

  lemma NoFurtherApart(rs: seq<Reading>, i: int, j: int)
    requires AWeek(rs) && |Days(rs)| >= 12 && Apart(rs, i, j, 0)
    ensures (rs[j].at.value - rs[i].at.value) as real / 86400.0 <= Total(Days(rs))
  {
    SampleAt(rs, i);
    SampleAt(rs, j);
    var p, q, n := |Readable(rs, i)|, |Readable(rs, j)|, |Days(rs)|;
    if p > 0 {
      DaysOfAWeek(rs, 0, p);
    }
    if q < n - 1 {
      DaysOfAWeek(rs, q, n - 1);
    }
  }

  /** On a week of metrics there is a trend exactly when twelve rows can be read and
      two of them are half a day apart, and its window is the time from the first
      to the last: nothing readable is further apart, and two rows are as far. */
  lemma WindowIsSpan(rs: seq<Reading>, slope: real, window: real)
    requires AWeek(rs) && IsTrend(rs, slope, window)
    ensures window != 0.0 <==> |Readable(rs, |rs|)| >= 12 && exists i, j :: Apart(rs, i, j, 43_200)
    ensures window == 0.0 ==> slope == 0.0
    ensures window != 0.0 ==> forall i, j :: Apart(rs, i, j, 0) ==> (rs[j].at.value - rs[i].at.value) as real / 86400.0 <= window
    ensures window != 0.0 ==>
              exists i, j :: Apart(rs, i, j, 43_200) && window == (rs[j].at.value - rs[i].at.value) as real / 86400.0
  {
    TrendWindow(rs, slope, window);
    SampleCount(rs);
    if Enough(rs) {
      var i, j := FirstToLast(rs);
      DaysSpan(rs);
      DenominatorIsPositive(Days(rs));
    }
    forall i, j | Apart(rs, i, j, 0) && |Days(rs)| >= 12
      ensures (rs[j].at.value - rs[i].at.value) as real / 86400.0 <= Total(Days(rs))
    {
      NoFurtherApart(rs, i, j);
    }
    if |Days(rs)| >= 12 && exists i, j :: Apart(rs, i, j, 43_200) {
      var i, j :| Apart(rs, i, j, 43_200);
      assert Apart(rs, i, j, 0);
      assert (rs[j].at.value - rs[i].at.value) as real / 86400.0 >= 0.5;
    }
  }

  /** Free space that only shrinks never gives a positive trend, free space that
      only grows never a negative one, and one jump in a flat series gives none,
      with the burst taken out or not. */
  lemma TrendSign(rs: seq<Reading>, slope: real, window: real)
    requires AWeek(rs) && IsTrend(rs, slope, window)
    ensures Falling(Frees(rs)) ==> slope <= 0.0
    ensures Rising(Frees(rs)) ==> slope >= 0.0
    ensures OneJump(Frees(rs)) ==> slope == 0.0
  {
    SameLength(rs);
    if Enough(rs) {
      var xs, ys := Days(rs), Frees(rs);
      DaysSpan(rs);
      DenominatorIsPositive(xs);
      var zs :| Dropped(ys, zs) && slope == Slope(xs, zs);
      DropKeepsDirection(xs, ys, zs);
      if OneJump(ys) {
        var k: nat :| 0 < k < |ys| && JumpsAt(ys, k);
        FlatButOneStep(xs, ys, zs, ys[0], ys[k] - ys[0], k);
      }
    }
  }

  ghost predicate JumpsAt(ys: seq<real>, k: nat)
    requires 0 < k < |ys|
  {
    forall i :: 0 <= i < |ys| ==> ys[i] == if i < k then ys[0] else ys[k]
  }

  ghost predicate OneJump(ys: seq<real>) {
    exists k: nat :: 0 < k < |ys| && JumpsAt(ys, k)
  }

  // ---------------------------------------------------------------- the days left

  /** How long the free bytes hold out: not negative, no longer than the history,
      and where neither bound is met, when the trend has used up the bytes. */
  function FillDays(free: int, trend: real, window: real): (days: real)
    requires trend < 0.0
    ensures days >= 0.0 && (window > 0.0 ==> days <= window)
    ensures days > 0.0 && !(0.0 < window <= days) ==> days * (0.0 - trend) == free as real
    ensures 0.0 < window <= days ==> days * (0.0 - trend) <= free as real
    ensures days == 0.0 <==> free <= 0
  {
    var raw := free as real / (0.0 - trend);
    QuotientSigns(free as real, 0.0 - trend);
    var floored := if raw < 0.0 then 0.0 else raw;
    if window > 0.0 && floored > window then window else floored
  }

  lemma QuotientSigns(n: real, d: real)
    requires d > 0.0
    ensures (n / d) * d == n
    ensures (n / d < 0.0 <==> n < 0.0) && (n / d == 0.0 <==> n == 0.0)
  {
    QuotientSign(n, d);
    if n < 0.0 {
      QuotientSign(0.0 - n, d);
      assert (0.0 - n) / d == 0.0 - n / d;
    }
  }

  datatype Sentence = FullToday(rate: int) | FullIn(rate: int, days: int)

  /** int64(-trend) >> 20 */
  function Rate(trend: real): int
    requires trend < 0.0
  {
    (0.0 - trend).Floor / 0x10_0000
  }

  function FillSentence(free: int, trend: real, window: real): (s: Sentence)
    requires trend < 0.0
    ensures s.FullIn? ==> 1 <= s.days && (window > 0.0 ==> s.days as real <= window)
  {
    var days := FillDays(free, trend, window);
    if days < 1.0 then FullToday(Rate(trend)) else FullIn(Rate(trend), days.Floor)
  }

  lemma RateInMB(trend: real)
    requires trend < 0.0
    ensures Rate(trend) * 0x10_0000 <= (0.0 - trend).Floor < (Rate(trend) + 1) * 0x10_0000
  {
  }

  /** What is lost in so many days. */
  function Lost(days: int, loss: real): real {
    Times(days as real, loss)
  }

  lemma WholeDays(days: real, loss: real)
    requires loss > 0.0
    ensures Lost(days.Floor, loss) <= Times(days, loss) < Lost(days.Floor + 1, loss)
  {
    PositiveFactor(days, days.Floor as real, loss);
    PositiveFactor(days, (days.Floor + 1) as real, loss);
  }

  lemma DaysInFull(free: int, trend: real, window: real)
    requires trend < 0.0 && FillDays(free, trend, window) >= 1.0
    ensures var days := FillDays(free, trend, window);
            && Lost(days.Floor, 0.0 - trend) <= free as real
            && (free as real < Lost(days.Floor + 1, 0.0 - trend) || 0.0 < window < (days.Floor + 1) as real)
  {
    var days := FillDays(free, trend, window);
    WholeDays(days, 0.0 - trend);
    assert Times(days, 0.0 - trend) == days * (0.0 - trend);
  }

  /** The sentence is true: whole days of loss that the free bytes hold out, the
      most there are or the most the history allows, and the loss in whole MB. */
  lemma SentenceIsTrue(free: int, trend: real, window: real)
    requires trend < 0.0
    ensures var s := FillSentence(free, trend, window);
            && s.rate * 0x10_0000 <= (0.0 - trend).Floor < (s.rate + 1) * 0x10_0000
            && (s.FullIn? ==> && Lost(s.days, 0.0 - trend) <= free as real
                              && (free as real < Lost(s.days + 1, 0.0 - trend) || 0.0 < window < (s.days + 1) as real))
  {
    RateInMB(trend);
    if FillDays(free, trend, window) >= 1.0 {
      DaysInFull(free, trend, window);
    }
  }

  lemma LessThanADay(n: real, d: real)
    requires d > 0.0
    ensures n / d < 1.0 <==> n < d
  {
    var q := n / d;
    assert q * d == n;
    if q < 1.0 {
      assert (1.0 - q) * d > 0.0;
    } else {
      assert (q - 1.0) * d >= 0.0;
    }
  }

  /** It says today exactly when less than a day's loss is free, or when there is
      less than a day of history, however much is free. */
  lemma SaysToday(free: int, trend: real, window: real)
    requires trend < 0.0
    ensures FillSentence(free, trend, window).FullToday? <==> free as real < 0.0 - trend || 0.0 < window < 1.0
  {
    LessThanADay(free as real, 0.0 - trend);
  }

  // ---------------------------------------------------------------- one host

  datatype Needs = Needs(cores: int, memoryMB: int, diskGB: int, gpu: bool, cluster: string)

  datatype Mount = Mount(path: string, free: int)

  datatype Host = Host(id: int, status: string, cores: int, memTotal: int, memUsed: int, load: real,
                       mounts: seq<Mount>, gpu: bool, docker: bool, metrics: seq<Reading>)

  datatype Why =
    | OtherHost | Status(status: string) | NoDocker | NoGPU | FewCores(has: int, wants: int)
    | LittleMemory(freeMB: int, wantsMB: int) | LittleDisk(freeGB: int, wantsGB: int) | Filling(sentence: Sentence)
    | Leaves(memoryMB: int, diskGB: int, rate: Option<int>, withGPU: bool)

  datatype Verdict = Verdict(host: int, fits: bool, score: real, why: Why)

  function Int64(x: int): int {
    (x + 0x8000_0000_0000_0000) % 0x1_0000_0000_0000_0000 - 0x8000_0000_0000_0000
  }

  predicate IsInt64(x: int) {
    -0x8000_0000_0000_0000 <= x < 0x8000_0000_0000_0000
  }

  /** Go's division truncates toward zero. */
  function Truncate(n: int, d: int): int
    requires d > 0
  {
    if n < 0 then -((-n) / d) else n / d
  }

  function NeedMemory(needs: Needs): int { Int64(needs.memoryMB * 0x10_0000) }
  function NeedDisk(needs: Needs): int { Int64(needs.diskGB * 0x4000_0000) }
  function MemoryLine(needs: Needs): int { Truncate(Int64(NeedMemory(needs) * 3), 2) }
  function DiskLine(needs: Needs): int { Truncate(Int64(NeedDisk(needs) * 6), 5) }
  function Available(h: Host): int { Int64(h.memTotal - h.memUsed) }

  /** The last mount on the root path; 0 when there is none. */
  function RootFree(mounts: seq<Mount>): int {
    if mounts == [] then 0 else if Last(mounts).path == "/" then Last(mounts).free else RootFree(Init(mounts))
  }

  /** A quotient of int64s, 0 where float64 has none. */
  function Over(n: real, d: int): real {
    if d == 0 then 0.0 else n / d as real
  }

  function Score(needs: Needs, h: Host, free: int, trend: real): real {
    0.4 * Over(Int64(Available(h) - NeedMemory(needs)) as real, Int64(h.memTotal + 1))
    + 0.35 * Over(Int64(free - NeedDisk(needs)) as real, Int64(free + NeedDisk(needs) + 1))
    + 0.15 * Over(Int64(h.cores - needs.cores) as real, Int64(h.cores + 1))
    - 0.1 * Over(h.load, Int64(h.cores + 1))
    - if trend < 0.0 then 0.2 else 0.0
  }

  predicate Ruled(needs: Needs, free: int, trend: real, window: real) {
    trend < 0.0 && NeedDisk(needs) > 0 && FillDays(Int64(free - NeedDisk(needs)), trend, window) < 30.0
  }

  /** The host's line: the first of the reasons against it, or its score. */
  function Judge(needs: Needs, only: Option<int>, h: Host, free: int, trend: real, window: real): (v: Verdict)
    ensures v.host == h.id && (!v.fits ==> v.score == 0.0)
    ensures v.fits <==> v.why.Leaves?
  {
    var avail := Available(h);
    if only.Some? && h.id != only.value then Verdict(h.id, false, 0.0, OtherHost)
    else if h.status != "online" then Verdict(h.id, false, 0.0, Status(h.status))
    else if !h.docker then Verdict(h.id, false, 0.0, NoDocker)
    else if needs.gpu && !h.gpu then Verdict(h.id, false, 0.0, NoGPU)
    else if h.cores < needs.cores then Verdict(h.id, false, 0.0, FewCores(h.cores, needs.cores))
    else if avail < MemoryLine(needs) then
      Verdict(h.id, false, 0.0, LittleMemory(avail / 0x10_0000, needs.memoryMB))
    else if free < DiskLine(needs) then
      Verdict(h.id, false, 0.0, LittleDisk(free / 0x4000_0000, needs.diskGB))
    else if Ruled(needs, free, trend, window) then
      Verdict(h.id, false, 0.0, Filling(FillSentence(Int64(free - NeedDisk(needs)), trend, window)))
    else
      Verdict(h.id, true, Score(needs, h, free, trend),
              Leaves(Int64(avail - NeedMemory(needs)) / 0x10_0000, Int64(free - NeedDisk(needs)) / 0x4000_0000,
                     if trend < 0.0 then Some(Rate(trend)) else None, h.gpu && needs.gpu))
  }

  /** Which hosts fit, on a week of metrics: besides its cores, its GPU and its
      margins a host must not be filling at all when the stack wants disk, since
      no projection reaches past the week it comes from. */
  lemma FitsExactly(needs: Needs, only: Option<int>, h: Host, trend: real, window: real)
    requires AWeek(h.metrics) && IsTrend(h.metrics, trend, window)
    ensures Judge(needs, only, h, RootFree(h.mounts), trend, window).fits <==>
            && (only.Some? ==> h.id == only.value) && h.status == "online" && h.docker
            && (needs.gpu ==> h.gpu) && h.cores >= needs.cores
            && Available(h) >= MemoryLine(needs) && RootFree(h.mounts) >= DiskLine(needs)
            && (trend < 0.0 ==> NeedDisk(needs) <= 0)
  {
    TrendWindow(h.metrics, trend, window);
  }

  /** A host whose free space only grew, or made one jump and was flat besides, is
      never turned down as filling. */
  lemma NotFilling(needs: Needs, only: Option<int>, h: Host, trend: real, window: real)
    requires AWeek(h.metrics) && IsTrend(h.metrics, trend, window)
    requires Rising(Frees(h.metrics)) || OneJump(Frees(h.metrics))
    ensures !Judge(needs, only, h, RootFree(h.mounts), trend, window).why.Filling?
  {
    TrendSign(h.metrics, trend, window);
  }

  // ---------------------------------------------------------------- the margins

  /** Half as much again is free of the memory the stack wants: this holds of every
      host that passes the test exactly when three times the request in bytes is
      an int64. */
  lemma MemoryMargin(needs: Needs)
    ensures (forall have :: IsInt64(have) && have >= MemoryLine(needs) ==> 2 * have >= 3 * needs.memoryMB * 0x10_0000)
            <==> 3 * needs.memoryMB * 0x10_0000 < 0x8000_0000_0000_0000
  {
    var line := MemoryLine(needs);
    assert IsInt64(line);
  }

  /** And a fifth more of the disk, to the byte below. */
  lemma DiskMargin(needs: Needs)
    ensures (forall have :: IsInt64(have) && have >= DiskLine(needs) ==> 5 * have > 6 * needs.diskGB * 0x4000_0000 - 5)
            <==> 6 * needs.diskGB * 0x4000_0000 < 0x8000_0000_0000_0000
  {
    var line := DiskLine(needs);
    assert IsInt64(line);
  }

  // ---------------------------------------------------------------- the fleet

  datatype Lookup = LookupFailed | On(host: Option<int>)

  datatype Answer = Failed | Ranked(verdicts: seq<Verdict>)

  function Before(): (Verdict, Verdict) -> bool {
    (x: Verdict, y: Verdict) => if x.fits != y.fits then x.fits else x.score > y.score
  }

  /** Verdict i is that of host i. */
  ghost predicate Judged(needs: Needs, only: Option<int>, hosts: seq<Host>, vs: seq<Verdict>) {
    |vs| == |hosts| && forall i :: 0 <= i < |hosts| ==> IsVerdict(needs, only, hosts[i], vs[i])
  }

  ghost predicate IsVerdict(needs: Needs, only: Option<int>, h: Host, v: Verdict) {
    exists trend, window :: IsTrend(h.metrics, trend, window) && v == Judge(needs, only, h, RootFree(h.mounts), trend, window)
  }

  ghost predicate Placed(needs: Needs, only: Option<int>, hosts: seq<Host>, vs: seq<Verdict>, out: seq<Verdict>) {
    Judged(needs, only, hosts, vs) && multiset(out) == multiset(vs) && Sorted(Before(), out)
  }

  method FindRoot(mounts: seq<Mount>) returns (free: int)
    ensures free == RootFree(mounts)
  {
    free := 0;
    var i := 0;
    while i < |mounts|
      invariant 0 <= i <= |mounts| && free == RootFree(mounts[..i])
    {
      assert Init(mounts[..i + 1]) == mounts[..i];
      if mounts[i].path == "/" {
        free := mounts[i].free;
      }
      i := i + 1;
    }
    assert mounts[..i] == mounts;
  }

  method JudgeAll(needs: Needs, only: Option<int>, hosts: seq<Host>) returns (vs: seq<Verdict>)
    ensures Judged(needs, only, hosts, vs)
  {
    vs := [];
    for i := 0 to |hosts|
      invariant |vs| == i && forall k :: 0 <= k < i ==> IsVerdict(needs, only, hosts[k], vs[k])
    {
      var free := FindRoot(hosts[i].mounts);
      var trend, window := FindTrend(hosts[i].metrics);
      vs := vs + [Judge(needs, only, hosts[i], free, trend, window)];
    }
  }

  /** Sorted as by `sort.Slice`, which promises an order but not which of two tied
      verdicts comes first. */
  method Rank(vs: seq<Verdict>) returns (out: seq<Verdict>)
    ensures Sorted(Before(), out) && multiset(out) == multiset(vs)
  {
    var a := new Verdict[|vs|](i requires 0 <= i < |vs| => vs[i]);
    assert a[..a.Length] == vs;
    SortCands(a, a.Length, Before());
    out := a[..a.Length];
  }

  /** The placement: an error of the store or of the gateway is the answer, else
      one verdict per host. */
  method Place(hosts: Option<seq<Host>>, needs: Needs, gateway: Option<string -> Lookup>) returns (answer: Answer)
    ensures answer.Failed? <==> hosts.None? || (needs.cluster != "" && gateway.Some? && gateway.value(needs.cluster).LookupFailed?)
    ensures answer.Ranked? && needs.cluster != "" && gateway.Some? ==>
              exists vs :: Placed(needs, gateway.value(needs.cluster).host, hosts.value, vs, answer.verdicts)
    ensures answer.Ranked? && (needs.cluster == "" || gateway.None?) ==>
              exists vs :: Placed(needs, None, hosts.value, vs, answer.verdicts)
  {
    if hosts.None? {
      return Failed;
    }
    var only: Option<int> := None;
    if needs.cluster != "" && gateway.Some? {
      var found := gateway.value(needs.cluster);
      if found.LookupFailed? {
        return Failed;
      }
      only := found.host;
    }
    var vs := JudgeAll(needs, only, hosts.value);
    var out := Rank(vs);
    assert Placed(needs, only, hosts.value, vs, out);
    return Ranked(out);
  }

  /** In a placement the fitting hosts come first, and the best score first. */
  lemma FittingFirst(needs: Needs, only: Option<int>, hosts: seq<Host>, vs: seq<Verdict>, out: seq<Verdict>, i: nat, j: nat)
    requires Placed(needs, only, hosts, vs, out) && i < j < |out|
    ensures out[j].fits ==> out[i].fits && out[i].score >= out[j].score
    ensures !out[i].fits ==> out[j].score == 0.0
  {
    assert !Before()(out[j], out[i]);
    var k := VerdictOf(needs, only, hosts, vs, out, j);
  }

  /** Every line is the verdict of some host. */
  lemma VerdictOf(needs: Needs, only: Option<int>, hosts: seq<Host>, vs: seq<Verdict>, out: seq<Verdict>, j: nat) returns (k: nat)
    requires Placed(needs, only, hosts, vs, out) && j < |out|
    ensures k < |hosts| && vs[k] == out[j] && IsVerdict(needs, only, hosts[k], out[j])
  {
    assert out[j] in multiset(vs);
    k :| 0 <= k < |vs| && vs[k] == out[j];
  }

  lemma CountOne<T>(s: seq<T>, i: nat)
    requires i < |s| && forall j :: 0 <= j < |s| && s[j] == s[i] ==> j == i
    ensures multiset(s)[s[i]] == 1
  {
    assert s == s[..i] + [s[i]] + s[i + 1..];
    assert s[i] !in s[..i] && s[i] !in s[i + 1..];
  }

  lemma CountTwo<T>(s: seq<T>, i: nat, j: nat)
    requires i < j < |s| && s[i] == s[j]
    ensures multiset(s)[s[i]] >= 2
  {
    assert s == s[..i + 1] + s[i + 1..];
    assert s[i] == s[..i + 1][i] && s[j] == s[i + 1..][j - i - 1];
    assert s[i] in multiset(s[..i + 1]) && s[i] in multiset(s[i + 1..]);
  }

  ghost predicate Distinct(hosts: seq<Host>) {
    forall i, j :: 0 <= i < j < |hosts| ==> hosts[i].id != hosts[j].id
  }

  ghost predicate OnlyLine(out: seq<Verdict>, id: int, i: nat) {
    i < |out| && out[i].host == id && forall j :: 0 <= j < |out| && out[j].host == id ==> j == i
  }

  /** Every host has exactly one line, and it is its verdict. */
  lemma OneLineEach(needs: Needs, only: Option<int>, hosts: seq<Host>, vs: seq<Verdict>, out: seq<Verdict>, k: nat) returns (i: nat)
    requires Placed(needs, only, hosts, vs, out) && Distinct(hosts) && k < |hosts|
    ensures |out| == |hosts|
    ensures OnlyLine(out, hosts[k].id, i) && IsVerdict(needs, only, hosts[k], out[i])
  {
    assert |multiset(out)| == |out| && |multiset(vs)| == |vs|;
    assert forall m :: 0 <= m < |hosts| ==> IsVerdict(needs, only, hosts[m], vs[m]) && vs[m].host == hosts[m].id;
    assert vs[k] in multiset(out);
    i :| 0 <= i < |out| && out[i] == vs[k];
    CountOne(vs, k);
    forall j | 0 <= j < |out| && out[j].host == hosts[k].id
      ensures j == i
    {
      var m := VerdictOf(needs, only, hosts, vs, out, j);
      assert m == k;
      if j < i {
        CountTwo(out, j, i);
      } else if i < j {
        CountTwo(out, i, j);
      }
    }
  }
}
