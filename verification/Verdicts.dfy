/** One host's line in a placement, hub/internal/apps/placement.go: which reason
    it gives, and what the score that orders the fitting hosts is made of. */
module Verdicts {
  import opened Sequences
  import opened Trend
  import opened Placement

  // ---------------------------------------------------------------- the reason

  /** Nothing of the tests wraps, and the requests are sizes. */
  ghost predicate Askable(needs: Needs, h: Host, free: int) {
    && needs.memoryMB >= 0 && needs.diskGB >= 0
    && 3 * needs.memoryMB * 0x10_0000 < 0x8000_0000_0000_0000 && 6 * needs.diskGB * 0x4000_0000 < 0x8000_0000_0000_0000
    && IsInt64(h.memTotal - h.memUsed) && IsInt64(free)
    && IsInt64(h.memTotal - h.memUsed - needs.memoryMB * 0x10_0000) && IsInt64(free - needs.diskGB * 0x4000_0000)
  }

  /** The eight reasons against a host, in the order they are looked at. */
  ghost predicate Against(needs: Needs, only: Option<int>, h: Host, free: int, trend: real, window: real, n: nat) {
    match n
    case 0 => only.Some? && h.id != only.value
    case 1 => h.status != "online"
    case 2 => !h.docker
    case 3 => needs.gpu && !h.gpu
    case 4 => h.cores < needs.cores
    case 5 => 2 * (h.memTotal - h.memUsed) < 3 * needs.memoryMB * 0x10_0000
    case 6 => 5 * free <= 6 * needs.diskGB * 0x4000_0000 - 5
    case 7 => trend < 0.0 && needs.diskGB > 0 && FillDays(free - needs.diskGB * 0x4000_0000, trend, window) < 30.0
    case _ => false
  }

  /** The line given for each. */
  ghost predicate Says(needs: Needs, h: Host, free: int, trend: real, window: real, n: nat, why: Why) {
    match n
    case 0 => why == OtherHost
    case 1 => why == Status(h.status)
    case 2 => why == NoDocker
    case 3 => why == NoGPU
    case 4 => why == FewCores(h.cores, needs.cores)
    case 5 => why.LittleMemory? && why.wantsMB == needs.memoryMB && Whole(why.freeMB, 0x10_0000, h.memTotal - h.memUsed)
    case 6 => why.LittleDisk? && why.wantsGB == needs.diskGB && Whole(why.freeGB, 0x4000_0000, free)
    case 7 => trend < 0.0 && why == Filling(FillSentence(free - needs.diskGB * 0x4000_0000, trend, window))
    case _ => false
  }

  /** So many whole units are in these bytes. */
  ghost predicate Whole(units: int, unit: int, bytes: int) {
    units * unit <= bytes < (units + 1) * unit
  }

  ghost predicate FirstAgainst(needs: Needs, only: Option<int>, h: Host, free: int, trend: real, window: real, n: nat) {
    Against(needs, only, h, free, trend, window, n)
    && forall m: nat :: m < n ==> !Against(needs, only, h, free, trend, window, m)
  }

  lemma Lines(needs: Needs, h: Host, free: int)
    requires Askable(needs, h, free)
    ensures NeedMemory(needs) == needs.memoryMB * 0x10_0000 && NeedDisk(needs) == needs.diskGB * 0x4000_0000
    ensures Available(h) == h.memTotal - h.memUsed
    ensures Available(h) < MemoryLine(needs) <==> 2 * (h.memTotal - h.memUsed) < 3 * needs.memoryMB * 0x10_0000
    ensures free < DiskLine(needs) <==> 5 * free <= 6 * needs.diskGB * 0x4000_0000 - 5
  {
    Exact(needs.memoryMB * 0x10_0000);
    Exact(needs.diskGB * 0x4000_0000);
    Exact(h.memTotal - h.memUsed);
    Exact(3 * needs.memoryMB * 0x10_0000);
    Exact(6 * needs.diskGB * 0x4000_0000);
  }

  /** A host that does not fit is given the first reason against it. */
  lemma FirstReason(needs: Needs, only: Option<int>, h: Host, free: int, trend: real, window: real, n: nat)
    requires Askable(needs, h, free)
    requires FirstAgainst(needs, only, h, free, trend, window, n)
    ensures !Judge(needs, only, h, free, trend, window).fits
    ensures Says(needs, h, free, trend, window, n, Judge(needs, only, h, free, trend, window).why)
  {
    Lines(needs, h, free);
    Exact(free - needs.diskGB * 0x4000_0000);
    var f := (m: nat) => Against(needs, only, h, free, trend, window, m);
    assert forall m: nat :: m < n ==> !f(m);
    assert n >= 1 ==> !f(0);
    assert n >= 2 ==> !f(1);
    assert n >= 3 ==> !f(2);
    assert n >= 4 ==> !f(3);
    assert n >= 5 ==> !f(4);
    assert n >= 6 ==> !f(5);
    assert n >= 7 ==> !f(6);
  }

  /** A host with none against it fits, and the line says what it keeps. */
  lemma NoReason(needs: Needs, only: Option<int>, h: Host, free: int, trend: real, window: real)
    requires Askable(needs, h, free)
    requires forall n: nat :: n < 8 ==> !Against(needs, only, h, free, trend, window, n)
    ensures var v := Judge(needs, only, h, free, trend, window);
            && v.fits && v.why.Leaves?
            && Whole(v.why.memoryMB, 0x10_0000, h.memTotal - h.memUsed - needs.memoryMB * 0x10_0000)
            && Whole(v.why.diskGB, 0x4000_0000, free - needs.diskGB * 0x4000_0000)
            && (v.why.rate.Some? <==> trend < 0.0)
            && (trend < 0.0 ==> v.why.rate.value * 0x10_0000 <= (0.0 - trend).Floor < (v.why.rate.value + 1) * 0x10_0000)
            && (v.why.withGPU <==> h.gpu && needs.gpu)
  {
    Lines(needs, h, free);
    Exact(h.memTotal - h.memUsed - needs.memoryMB * 0x10_0000);
    Exact(free - needs.diskGB * 0x4000_0000);
    var f := (m: nat) => Against(needs, only, h, free, trend, window, m);
    assert !f(0) && !f(1) && !f(2) && !f(3) && !f(4) && !f(5) && !f(6) && !f(7);
    if trend < 0.0 {
      RateInMB(trend);
    }
  }

  /** The free bytes looked at are those of the last mount on "/". */
  lemma {:induction false} RootIsLast(mounts: seq<Mount>)
    ensures (forall i :: 0 <= i < |mounts| ==> mounts[i].path != "/") ==> RootFree(mounts) == 0
    ensures forall i :: 0 <= i < |mounts| && mounts[i].path == "/" && (forall j :: i < j < |mounts| ==> mounts[j].path != "/")
              ==> RootFree(mounts) == mounts[i].free
    decreases |mounts|
  {
    if mounts != [] {
      RootIsLast(Init(mounts));
    }
  }

  lemma Exact(x: int)
    requires IsInt64(x)
    ensures Int64(x) == x
  {
  }

  // ---------------------------------------------------------------- the score

  /** No figure of the score wraps and nothing is divided by zero. */
  ghost predicate InRange(needs: Needs, h: Host, free: int) {
    && IsInt64(needs.memoryMB * 0x10_0000) && IsInt64(needs.diskGB * 0x4000_0000)
    && IsInt64(h.memTotal - h.memUsed) && IsInt64(h.memTotal - h.memUsed - needs.memoryMB * 0x10_0000)
    && IsInt64(free - needs.diskGB * 0x4000_0000) && IsInt64(h.cores - needs.cores)
    && 0 < h.memTotal + 1 < 0x8000_0000_0000_0000 && 0 < h.cores + 1 < 0x8000_0000_0000_0000
    && 0 < free + needs.diskGB * 0x4000_0000 + 1 < 0x8000_0000_0000_0000
  }

  /** Sizes are sizes. */
  ghost predicate Sized(needs: Needs, h: Host, free: int) {
    InRange(needs, h, free) && needs.memoryMB >= 0 && needs.diskGB >= 0 && needs.cores >= 0
    && h.memUsed >= 0 && h.load >= 0.0
  }

  function Share(n: int, d: int): real
    requires d > 0
  {
    n as real / d as real
  }

  lemma OverIsShare(n: int, d: int)
    requires d > 0
    ensures Over(n as real, d) == Share(n, d)
  {
  }

  lemma FittedScore(needs: Needs, only: Option<int>, h: Host, free: int, trend: real, window: real)
    requires Judge(needs, only, h, free, trend, window).fits
    ensures Judge(needs, only, h, free, trend, window).score == Score(needs, h, free, trend)
  {
  }

  lemma MemoryTerm(needs: Needs, h: Host, free: int)
    requires InRange(needs, h, free)
    ensures Over(Int64(Available(h) - NeedMemory(needs)) as real, Int64(h.memTotal + 1))
         == Share(h.memTotal - h.memUsed - needs.memoryMB * 0x10_0000, h.memTotal + 1)
  {
    Exact(needs.memoryMB * 0x10_0000);
    Exact(h.memTotal - h.memUsed);
    Exact(h.memTotal - h.memUsed - needs.memoryMB * 0x10_0000);
    Exact(h.memTotal + 1);
  }

  lemma DiskTerm(needs: Needs, h: Host, free: int)
    requires InRange(needs, h, free)
    ensures Over(Int64(free - NeedDisk(needs)) as real, Int64(free + NeedDisk(needs) + 1))
         == Share(free - needs.diskGB * 0x4000_0000, free + needs.diskGB * 0x4000_0000 + 1)
  {
    Exact(needs.diskGB * 0x4000_0000);
    Exact(free - needs.diskGB * 0x4000_0000);
    Exact(free + needs.diskGB * 0x4000_0000 + 1);
  }

  lemma CoreTerms(needs: Needs, h: Host, free: int)
    requires InRange(needs, h, free)
    ensures Over(Int64(h.cores - needs.cores) as real, Int64(h.cores + 1)) == Share(h.cores - needs.cores, h.cores + 1)
    ensures Over(h.load, Int64(h.cores + 1)) == h.load / (h.cores + 1) as real
  {
    Exact(h.cores - needs.cores);
    Exact(h.cores + 1);
  }

  /** The shares of memory, disk and cores the stack would leave, the load a core
      and the disk's direction, in the weights of the source. */
  lemma ScoreTerms(needs: Needs, only: Option<int>, h: Host, free: int, trend: real, window: real)
    requires InRange(needs, h, free) && Judge(needs, only, h, free, trend, window).fits
    ensures Judge(needs, only, h, free, trend, window).score
         == 0.4 * Share(h.memTotal - h.memUsed - needs.memoryMB * 0x10_0000, h.memTotal + 1)
          + 0.35 * Share(free - needs.diskGB * 0x4000_0000, free + needs.diskGB * 0x4000_0000 + 1)
          + 0.15 * Share(h.cores - needs.cores, h.cores + 1)
          - 0.1 * (h.load / (h.cores + 1) as real)
          - if trend < 0.0 then 0.2 else 0.0
  {
    FittedScore(needs, only, h, free, trend, window);
    MemoryTerm(needs, h, free);
    DiskTerm(needs, h, free);
    CoreTerms(needs, h, free);
    var m := Share(h.memTotal - h.memUsed - needs.memoryMB * 0x10_0000, h.memTotal + 1);
    var d := Share(free - needs.diskGB * 0x4000_0000, free + needs.diskGB * 0x4000_0000 + 1);
    var c := Share(h.cores - needs.cores, h.cores + 1);
    assert Score(needs, h, free, trend)
        == 0.4 * m + 0.35 * d + 0.15 * c - 0.1 * (h.load / (h.cores + 1) as real) - if trend < 0.0 then 0.2 else 0.0;
  }

  lemma RatioOrder(n: real, d: real, n': real, d': real)
    requires d > 0.0 && d' > 0.0
    ensures n / d < n' / d' <==> Times(n, d') < Times(n', d)
  {
    var p, q := n / d, n' / d';
    assert Times(n, d') == Times(p, d * d') && Times(n', d) == Times(q, d * d');
    PositiveFactor(p, q, d * d');
  }

  lemma ShareOrder(n: int, d: int, n': int, d': int)
    requires d > 0 && d' > 0
    ensures Share(n, d) < Share(n', d') <==> n * d' < n' * d
  {
    RatioOrder(n as real, d as real, n' as real, d' as real);
    assert Times(n as real, d' as real) == (n * d') as real && Times(n' as real, d as real) == (n' * d) as real;
  }

  /** Cross-multiplied, so that nothing is rounded. */
  ghost predicate LargerShare(need: int, h: Host, h': Host) {
    (h.memTotal - h.memUsed - need) * (h'.memTotal + 1) < (h'.memTotal - h'.memUsed - need) * (h.memTotal + 1)
  }

  /** Of two hosts that differ in their memory alone, the better is the one that
      keeps the larger share of it free. */
  lemma MemoryOrder(needs: Needs, only: Option<int>, h: Host, h': Host, free: int, trend: real, window: real)
    requires InRange(needs, h, free) && Judge(needs, only, h, free, trend, window).fits
    requires InRange(needs, h', free) && Judge(needs, only, h', free, trend, window).fits
    requires h' == h.(id := h'.id, memTotal := h'.memTotal, memUsed := h'.memUsed)
    ensures Judge(needs, only, h, free, trend, window).score < Judge(needs, only, h', free, trend, window).score
       <==> LargerShare(needs.memoryMB * 0x10_0000, h, h')
  {
    var need := needs.memoryMB * 0x10_0000;
    var a, b := Share(h.memTotal - h.memUsed - need, h.memTotal + 1), Share(h'.memTotal - h'.memUsed - need, h'.memTotal + 1);
    assert Judge(needs, only, h', free, trend, window).score - Judge(needs, only, h, free, trend, window).score == 0.4 * (b - a) by {
      ScoreTerms(needs, only, h, free, trend, window);
      ScoreTerms(needs, only, h', free, trend, window);
    }
    ShareOrder(h.memTotal - h.memUsed - need, h.memTotal + 1, h'.memTotal - h'.memUsed - need, h'.memTotal + 1);
  }

  lemma Rises(t: int, u: int, t': int, u': int, need: int)
    requires 0 <= t <= t' && 0 <= u' <= u && need >= 0 && (t < t' || u' < u)
    ensures (t - u - need) * (t' + 1) < (t' - u' - need) * (t + 1)
  {
    assert (t' - u' - need) * (t + 1) - (t - u - need) * (t' + 1)
        == (u + need + 1) * (t' - t) + (u - u') * (t + 1);
    assert (u + need + 1) * (t' - t) >= t' - t;
    assert (u - u') * (t + 1) >= u - u';
  }

  /** More memory, or less of it in use, makes a better host. */
  lemma MoreMemory(needs: Needs, only: Option<int>, h: Host, h': Host, free: int, trend: real, window: real)
    requires Sized(needs, h, free) && Judge(needs, only, h, free, trend, window).fits
    requires Sized(needs, h', free) && Judge(needs, only, h', free, trend, window).fits
    requires h' == h.(id := h'.id, memTotal := h'.memTotal, memUsed := h'.memUsed)
    requires h.memTotal <= h'.memTotal && h'.memUsed <= h.memUsed && (h.memTotal < h'.memTotal || h'.memUsed < h.memUsed)
    ensures Judge(needs, only, h, free, trend, window).score < Judge(needs, only, h', free, trend, window).score
  {
    MemoryOrder(needs, only, h, h', free, trend, window);
    Rises(h.memTotal, h.memUsed, h'.memTotal, h'.memUsed, needs.memoryMB * 0x10_0000);
  }

  lemma FitsUnasked(needs: Needs, h: Host)
    requires needs == Needs(1, 0, 0, false, "") && h.status == "online" && h.docker && h.cores == 4
    requires 0 <= h.memTotal - h.memUsed < 0x8000_0000_0000_0000
    ensures Judge(needs, None, h, 0, 0.0, 0.0).fits
  {
    Exact(h.memTotal - h.memUsed);
    Exact(0);
    assert MemoryLine(needs) == 0 && DiskLine(needs) == 0;
  }

  /** More bytes available are not enough: 96 GiB of 128 score less than 60 of 64. */
  lemma MoreAvailableMayScoreLess() returns (needs: Needs, h: Host, h': Host)
    ensures h' == h.(memTotal := h'.memTotal, memUsed := h'.memUsed)
    ensures h.memTotal - h.memUsed == 60 * 0x4000_0000 && h'.memTotal - h'.memUsed == 96 * 0x4000_0000
    ensures Judge(needs, None, h, 0, 0.0, 0.0).fits && Judge(needs, None, h', 0, 0.0, 0.0).fits
    ensures Judge(needs, None, h, 0, 0.0, 0.0).score > Judge(needs, None, h', 0, 0.0, 0.0).score
  {
    needs := Needs(1, 0, 0, false, "");
    h := Host(1, "online", 4, 0x10_0000_0000, 0x1_0000_0000, 0.0, [], false, true, []);
    h' := h.(memTotal := 0x20_0000_0000, memUsed := 0x8_0000_0000);
    FitsUnasked(needs, h);
    FitsUnasked(needs, h');
    assert LargerShare(0, h', h);
    MemoryOrder(needs, None, h', h, 0, 0.0, 0.0);
  }

  /** More room on the root mount makes a better host. */
  lemma MoreDisk(needs: Needs, only: Option<int>, h: Host, free: int, free': int, trend: real, window: real)
    requires Sized(needs, h, free) && Judge(needs, only, h, free, trend, window).fits
    requires Sized(needs, h, free') && Judge(needs, only, h, free', trend, window).fits
    requires free < free'
    ensures Judge(needs, only, h, free, trend, window).score < Judge(needs, only, h, free', trend, window).score
  {
    ScoreTerms(needs, only, h, free, trend, window);
    ScoreTerms(needs, only, h, free', trend, window);
    DiskRises(free, free', needs.diskGB * 0x4000_0000);
  }

  lemma DiskRises(free: int, free': int, need: int)
    requires need >= 0 && free < free' && free + need + 1 > 0
    ensures Share(free - need, free + need + 1) < Share(free' - need, free' + need + 1)
  {
    ShareOrder(free - need, free + need + 1, free' - need, free' + need + 1);
    assert (free' - need) * (free + need + 1) - (free - need) * (free' + need + 1) == (2 * need + 1) * (free' - free);
    assert (2 * need + 1) * (free' - free) >= free' - free;
  }

  lemma CoresRise(cores: int, cores': int, need: int)
    requires need >= 0 && 0 < cores + 1 && cores < cores'
    ensures Share(cores - need, cores + 1) < Share(cores' - need, cores' + 1)
  {
    ShareOrder(cores - need, cores + 1, cores' - need, cores' + 1);
    assert (cores' - need) * (cores + 1) - (cores - need) * (cores' + 1) == (need + 1) * (cores' - cores);
    assert (need + 1) * (cores' - cores) >= cores' - cores;
  }

  lemma LoadOrder(load: real, load': real, d: int, d': int)
    requires 0 < d && 0 < d' && 0.0 <= load && 0.0 <= load'
    ensures d == d' && load < load' ==> load / d as real < load' / d' as real
    ensures d <= d' && load == load' ==> load / d as real >= load' / d' as real
  {
    RatioOrder(load, d as real, load', d' as real);
    if d == d' {
      PositiveFactor(load, load', d as real);
    }
    if d <= d' && load == load' {
      assert load * (d' as real - d as real) >= 0.0;
    }
  }

  /** More cores make a better host. */
  lemma MoreCores(needs: Needs, only: Option<int>, h: Host, h': Host, free: int, trend: real, window: real)
    requires Sized(needs, h, free) && Judge(needs, only, h, free, trend, window).fits
    requires Sized(needs, h', free) && Judge(needs, only, h', free, trend, window).fits
    requires h' == h.(id := h'.id, cores := h'.cores) && h.cores < h'.cores
    ensures Judge(needs, only, h, free, trend, window).score < Judge(needs, only, h', free, trend, window).score
  {
    ScoreTerms(needs, only, h, free, trend, window);
    ScoreTerms(needs, only, h', free, trend, window);
    CoresRise(h.cores, h'.cores, needs.cores);
    LoadOrder(h.load, h'.load, h.cores + 1, h'.cores + 1);
  }

  /** More load makes a worse one. */
  lemma MoreLoad(needs: Needs, only: Option<int>, h: Host, h': Host, free: int, trend: real, window: real)
    requires Sized(needs, h, free) && Judge(needs, only, h, free, trend, window).fits
    requires Sized(needs, h', free) && Judge(needs, only, h', free, trend, window).fits
    requires h' == h.(id := h'.id, load := h'.load) && h.load < h'.load
    ensures Judge(needs, only, h, free, trend, window).score > Judge(needs, only, h', free, trend, window).score
  {
    ScoreTerms(needs, only, h, free, trend, window);
    ScoreTerms(needs, only, h', free, trend, window);
    LoadOrder(h.load, h'.load, h.cores + 1, h'.cores + 1);
  }

  /** A falling trend costs a fitting host a fifth of a point, however steep. */
  lemma FallingCosts(needs: Needs, only: Option<int>, h: Host, free: int, trend: real, window: real, trend': real, window': real)
    requires trend < 0.0 <= trend'
    requires Judge(needs, only, h, free, trend, window).fits
    ensures Judge(needs, only, h, free, trend', window').fits
    ensures Judge(needs, only, h, free, trend, window).score == Judge(needs, only, h, free, trend', window').score - 0.2
  {
  }
}
