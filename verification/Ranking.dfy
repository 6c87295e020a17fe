/** Ranking peers: the decayed record of hub/internal/store/peers.go and the
    order hub/internal/peers/peers.go asks them in.  float64 is modelled as real,
    and a row's weight, half for every two days of age, is given. */
module Ranking {
  import opened Sequences
  import opened Sorting

  // ---------------------------------------------------------------- the record

  /** A sent job of the last week: its weight, how it ended, and the time to the
      first token when one was recorded. */
  datatype Job = Job(weight: real, accepted: bool, finished: bool, ttft: Option<nat>)

  ghost predicate Weighed(jobs: seq<Job>) {
    forall i :: 0 <= i < |jobs| ==> jobs[i].weight > 0.0
  }

  datatype Sample = Sample(ms: real, weight: real)

  datatype Record = Record(accepted: real, finished: real, medianTTFT: real, samples: nat)

  /** The weight of the samples that pass. */
  function Weight(samples: seq<Sample>, keep: Sample -> bool): real {
    if samples == [] then 0.0 else Weight(Init(samples), keep) + if keep(Last(samples)) then Last(samples).weight else 0.0
  }

  function Below(ms: real): Sample -> bool { (x: Sample) => x.ms < ms }
  function UpTo(ms: real): Sample -> bool { (x: Sample) => x.ms <= ms }
  function Any(): Sample -> bool { (x: Sample) => true }

  ghost predicate Positive(samples: seq<Sample>) {
    forall i :: 0 <= i < |samples| ==> samples[i].weight > 0.0
  }

  /** Under half the weight is strictly below it, at least half at or below. */
  ghost predicate IsWeightedMedian(samples: seq<Sample>, ms: real) {
    && Weight(samples, Below(ms)) < Weight(samples, Any()) / 2.0
    && Weight(samples, UpTo(ms)) >= Weight(samples, Any()) / 2.0
  }

  lemma {:induction false} WeightAppend(a: seq<Sample>, b: seq<Sample>, keep: Sample -> bool)
    ensures Weight(a + b, keep) == Weight(a, keep) + Weight(b, keep)
    decreases |b|
  {
    if b == [] {
      assert a + b == a;
    } else {
      assert Init(a + b) == a + Init(b) && Last(a + b) == Last(b);
      WeightAppend(a, Init(b), keep);
    }
  }

  lemma WeightOfOne(x: Sample, keep: Sample -> bool)
    ensures Weight([x], keep) == if keep(x) then x.weight else 0.0
  {
    assert Init([x]) == [];
  }

  /** The order of the samples does not matter. */
  lemma {:induction false} WeightIsOrderFree(a: seq<Sample>, b: seq<Sample>, keep: Sample -> bool)
    requires multiset(a) == multiset(b)
    ensures Weight(a, keep) == Weight(b, keep)
    decreases |a|
  {
    assert |multiset(a)| == |a| && |multiset(b)| == |b|;
    if a != [] {
      var x := Last(a);
      assert a == Init(a) + [x];
      assert x in multiset(b);
      var i :| 0 <= i < |b| && b[i] == x;
      assert b == b[..i] + [x] + b[i + 1..];
      assert multiset(Init(a)) == multiset(a) - multiset{x};
      assert multiset(b[..i] + b[i + 1..]) == multiset(b) - multiset{x};
      WeightIsOrderFree(Init(a), b[..i] + b[i + 1..], keep);
      WeightAppend(b[..i], b[i + 1..], keep);
      WeightAppend(b[..i], [x], keep);
      WeightAppend(b[..i] + [x], b[i + 1..], keep);
      WeightOfOne(x, keep);
    }
  }

  lemma {:induction false} WeightIsPositive(samples: seq<Sample>, keep: Sample -> bool)
    requires Positive(samples)
    ensures Weight(samples, keep) >= 0.0
    ensures samples != [] ==> Weight(samples, Any()) > 0.0
    decreases |samples|
  {
    if samples != [] {
      WeightIsPositive(Init(samples), keep);
      if |samples| > 1 {
        WeightIsPositive(Init(samples), Any());
      }
    }
  }

  lemma {:induction false} WeightAll(samples: seq<Sample>, keep: Sample -> bool)
    requires forall i :: 0 <= i < |samples| ==> keep(samples[i])
    ensures Weight(samples, keep) == Weight(samples, Any())
    decreases |samples|
  {
    if samples != [] {
      WeightAll(Init(samples), keep);
    }
  }

  lemma {:induction false} WeightNone(samples: seq<Sample>, keep: Sample -> bool)
    requires forall i :: 0 <= i < |samples| ==> !keep(samples[i])
    ensures Weight(samples, keep) == 0.0
    decreases |samples|
  {
    if samples != [] {
      WeightNone(Init(samples), keep);
    }
  }

  lemma {:induction false} WeightAtMost(samples: seq<Sample>, keep: Sample -> bool, more: Sample -> bool)
    requires Positive(samples) && forall i :: 0 <= i < |samples| && keep(samples[i]) ==> more(samples[i])
    ensures Weight(samples, keep) <= Weight(samples, more)
    decreases |samples|
  {
    if samples != [] {
      WeightAtMost(Init(samples), keep, more);
    }
  }

  function ByTime(): (Sample, Sample) -> bool {
    (x: Sample, y: Sample) => x.ms < y.ms
  }

  lemma TimeIsStrictWeak()
    ensures StrictWeak(ByTime())
  {
  }

  lemma BelowCrossing(samples: seq<Sample>, k: nat)
    requires Positive(samples) && k < |samples|
    requires forall i :: k <= i < |samples| ==> samples[k].ms <= samples[i].ms
    ensures Weight(samples, Below(samples[k].ms)) <= Weight(samples[..k], Any())
  {
    var keep := Below(samples[k].ms);
    assert samples == samples[..k] + samples[k..];
    WeightAppend(samples[..k], samples[k..], keep);
    WeightNone(samples[k..], keep);
    WeightAtMost(samples[..k], keep, Any());
  }

  lemma UpToCrossing(samples: seq<Sample>, k: nat)
    requires Positive(samples) && k < |samples|
    requires forall i :: 0 <= i <= k ==> samples[i].ms <= samples[k].ms
    ensures Weight(samples, UpTo(samples[k].ms)) >= Weight(samples[..k + 1], Any())
  {
    var keep := UpTo(samples[k].ms);
    assert samples == samples[..k + 1] + samples[k + 1..];
    WeightAppend(samples[..k + 1], samples[k + 1..], keep);
    WeightAll(samples[..k + 1], keep);
    WeightIsPositive(samples[k + 1..], keep);
  }

  /** Where the running sum of a sorted list first reaches half the weight is a
      weighted median. */
  lemma CrossingIsMedian(samples: seq<Sample>, k: nat)
    requires Positive(samples) && Sorted(ByTime(), samples) && k < |samples|
    requires Weight(samples[..k], Any()) < Weight(samples, Any()) / 2.0 <= Weight(samples[..k + 1], Any())
    ensures IsWeightedMedian(samples, samples[k].ms)
  {
    assert forall i, j :: 0 <= i < j < |samples| ==> !ByTime()(samples[j], samples[i]);
    BelowCrossing(samples, k);
    UpToCrossing(samples, k);
  }

  /** The median of a list is the median of any rearrangement of it. */
  lemma MedianIsOrderFree(a: seq<Sample>, b: seq<Sample>, ms: real)
    requires multiset(a) == multiset(b) && IsWeightedMedian(a, ms)
    ensures IsWeightedMedian(b, ms)
  {
    WeightIsOrderFree(a, b, Below(ms));
    WeightIsOrderFree(a, b, UpTo(ms));
    WeightIsOrderFree(a, b, Any());
  }

  lemma PositiveIsOrderFree(a: seq<Sample>, b: seq<Sample>)
    requires multiset(a) == multiset(b) && Positive(a)
    ensures Positive(b)
  {
    forall i | 0 <= i < |b|
      ensures b[i].weight > 0.0
    {
      assert b[i] in multiset(a);
      var j :| 0 <= j < |a| && a[j] == b[i];
    }
  }

  lemma WeightUpToNext(samples: seq<Sample>, k: nat)
    requires k < |samples|
    ensures Weight(samples[..k + 1], Any()) == Weight(samples[..k], Any()) + samples[k].weight
  {
    assert Init(samples[..k + 1]) == samples[..k];
  }

  /** Sort by time and walk to the middle of the weight. */
  method WeightedMedian(ttfts: seq<Sample>) returns (ms: real)
    requires ttfts != [] && Positive(ttfts)
    ensures IsWeightedMedian(ttfts, ms) && exists i :: 0 <= i < |ttfts| && ttfts[i].ms == ms
  {
    var a := new Sample[|ttfts|](i requires 0 <= i < |ttfts| => ttfts[i]);
    assert a[..a.Length] == ttfts;
    TimeIsStrictWeak();
    SortCands(a, a.Length, ByTime());
    var sorted := a[..a.Length];
    assert multiset(sorted) == multiset(ttfts);
    PositiveIsOrderFree(ttfts, sorted);
    var total, i := 0.0, 0;
    while i < |sorted|
      invariant 0 <= i <= |sorted| && total == Weight(sorted[..i], Any())
    {
      WeightUpToNext(sorted, i);
      total := total + sorted[i].weight;
      i := i + 1;
    }
    assert sorted[..|sorted|] == sorted;
    WeightIsPositive(sorted, Any());
    var acc, k := 0.0, 0;
    while true
      invariant 0 <= k < |sorted| && acc == Weight(sorted[..k], Any()) < total / 2.0
      decreases |sorted| - k
    {
      WeightUpToNext(sorted, k);
      acc := acc + sorted[k].weight;
      if acc >= total / 2.0 {
        CrossingIsMedian(sorted, k);
        MedianIsOrderFree(sorted, ttfts, sorted[k].ms);
        assert sorted[k] in multiset(ttfts);
        return sorted[k].ms;
      }
      k := k + 1;
      if k == |sorted| {
        assert false;
      }
    }
  }

  /** The weight of the jobs that pass, and the samples of the accepted ones. */
  function JobWeight(jobs: seq<Job>, keep: Job -> bool): real {
    if jobs == [] then 0.0 else JobWeight(Init(jobs), keep) + if keep(Last(jobs)) then Last(jobs).weight else 0.0
  }

  function Sent(): Job -> bool { (j: Job) => true }
  function Accepted(): Job -> bool { (j: Job) => j.accepted }
  function Finished(): Job -> bool { (j: Job) => j.accepted && j.finished }

  function Samples(jobs: seq<Job>): seq<Sample> {
    if jobs == [] then []
    else
      var j := Last(jobs);
      Samples(Init(jobs)) + if j.accepted && j.ttft.Some? then [Sample(j.ttft.value as real, j.weight)] else []
  }

  function Share(part: real, whole: real): real {
    if whole > 0.0 then part / whole else 0.0
  }

  ghost predicate IsRecord(jobs: seq<Job>, r: Record) {
    && r.accepted == Share(JobWeight(jobs, Accepted()), JobWeight(jobs, Sent()))
    && r.finished == Share(JobWeight(jobs, Finished()), JobWeight(jobs, Accepted()))
    && r.samples == |Samples(jobs)|
    && (Samples(jobs) == [] ==> r.medianTTFT == 0.0)
    && (Samples(jobs) != [] ==> IsWeightedMedian(Samples(jobs), r.medianTTFT))
    && r.medianTTFT >= 0.0
  }

  lemma {:induction false} SamplesAreGood(jobs: seq<Job>)
    requires Weighed(jobs)
    ensures forall i :: 0 <= i < |Samples(jobs)| ==> Samples(jobs)[i].weight > 0.0 && Samples(jobs)[i].ms >= 0.0
  {
    if jobs != [] {
      SamplesAreGood(Init(jobs));
    }
  }

  method PeerRecord(jobs: seq<Job>) returns (r: Record)
    requires Weighed(jobs)
    ensures IsRecord(jobs, r)
  {
    var wAll, wAcc, wFin := 0.0, 0.0, 0.0;
    var ttfts: seq<Sample> := [];
    var i := 0;
    while i < |jobs|
      invariant 0 <= i <= |jobs|
      invariant wAll == JobWeight(jobs[..i], Sent()) && wAcc == JobWeight(jobs[..i], Accepted())
      invariant wFin == JobWeight(jobs[..i], Finished())
      invariant ttfts == Samples(jobs[..i])
    {
      var j := jobs[i];
      assert Init(jobs[..i + 1]) == jobs[..i] && Last(jobs[..i + 1]) == j;
      wAll := wAll + j.weight;
      if j.accepted {
        wAcc := wAcc + j.weight;
        if j.finished {
          wFin := wFin + j.weight;
        }
        if j.ttft.Some? {
          ttfts := ttfts + [Sample(j.ttft.value as real, j.weight)];
        }
      }
      i := i + 1;
    }
    assert jobs[..i] == jobs;
    SamplesAreGood(jobs);
    r := Record(0.0, 0.0, 0.0, |ttfts|);
    if wAll > 0.0 {
      r := r.(accepted := wAcc / wAll);
    }
    if wAcc > 0.0 {
      r := r.(finished := wFin / wAcc);
    }
    if |ttfts| > 0 {
      var ms := WeightedMedian(ttfts);
      r := r.(medianTTFT := ms);
    }
  }

  // ---------------------------------------------------------------- the score

  /** A peer with no record is worth trying. */
  function Score(r: Record): real
    requires r.medianTTFT >= 0.0
  {
    if r.samples > 0 || r.accepted > 0.0 then
      0.5 * r.accepted + 0.3 * r.finished + 0.2 / (1.0 + r.medianTTFT / 2000.0)
    else 1.0
  }

  lemma {:induction false} JobWeights(jobs: seq<Job>)
    requires Weighed(jobs)
    ensures 0.0 <= JobWeight(jobs, Finished()) <= JobWeight(jobs, Accepted()) <= JobWeight(jobs, Sent())
    ensures JobWeight(jobs, Accepted()) > 0.0 <==> exists i :: 0 <= i < |jobs| && jobs[i].accepted
    ensures Samples(jobs) != [] ==> JobWeight(jobs, Accepted()) > 0.0
    decreases |jobs|
  {
    if jobs != [] {
      JobWeights(Init(jobs));
      if Last(jobs).accepted {
        assert jobs[|jobs| - 1].accepted;
      }
      if i :| 0 <= i < |Init(jobs)| && Init(jobs)[i].accepted {
        assert jobs[i].accepted;
      }
    }
  }

  lemma Quotient(part: real, whole: real, q: real)
    requires 0.0 <= part <= whole && whole > 0.0 && q == part / whole
    ensures 0.0 <= q <= 1.0 && (part > 0.0 ==> q > 0.0) && (q == 1.0 <==> part == whole)
  {
    assert q * whole == part;
    if q > 1.0 {
      assert (q - 1.0) * whole > 0.0;
    }
  }

  lemma ShareInRange(part: real, whole: real)
    requires 0.0 <= part <= whole
    ensures 0.0 <= Share(part, whole) <= 1.0
    ensures part > 0.0 ==> Share(part, whole) > 0.0
    ensures whole > 0.0 ==> (Share(part, whole) == 1.0 <==> part == whole)
  {
    if whole > 0.0 {
      Quotient(part, whole, part / whole);
    }
  }

  lemma SpeedInRange(ms: real)
    requires ms >= 0.0
    ensures 0.0 < 0.2 / (1.0 + ms / 2000.0) <= 0.2
    ensures 0.2 / (1.0 + ms / 2000.0) == 0.2 <==> ms == 0.0
  {
  }

  /** Which jobs each share is of. */
  ghost predicate Picks(sent: Job -> bool, accepted: Job -> bool, finished: Job -> bool) {
    forall j: Job :: sent(j) && accepted(j) == j.accepted && finished(j) == (j.accepted && j.finished)
  }

  lemma {:induction false} SameWeight(jobs: seq<Job>, keep: Job -> bool, other: Job -> bool)
    requires forall j :: keep(j) == other(j)
    ensures JobWeight(jobs, keep) == JobWeight(jobs, other)
    decreases |jobs|
  {
    if jobs != [] {
      SameWeight(Init(jobs), keep, other);
    }
  }

  lemma Speed(ms: real)
    requires ms >= 0.0
    ensures 0.2 / (1.0 + ms / 2000.0) == 400.0 / (2000.0 + ms)
  {
    var d := 1.0 + ms / 2000.0;
    assert d * 2000.0 == 2000.0 + ms;
    assert 0.2 / d == 400.0 / (d * 2000.0);
  }

  lemma ScoreIs(r: Record)
    requires r.medianTTFT >= 0.0 && r.accepted > 0.0
    ensures Score(r) == 0.5 * r.accepted + 0.3 * r.finished + 400.0 / (2000.0 + r.medianTTFT)
  {
    Speed(r.medianTTFT);
  }

  lemma SharesAre(jobs: seq<Job>, r: Record, sent: Job -> bool, accepted: Job -> bool, finished: Job -> bool)
    requires Weighed(jobs) && IsRecord(jobs, r) && Picks(sent, accepted, finished)
    requires exists i :: 0 <= i < |jobs| && jobs[i].accepted
    ensures 0.0 < JobWeight(jobs, accepted) <= JobWeight(jobs, sent) && r.accepted > 0.0
    ensures r.accepted == JobWeight(jobs, accepted) / JobWeight(jobs, sent)
    ensures r.finished == JobWeight(jobs, finished) / JobWeight(jobs, accepted)
  {
    SameWeight(jobs, sent, Sent());
    SameWeight(jobs, accepted, Accepted());
    SameWeight(jobs, finished, Finished());
    JobWeights(jobs);
    ShareInRange(JobWeight(jobs, Accepted()), JobWeight(jobs, Sent()));
  }

  /** What the score of a peer that accepted something is made of: half the share
      of its jobs it accepted, three tenths of the share of those it finished, and
      a fifth that halves when the median wait reaches two seconds. */
  lemma ScoreTerms(jobs: seq<Job>, r: Record, sent: Job -> bool, accepted: Job -> bool, finished: Job -> bool)
    requires Weighed(jobs) && IsRecord(jobs, r) && Picks(sent, accepted, finished)
    requires exists i :: 0 <= i < |jobs| && jobs[i].accepted
    ensures 0.0 < JobWeight(jobs, accepted) <= JobWeight(jobs, sent)
    ensures r.accepted == JobWeight(jobs, accepted) / JobWeight(jobs, sent)
    ensures r.finished == JobWeight(jobs, finished) / JobWeight(jobs, accepted)
    ensures Score(r) == 0.5 * r.accepted + 0.3 * r.finished + 400.0 / (2000.0 + r.medianTTFT)
  {
    SharesAre(jobs, r, sent, accepted, finished);
    ScoreIs(r);
  }

  ghost predicate SampleOf(j: Job, x: Sample) {
    j.accepted && j.ttft.Some? && x.ms == j.ttft.value as real && x.weight == j.weight
  }

  /** The median is over the waits of the accepted jobs that have one, each with
      the weight of its job. */
  lemma {:induction false} SamplesAre(jobs: seq<Job>, x: Sample)
    ensures x in Samples(jobs) <==> SomeSample(jobs, x)
    decreases |jobs|
  {
    if jobs != [] {
      SamplesAre(Init(jobs), x);
      SomeSampleSnoc(Init(jobs), Last(jobs), x);
      assert Init(jobs) + [Last(jobs)] == jobs;
    }
  }

  ghost predicate SomeSample(jobs: seq<Job>, x: Sample) {
    exists i :: 0 <= i < |jobs| && SampleOf(jobs[i], x)
  }

  lemma SomeSampleSnoc(jobs: seq<Job>, j: Job, x: Sample)
    ensures SomeSample(jobs + [j], x) <==> SomeSample(jobs, x) || SampleOf(j, x)
  {
    var all := jobs + [j];
    assert all[|jobs|] == j;
    if i :| 0 <= i < |jobs| && SampleOf(jobs[i], x) {
      assert SampleOf(all[i], x);
    }
    if i :| 0 <= i < |all| && SampleOf(all[i], x) {
      assert i < |jobs| ==> SampleOf(jobs[i], x);
    }
  }

  /** Every score lies in (0, 1], so a peer with no record, whose score is 1, is
      never ranked below one with a record. */
  lemma ScoreInRange(jobs: seq<Job>, r: Record, none: Record)
    requires Weighed(jobs) && IsRecord(jobs, r) && IsRecord([], none)
    ensures 0.0 < Score(r) <= 1.0 == Score(none)
  {
    JobWeights(jobs);
    ShareInRange(JobWeight(jobs, Accepted()), JobWeight(jobs, Sent()));
    ShareInRange(JobWeight(jobs, Finished()), JobWeight(jobs, Accepted()));
    SpeedInRange(r.medianTTFT);
    assert Score(none) == 1.0;
  }

  /** The record decides the score exactly when the peer accepted something this
      week.  One that only ever refused keeps the score of an unknown peer. */
  lemma OnlyRefusalsScoreOne(jobs: seq<Job>, r: Record)
    requires Weighed(jobs) && IsRecord(jobs, r)
    ensures (r.samples > 0 || r.accepted > 0.0) <==> exists i :: 0 <= i < |jobs| && jobs[i].accepted
    ensures (forall i :: 0 <= i < |jobs| ==> !jobs[i].accepted) ==> Score(r) == 1.0
  {
    JobWeights(jobs);
    ShareInRange(JobWeight(jobs, Accepted()), JobWeight(jobs, Sent()));
  }

  /** So a hub that answered every time is never ranked above one that refused
      every time, and only ties with it when its answers took no time at all. */
  lemma RefusalsOutrankAnswers(good: seq<Job>, g: Record, bad: seq<Job>, b: Record)
    requires Weighed(good) && IsRecord(good, g) && Weighed(bad) && IsRecord(bad, b)
    requires good != [] && forall i :: 0 <= i < |good| ==> good[i].accepted && good[i].finished
    requires forall i :: 0 <= i < |bad| ==> !bad[i].accepted
    ensures Score(g) <= Score(b)
    ensures Score(g) == Score(b) <==> g.medianTTFT == 0.0
  {
    OnlyRefusalsScoreOne(bad, b);
    AllAnswered(good);
    JobWeights(good);
    assert good[0].accepted;
    ShareInRange(JobWeight(good, Accepted()), JobWeight(good, Sent()));
    ShareInRange(JobWeight(good, Finished()), JobWeight(good, Accepted()));
    SpeedInRange(g.medianTTFT);
  }

  lemma {:induction false} AllAnswered(jobs: seq<Job>)
    requires forall i :: 0 <= i < |jobs| ==> jobs[i].accepted && jobs[i].finished
    ensures JobWeight(jobs, Finished()) == JobWeight(jobs, Accepted()) == JobWeight(jobs, Sent())
    decreases |jobs|
  {
    if jobs != [] {
      AllAnswered(Init(jobs));
    }
  }

  // ---------------------------------------------------------------- asking the peers

  datatype Offer = Offer(id: string, name: string, age: int, free: bool, models: seq<string>)

  /** Three minutes, in nanoseconds. */
  const FRESH := 180_000_000_000

  predicate Holds(models: seq<string>, model: string) {
    exists i :: 0 <= i < |models| && (models[i] == model || models[i] == model + ":latest")
  }

  predicate Fits(o: Offer, model: string) {
    o.age < FRESH && o.free && Holds(o.models, model)
  }

  function ByScore(scores: string -> real): (Offer, Offer) -> bool {
    (a: Offer, b: Offer) => scores(a.id) > scores(b.id)
  }

  function Approves(approved: string -> bool): Offer -> bool {
    (o: Offer) => approved(o.id)
  }

  function FitsModel(model: string): Offer -> bool {
    (o: Offer) => Fits(o, model)
  }

  lemma ScoreIsStrictWeak(scores: string -> real)
    ensures StrictWeak(ByScore(scores))
  {
  }

  /** f gives the peer the score of its record. */
  ghost predicate Scores(f: string -> real, records: string -> seq<Job>, id: string) {
    exists r: Record :: IsRecord(records(id), r) && f(id) == Score(r)
  }

  /** All approved peers whose offer fits, by the scores of their records, best
      first, tied ones in the order they came. */
  ghost predicate IsRanking(offers: seq<Offer>, model: string, approved: string -> bool, records: string -> seq<Job>,
                            f: string -> real, ranked: seq<Offer>)
  {
    && Sorted(ByScore(f), ranked)
    && Stable(ByScore(f), Filter(Filter(offers, FitsModel(model)), Approves(approved)), ranked)
    && forall i :: 0 <= i < |ranked| ==> Scores(f, records, ranked[i].id)
  }

  /** `Place`: the approved peers whose offer fits, best record first, each asked
      until one accepts.  `ranked` is the order they would all be asked in. */
  method Place(offers: seq<Offer>, model: string, approved: string -> bool, records: string -> seq<Job>, accepts: string -> bool)
    returns (taken: Option<Offer>, asked: seq<Offer>, ranked: seq<Offer>)
    requires forall id :: Weighed(records(id))
    ensures exists f :: IsRanking(offers, model, approved, records, f, ranked)
    ensures asked <= ranked
    ensures taken.None? ==> asked == ranked && forall i :: 0 <= i < |ranked| ==> !accepts(ranked[i].id)
    ensures taken.Some? ==> && asked != [] && Last(asked) == taken.value && accepts(taken.value.id)
                            && forall i :: 0 <= i < |asked| - 1 ==> !accepts(asked[i].id)
  {
    var cands := Fitting(offers, model);
    cands := KeepApproved(cands, approved);
    var scores := ScoreAll(cands, records);
    var f := ScoreIn(scores);
    ranked := Ranked(cands, f);
    StableHasSame(ByScore(f), cands, ranked);
    taken, asked := Ask(ranked, accepts);
    assert IsRanking(offers, model, approved, records, f, ranked);
  }

  lemma StableHasSame(less: (Offer, Offer) -> bool, before: seq<Offer>, after: seq<Offer>)
    requires Stable(less, before, after)
    ensures forall i :: 0 <= i < |after| ==> after[i] in before
  {
    forall i | 0 <= i < |after|
      ensures after[i] in before
    {
      assert after[i] in multiset(after);
    }
  }

  function ScoreIn(scores: map<string, real>): string -> real {
    (id: string) => if id in scores then scores[id] else 0.0
  }

  /** The scores of the candidates, each from its record. */
  method ScoreAll(cands: seq<Offer>, records: string -> seq<Job>) returns (scores: map<string, real>)
    requires forall id :: Weighed(records(id))
    ensures forall i :: 0 <= i < |cands| ==> Scores(ScoreIn(scores), records, cands[i].id)
  {
    scores := map[];
    for i := 0 to |cands|
      invariant forall id :: id in scores ==> Scores(ScoreIn(scores), records, id)
      invariant forall j :: 0 <= j < i ==> cands[j].id in scores
    {
      var r := PeerRecord(records(cands[i].id));
      ghost var before := scores;
      scores := scores[cands[i].id := Score(r)];
      ScoresAfter(before, records, cands[i].id, r, scores);
    }
  }

  lemma ScoresAfter(scores: map<string, real>, records: string -> seq<Job>, id: string, r: Record, after: map<string, real>)
    requires IsRecord(records(id), r) && forall other :: other in scores ==> Scores(ScoreIn(scores), records, other)
    requires after == scores[id := Score(r)]
    ensures forall other :: other in after ==> Scores(ScoreIn(after), records, other)
  {
    forall other | other in after
      ensures Scores(ScoreIn(after), records, other)
    {
      if other == id {
        assert ScoreIn(after)(id) == Score(r);
      } else {
        var q: Record :| IsRecord(records(other), q) && ScoreIn(scores)(other) == Score(q);
        assert ScoreIn(after)(other) == Score(q);
      }
    }
  }

  method Fitting(offers: seq<Offer>, model: string) returns (cands: seq<Offer>)
    ensures cands == Filter(offers, FitsModel(model))
  {
    cands := [];
    var i := 0;
    while i < |offers|
      invariant 0 <= i <= |offers|
      invariant cands == Filter(offers[..i], FitsModel(model))
    {
      assert Init(offers[..i + 1]) == offers[..i];
      if Fits(offers[i], model) {
        cands := cands + [offers[i]];
      }
      i := i + 1;
    }
    assert offers[..i] == offers;
  }

  method KeepApproved(cands: seq<Offer>, approved: string -> bool) returns (kept: seq<Offer>)
    ensures kept == Filter(cands, Approves(approved))
  {
    var a := new Offer[|cands|](i requires 0 <= i < |cands| => cands[i]);
    assert a[..a.Length] == cands;
    var k := FilterInPlace(a, a.Length, Approves(approved));
    return a[..k];
  }

  method Ranked(cands: seq<Offer>, f: string -> real) returns (ranked: seq<Offer>)
    ensures Sorted(ByScore(f), ranked) && Stable(ByScore(f), cands, ranked)
  {
    var a := new Offer[|cands|](i requires 0 <= i < |cands| => cands[i]);
    assert a[..a.Length] == cands;
    ScoreIsStrictWeak(f);
    SortCands(a, a.Length, ByScore(f));
    ranked := a[..a.Length];
  }

  method Ask(ranked: seq<Offer>, accepts: string -> bool) returns (taken: Option<Offer>, asked: seq<Offer>)
    ensures asked <= ranked
    ensures taken.None? ==> asked == ranked && forall i :: 0 <= i < |ranked| ==> !accepts(ranked[i].id)
    ensures taken.Some? ==> && asked != [] && Last(asked) == taken.value && accepts(taken.value.id)
                            && forall i :: 0 <= i < |asked| - 1 ==> !accepts(asked[i].id)
  {
    asked := [];
    var i := 0;
    while i < |ranked|
      invariant 0 <= i <= |ranked| && asked == ranked[..i]
      invariant forall j :: 0 <= j < i ==> !accepts(ranked[j].id)
    {
      asked := asked + [ranked[i]];
      if accepts(ranked[i].id) {
        return Some(ranked[i]), asked;
      }
      i := i + 1;
    }
    return None, asked;
  }

  /** Who is asked: the approved peers with a fitting offer, and nobody else. */
  lemma RankedAre(offers: seq<Offer>, model: string, approved: string -> bool, scores: string -> real, ranked: seq<Offer>, o: Offer)
    requires Stable(ByScore(scores), Filter(Filter(offers, FitsModel(model)), Approves(approved)), ranked)
    ensures o in ranked <==> o in offers && Fits(o, model) && approved(o.id)
  {
    var fitting := Filter(offers, FitsModel(model));
    var wanted := Filter(fitting, Approves(approved));
    assert o in multiset(ranked) <==> o in multiset(wanted);
    FilterPasses(fitting, Approves(approved), o);
    FilterPasses(offers, FitsModel(model), o);
  }

  /** In the words of the source: heard of within three minutes, free, and with the
      model under its name or its name and ":latest". */
  lemma AskedExactly(offers: seq<Offer>, model: string, approved: string -> bool, records: string -> seq<Job>,
                     f: string -> real, ranked: seq<Offer>, o: Offer)
    requires IsRanking(offers, model, approved, records, f, ranked)
    ensures o in ranked <==> o in offers && approved(o.id) && o.age < 180_000_000_000 && o.free
                             && (model in o.models || model + ":latest" in o.models)
  {
    RankedAre(offers, model, approved, f, ranked, o);
  }

  lemma FirstIsBest(scores: string -> real, ranked: seq<Offer>, accepts: string -> bool, k: nat, other: Offer)
    requires Sorted(ByScore(scores), ranked)
    requires k < |ranked| && forall i :: 0 <= i < k ==> !accepts(ranked[i].id)
    requires other in ranked && accepts(other.id)
    ensures scores(ranked[k].id) >= scores(other.id)
  {
    var j :| 0 <= j < |ranked| && ranked[j] == other;
    if k < j {
      assert !ByScore(scores)(ranked[j], ranked[k]);
    }
  }

  /** What the order is for: only approved peers with a fitting offer are asked,
      and the one that takes the job scores no less than any other that would
      have taken it. */
  lemma BestWillingPeer(offers: seq<Offer>, model: string, approved: string -> bool, scores: string -> real,
                        accepts: string -> bool, ranked: seq<Offer>, k: nat, other: Offer)
    requires Sorted(ByScore(scores), ranked)
    requires Stable(ByScore(scores), Filter(Filter(offers, FitsModel(model)), Approves(approved)), ranked)
    requires k < |ranked| && accepts(ranked[k].id) && forall i :: 0 <= i < k ==> !accepts(ranked[i].id)
    ensures ranked[k] in offers && Fits(ranked[k], model) && approved(ranked[k].id)
    ensures other in offers && Fits(other, model) && approved(other.id) && accepts(other.id) ==>
              scores(ranked[k].id) >= scores(other.id)
  {
    RankedAre(offers, model, approved, scores, ranked, ranked[k]);
    RankedAre(offers, model, approved, scores, ranked, other);
    if other in ranked && accepts(other.id) {
      FirstIsBest(scores, ranked, accepts, k, other);
    }
  }

  // ---------------------------------------------------------------- what a ranking keeps

  lemma MedianIsUnique(samples: seq<Sample>, a: real, b: real)
    requires Positive(samples) && IsWeightedMedian(samples, a) && IsWeightedMedian(samples, b)
    ensures a == b
  {
    if a < b {
      WeightAtMost(samples, UpTo(a), Below(b));
    } else if b < a {
      WeightAtMost(samples, UpTo(b), Below(a));
    }
  }

  /** There is one record of a peer's jobs, so one score. */
  lemma RecordIsUnique(jobs: seq<Job>, r: Record, q: Record)
    requires Weighed(jobs) && IsRecord(jobs, r) && IsRecord(jobs, q)
    ensures r == q
  {
    SamplesAreGood(jobs);
    if Samples(jobs) != [] {
      MedianIsUnique(Samples(jobs), r.medianTTFT, q.medianTTFT);
    }
  }

  /** In a ranking no peer without a record comes after one that scores less than
      1: whoever is asked before it scores 1 as well. */
  lemma UnrecordedIsNeverBelow(offers: seq<Offer>, model: string, approved: string -> bool, records: string -> seq<Job>,
                               f: string -> real, ranked: seq<Offer>, i: nat, j: nat)
    requires IsRanking(offers, model, approved, records, f, ranked) && forall id :: Weighed(records(id))
    requires i < j < |ranked| && records(ranked[j].id) == []
    ensures f(ranked[i].id) == f(ranked[j].id) == 1.0
  {
    assert Scores(f, records, ranked[i].id) && Scores(f, records, ranked[j].id);
    var r: Record :| IsRecord(records(ranked[i].id), r) && f(ranked[i].id) == Score(r);
    var q: Record :| IsRecord(records(ranked[j].id), q) && f(ranked[j].id) == Score(q);
    ScoreInRange(records(ranked[i].id), r, q);
    assert !ByScore(f)(ranked[j], ranked[i]);
  }

  /** And of two peers with records the one asked first has the better or equal
      score, whatever scores the ranking was made with. */
  lemma BetterRecordFirst(offers: seq<Offer>, model: string, approved: string -> bool, records: string -> seq<Job>,
                          f: string -> real, ranked: seq<Offer>, i: nat, j: nat, r: Record, q: Record)
    requires IsRanking(offers, model, approved, records, f, ranked) && forall id :: Weighed(records(id))
    requires i < j < |ranked| && IsRecord(records(ranked[i].id), r) && IsRecord(records(ranked[j].id), q)
    ensures Score(r) >= Score(q)
  {
    assert Scores(f, records, ranked[i].id) && Scores(f, records, ranked[j].id);
    var r': Record :| IsRecord(records(ranked[i].id), r') && f(ranked[i].id) == Score(r');
    var q': Record :| IsRecord(records(ranked[j].id), q') && f(ranked[j].id) == Score(q');
    RecordIsUnique(records(ranked[i].id), r, r');
    RecordIsUnique(records(ranked[j].id), q, q');
    assert !ByScore(f)(ranked[j], ranked[i]);
  }
}
