/** How far a peer's hourly allowance can be overrun: the runs in which the bounds of
    Admission.dfy and PeerUnderHub.dfy are met, for every allowance and every number
    of handlers that are between the count and the record at once. */
module Overrun {
  import opened Admission
  import opened PeerUnderHub
  import opened Sequences

  function Zeros(n: nat): seq<int> {
    seq(n, i => 0)
  }

  lemma ZerosSnoc(n: nat)
    ensures Zeros(n) + [0] == Zeros(n + 1)
  {
  }

  lemma {:induction false} CountZeros(n: nat)
    ensures CountSince(Zeros(n), -HOUR) == n && CountBetween(Zeros(n), -HOUR, 0) == n
  {
    if n > 0 {
      CountZeros(n - 1);
      assert Init(Zeros(n)) == Zeros(n - 1);
    }
  }

  /** The numbers from a to b - 1. */
  ghost predicate IsRange(s: set<nat>, a: nat, b: nat) {
    forall h :: h in s <==> a <= h < b
  }

  lemma {:induction false} RangeSize(s: set<nat>, a: nat, b: nat)
    requires IsRange(s, a, b) && a <= b
    ensures |s| == b - a
    decreases b
  {
    if a < b {
      RangeSize(s - {b - 1}, a, b - 1);
    } else {
      assert s == {};
    }
  }

  /** One peer's handlers 0, 1, 2, ... at time 0: the first c have taken the peer's
      count, d of them the hub's, and r of those have their row.  `mp` and `ma` are
      the most there have been in between at once, by the peer's allowance and
      by the hub's. */
  datatype Spot = Spot(c: nat, d: nat, r: nat, mp: nat, ma: nat)

  ghost predicate At(hub: Hub, peer: Peer, s: Spot) {
    && s.r <= s.d <= s.c && AtWork(hub.stages, hub.used, peer, s) && hub.clock == 0
    && Written(hub.jobs, peer, s.r)
    && InBetween(GateOf(hub, Some(peer)), s.r, s.c, s.mp) && InBetween(hub.all, s.r, s.d, s.ma)
  }

  ghost predicate AtWork(stages: map<Handler, Stage>, used: set<Handler>, peer: Peer, s: Spot) {
    && IsRange(used, 0, s.c) && IsRange(stages.Keys, s.r, s.c)
    && forall h :: h in stages ==> stages[h] == Stage(peer, h < s.d)
  }

  ghost predicate Written(jobs: seq<Job>, peer: Peer, r: nat) {
    Accepted(jobs, Some(peer)) == Zeros(r) && Accepted(jobs, None) == Zeros(r)
  }

  ghost predicate InBetween(g: Gate, a: nat, b: nat, most: nat) {
    IsRange(g.between.Keys, a, b) && g.most == most
  }

  function Larger(a: nat, b: nat): nat {
    if a > b then a else b
  }

  lemma EnterMost(g: Gate, h: Handler, a: nat, most: nat)
    requires InBetween(g, a, h, most) && a <= h
    ensures InBetween(Enter(g, h, 0), a, h + 1, Larger(most, h + 1 - a))
  {
    RangeSize(g.between.Keys + {h}, a, h + 1);
  }

  lemma PassesBelow(limits: Limits, hub: Hub, peer: Peer, r: nat)
    requires Written(hub.jobs, peer, r)
    ensures r < limits.perHour(peer) ==> PassesPeer(limits, hub, peer, 0)
    ensures r < limits.hub ==> PassesAll(limits, hub, 0)
  {
    CountZeros(r);
  }

  function CountedByPeer(s: Spot): Spot {
    s.(c := s.c + 1, mp := if s.c + 1 > s.r then Larger(s.mp, s.c + 1 - s.r) else s.mp)
  }

  function CountedByHub(s: Spot): Spot {
    s.(d := s.d + 1, ma := if s.d + 1 > s.r then Larger(s.ma, s.d + 1 - s.r) else s.ma)
  }

  function Recorded(s: Spot): Spot {
    s.(r := s.r + 1)
  }

  /** The fields a count by the peer's allowance changes. */
  lemma PeerCountEffect(limits: Limits, hub: Hub, h: Handler, peer: Peer)
    requires h !in hub.used && hub.clock == 0 && PassesPeer(limits, hub, peer, 0)
    ensures Enabled(hub, CountPeer(h, 0, peer))
    ensures var next := Next(limits, hub, CountPeer(h, 0, peer));
            && next.jobs == hub.jobs && next.stages == hub.stages[h := Stage(peer, false)]
            && next.used == hub.used + {h} && next.clock == 0 && next.all == hub.all
            && GateOf(next, Some(peer)) == Enter(GateOf(hub, Some(peer)), h, 0)
  {
  }

  lemma HubCountEffect(limits: Limits, hub: Hub, h: Handler, peer: Peer)
    requires h in hub.stages && hub.stages[h] == Stage(peer, false) && hub.clock == 0 && PassesAll(limits, hub, 0)
    ensures Enabled(hub, CountAll(h, 0))
    ensures var next := Next(limits, hub, CountAll(h, 0));
            && next.jobs == hub.jobs && next.stages == hub.stages[h := Stage(peer, true)]
            && next.used == hub.used + {h} && next.clock == 0 && next.all == Enter(hub.all, h, 0)
            && GateOf(next, Some(peer)) == GateOf(hub, Some(peer))
  {
  }

  lemma RecordEffect(limits: Limits, hub: Hub, h: Handler, peer: Peer)
    requires h in hub.stages && hub.stages[h] == Stage(peer, true) && hub.clock == 0
    requires h in GateOf(hub, Some(peer)).between && h in hub.all.between
    ensures Enabled(hub, Record(h, 0))
    ensures var next := Next(limits, hub, Record(h, 0));
            && next.jobs == hub.jobs + [Job(h, peer, 0, true)] && next.stages == hub.stages - {h}
            && next.used == hub.used + {h} && next.clock == 0 && next.all == Keep(hub.all, h, 0)
            && GateOf(next, Some(peer)) == Keep(GateOf(hub, Some(peer)), h, 0)
  {
  }

  lemma WorkAfterPeerCount(stages: map<Handler, Stage>, used: set<Handler>, peer: Peer, s: Spot)
    requires AtWork(stages, used, peer, s) && s.r <= s.d <= s.c
    ensures AtWork(stages[s.c := Stage(peer, false)], used + {s.c}, peer, CountedByPeer(s))
  {
  }

  lemma WorkAfterHubCount(stages: map<Handler, Stage>, used: set<Handler>, peer: Peer, s: Spot)
    requires AtWork(stages, used, peer, s) && s.r <= s.d < s.c
    ensures AtWork(stages[s.d := Stage(peer, true)], used + {s.d}, peer, CountedByHub(s))
  {
  }

  lemma WorkAfterRecord(stages: map<Handler, Stage>, used: set<Handler>, peer: Peer, s: Spot)
    requires AtWork(stages, used, peer, s) && s.r < s.d <= s.c
    ensures AtWork(stages - {s.r}, used + {s.r}, peer, Recorded(s))
  {
  }

  /** One handler more takes the peer's count. */
  lemma TakePeerCount(limits: Limits, hub: Hub, peer: Peer, s: Spot) returns (next: Hub)
    requires At(hub, peer, s) && s.r < limits.perHour(peer)
    ensures StepsTo(limits, hub, CountPeer(s.c, 0, peer), next) && At(next, peer, CountedByPeer(s))
  {
    PassesBelow(limits, hub, peer, s.r);
    PeerCountEffect(limits, hub, s.c, peer);
    WorkAfterPeerCount(hub.stages, hub.used, peer, s);
    EnterMost(GateOf(hub, Some(peer)), s.c, s.r, s.mp);
    next := Next(limits, hub, CountPeer(s.c, 0, peer));
  }

  /** The next takes the hub's. */
  lemma TakeHubCount(limits: Limits, hub: Hub, peer: Peer, s: Spot) returns (next: Hub)
    requires At(hub, peer, s) && s.r < limits.hub && s.d < s.c
    ensures StepsTo(limits, hub, CountAll(s.d, 0), next) && At(next, peer, CountedByHub(s))
  {
    PassesBelow(limits, hub, peer, s.r);
    HubCountEffect(limits, hub, s.d, peer);
    WorkAfterHubCount(hub.stages, hub.used, peer, s);
    EnterMost(hub.all, s.d, s.r, s.ma);
    next := Next(limits, hub, CountAll(s.d, 0));
  }

  lemma OneMoreRow(jobs: seq<Job>, peer: Peer, r: nat, job: Job)
    requires Written(jobs, peer, r) && job == Job(job.handler, peer, 0, true)
    ensures Written(jobs + [job], peer, r + 1)
  {
    AcceptedSnoc(jobs, job, Some(peer));
    AcceptedSnoc(jobs, job, None);
    ZerosSnoc(r);
  }

  lemma KeepFirst(g: Gate, a: nat, b: nat, most: nat)
    requires InBetween(g, a, b, most) && a < b
    ensures a in g.between && InBetween(Keep(g, a, 0), a + 1, b, most)
  {
  }

  /** The next writes its row. */
  lemma WriteRow(limits: Limits, hub: Hub, peer: Peer, s: Spot) returns (next: Hub)
    requires At(hub, peer, s) && s.r < s.d
    ensures StepsTo(limits, hub, Record(s.r, 0), next) && At(next, peer, Recorded(s))
  {
    KeepFirst(GateOf(hub, Some(peer)), s.r, s.c, s.mp);
    KeepFirst(hub.all, s.r, s.d, s.ma);
    RecordEffect(limits, hub, s.r, peer);
    WorkAfterRecord(hub.stages, hub.used, peer, s);
    OneMoreRow(hub.jobs, peer, s.r, Job(s.r, peer, 0, true));
    next := Next(limits, hub, Record(s.r, 0));
  }

  lemma RunSnoc(limits: Limits, states: seq<Hub>, steps: seq<Step>, step: Step, hub: Hub)
    requires IsRun(limits, states, steps) && StepsTo(limits, Last(states), step, hub)
    ensures IsRun(limits, states + [hub], steps + [step])
  {
    var ss, ts := states + [hub], steps + [step];
    forall i | 0 <= i < |ts|
      ensures StepsTo(limits, ss[i], ts[i], ss[i + 1])
    {
      if i < |steps| {
        assert StepsTo(limits, states[i], steps[i], states[i + 1]);
      }
    }
  }

  ghost predicate RunTo(limits: Limits, hub: Hub) {
    exists states, steps :: IsRun(limits, states, steps) && Last(states) == hub
  }

  lemma RunsOn(limits: Limits, hub: Hub, step: Step, next: Hub)
    requires RunTo(limits, hub) && StepsTo(limits, hub, step, next)
    ensures RunTo(limits, next)
  {
    var states, steps :| IsRun(limits, states, steps) && Last(states) == hub;
    RunSnoc(limits, states, steps, step, next);
    assert Last(states + [next]) == next;
  }

  ghost predicate Reach(limits: Limits, peer: Peer, s: Spot) {
    exists hub :: RunTo(limits, hub) && At(hub, peer, s)
  }

  lemma NothingYet(limits: Limits, peer: Peer)
    ensures Reach(limits, peer, Spot(0, 0, 0, 0, 0))
  {
    assert IsRun(limits, [IDLE], []) && Last([IDLE]) == IDLE;
    assert RunTo(limits, IDLE) && At(IDLE, peer, Spot(0, 0, 0, 0, 0));
  }

  lemma ReachPeerCount(limits: Limits, peer: Peer, s: Spot)
    requires Reach(limits, peer, s) && s.r < limits.perHour(peer)
    ensures Reach(limits, peer, CountedByPeer(s))
  {
    var hub :| RunTo(limits, hub) && At(hub, peer, s);
    var next := TakePeerCount(limits, hub, peer, s);
    RunsOn(limits, hub, CountPeer(s.c, 0, peer), next);
  }

  lemma ReachHubCount(limits: Limits, peer: Peer, s: Spot)
    requires Reach(limits, peer, s) && s.r < limits.hub && s.d < s.c
    ensures Reach(limits, peer, CountedByHub(s))
  {
    var hub :| RunTo(limits, hub) && At(hub, peer, s);
    var next := TakeHubCount(limits, hub, peer, s);
    RunsOn(limits, hub, CountAll(s.d, 0), next);
  }

  lemma ReachRow(limits: Limits, peer: Peer, s: Spot)
    requires Reach(limits, peer, s) && s.r < s.d
    ensures Reach(limits, peer, Recorded(s))
  {
    var hub :| RunTo(limits, hub) && At(hub, peer, s);
    var next := WriteRow(limits, hub, peer, s);
    RunsOn(limits, hub, Record(s.r, 0), next);
  }

  /** Spots that hold the first one and go along with every step. */
  ghost predicate Closed(spots: Spot -> bool, perHour: nat, all: nat) {
    && spots(Spot(0, 0, 0, 0, 0))
    && (forall s {:trigger CountedByPeer(s)} :: spots(s) && s.r < perHour ==> spots(CountedByPeer(s)))
    && (forall s {:trigger CountedByHub(s)} :: spots(s) && s.r < all && s.d < s.c ==> spots(CountedByHub(s)))
    && (forall s {:trigger Recorded(s)} :: spots(s) && s.r < s.d ==> spots(Recorded(s)))
  }

  /** n jobs, one after the other. */
  lemma {:induction false} Serially(spots: Spot -> bool, perHour: nat, all: nat, n: nat)
    requires Closed(spots, perHour, all) && n <= perHour && n <= all
    ensures var m := if n == 0 then 0 else 1; spots(Spot(n, n, n, m, m))
  {
    if n > 0 {
      Serially(spots, perHour, all, n - 1);
      var m := if n == 1 then 0 else 1;
      var one := CountedByPeer(Spot(n - 1, n - 1, n - 1, m, m));
      assert one == Spot(n, n - 1, n - 1, 1, m);
      var two := CountedByHub(one);
      assert two == Spot(n, n, n - 1, 1, 1);
      assert Recorded(two) == Spot(n, n, n, 1, 1);
    }
  }

  /** k handlers take the peer's count before any of them goes on... */
  lemma {:induction false} AllTakePeerCount(spots: Spot -> bool, perHour: nat, all: nat, n: nat, k: nat, m: nat)
    requires Closed(spots, perHour, all) && spots(Spot(n, n, n, m, m)) && n < perHour
    ensures spots(Spot(n + k, n, n, Larger(m, k), m))
  {
    if k > 0 {
      AllTakePeerCount(spots, perHour, all, n, k - 1, m);
      assert CountedByPeer(Spot(n + k - 1, n, n, Larger(m, k - 1), m)) == Spot(n + k, n, n, Larger(m, k), m);
    }
  }

  /** ...then the hub's count... */
  lemma {:induction false} AllTakeHubCount(
      spots: Spot -> bool, perHour: nat, all: nat, n: nat, c: nat, k: nat, mp: nat, m: nat)
    requires Closed(spots, perHour, all) && spots(Spot(c, n, n, mp, m)) && n < all && n + k <= c
    ensures spots(Spot(c, n + k, n, mp, Larger(m, k)))
  {
    if k > 0 {
      AllTakeHubCount(spots, perHour, all, n, c, k - 1, mp, m);
      assert CountedByHub(Spot(c, n + k - 1, n, mp, Larger(m, k - 1))) == Spot(c, n + k, n, mp, Larger(m, k));
    }
  }

  /** ...and then write their rows. */
  lemma {:induction false} AllWriteRows(
      spots: Spot -> bool, perHour: nat, all: nat, n: nat, c: nat, k: nat, mp: nat, ma: nat)
    requires Closed(spots, perHour, all) && spots(Spot(c, c, n, mp, ma)) && n + k <= c
    ensures spots(Spot(c, c, n + k, mp, ma))
  {
    if k > 0 {
      AllWriteRows(spots, perHour, all, n, c, k - 1, mp, ma);
      assert Recorded(Spot(c, c, n + k - 1, mp, ma)) == Spot(c, c, n + k, mp, ma);
    }
  }

  lemma ReachIsClosed(limits: Limits, peer: Peer, spots: Spot -> bool)
    requires forall s :: spots(s) <==> Reach(limits, peer, s)
    ensures Closed(spots, limits.perHour(peer), limits.hub)
  {
    NothingYet(limits, peer);
    forall s | spots(s)
      ensures s.r < limits.perHour(peer) ==> spots(CountedByPeer(s))
      ensures s.r < limits.hub && s.d < s.c ==> spots(CountedByHub(s))
      ensures s.r < s.d ==> spots(Recorded(s))
    {
      if s.r < limits.perHour(peer) {
        ReachPeerCount(limits, peer, s);
      }
      if s.r < limits.hub && s.d < s.c {
        ReachHubCount(limits, peer, s);
      }
      if s.r < s.d {
        ReachRow(limits, peer, s);
      }
    }
  }

  /** n jobs one after the other, then k at once. */
  lemma SerialThenAtOnce(spots: Spot -> bool, perHour: nat, all: nat, n: nat, k: nat)
    requires Closed(spots, perHour, all) && n < perHour && n < all && k >= 1
    ensures spots(Spot(n + k, n + k, n + k, k, k))
  {
    var m := if n == 0 then 0 else 1;
    Serially(spots, perHour, all, n);
    AllTakePeerCount(spots, perHour, all, n, k, m);
    AllTakeHubCount(spots, perHour, all, n, n + k, k, k, m);
    AllWriteRows(spots, perHour, all, n, n + k, k, k, k);
  }

  lemma ReachSerialThenAtOnce(limits: Limits, peer: Peer, n: nat, k: nat)
    requires n < limits.perHour(peer) && n < limits.hub && k >= 1
    ensures Reach(limits, peer, Spot(n + k, n + k, n + k, k, k))
  {
    ghost var spots := (s: Spot) => Reach(limits, peer, s);
    ReachIsClosed(limits, peer, spots);
    SerialThenAtOnce(spots, limits.perHour(peer), limits.hub, n, k);
  }

  /** The jobs accepted in the hour up to t. */
  function InWindow(hub: Hub, who: Option<Peer>, t: int): nat {
    CountBetween(Accepted(hub.jobs, who), t - HOUR, t)
  }

  /** What a peer can have of its allowance: the hub's count bounds it as well. */
  function Bound(limits: Limits, peer: Peer): nat {
    if limits.perHour(peer) < limits.hub then limits.perHour(peer) else limits.hub
  }

  /** The overrun is real and as large as the bounds: for every peer, the smaller M
      of its allowance and the hub's, and every number k of handlers there is a
      run that never has more than k of the peer's handlers in between at once
      and accepts M - 1 + k of its jobs in one hour. */
  lemma AllowanceIsOverrun(limits: Limits, peer: Peer, k: nat) returns (hub: Hub)
    requires Bound(limits, peer) >= 1 && k >= 1
    ensures RunTo(limits, hub) && GateOf(hub, Some(peer)).most == k
    ensures InWindow(hub, Some(peer), 0) == Bound(limits, peer) - 1 + k
  {
    var n := Bound(limits, peer) - 1;
    ReachSerialThenAtOnce(limits, peer, n, k);
    hub :| RunTo(limits, hub) && At(hub, peer, Spot(n + k, n + k, n + k, k, k));
    CountZeros(n + k);
  }

  /** The allowance holds in every window of every state with at most k handlers
      in between at once so far. */
  ghost predicate KeptIn(limits: Limits, hub: Hub, who: Option<Peer>, k: nat) {
    GateOf(hub, who).most <= k ==> forall t :: InWindow(hub, who, t) <= LimitOf(limits, who)
  }

  ghost predicate AlwaysKept(limits: Limits, who: Option<Peer>, k: nat) {
    forall hub :: RunTo(limits, hub) ==> KeptIn(limits, hub, who, k)
  }

  lemma RowNeedsAllowance(g: Gate, limit: nat, clock: int, i: nat)
    requires GateInv(g, limit, clock) && i < |g.rows|
    ensures limit >= 1
  {
    assert PassInv(g, limit, clock, g.rows[i].pass);
  }

  lemma NothingAccepted(g: Gate, clock: int)
    requires GateInv(g, 0, clock)
    ensures g.rows == []
  {
    if g.rows != [] {
      RowNeedsAllowance(g, 0, clock, 0);
      assert false;
    }
  }

  lemma KeptSerially(limits: Limits, hub: Hub, who: Option<Peer>, k: nat)
    requires RunTo(limits, hub) && (k <= 1 || LimitOf(limits, who) == 0)
    ensures KeptIn(limits, hub, who, k)
  {
    var states, steps :| IsRun(limits, states, steps) && Last(states) == hub;
    Reached(limits, states, steps, |steps|);
    assert Tracks(hub, GateOf(hub, who), LimitOf(limits, who), who);
    if LimitOf(limits, who) == 0 {
      NothingAccepted(GateOf(hub, who), hub.clock);
      assert Times([]) == [];
    } else {
      forall t
        ensures GateOf(hub, who).most <= k ==> InWindow(hub, who, t) <= LimitOf(limits, who)
      {
        HourlyAllowance(limits, states, steps, |steps|, who, t);
      }
    }
  }

  /** No run does more than that. */
  lemma WithinBound(limits: Limits, hub: Hub, peer: Peer, t: int)
    requires RunTo(limits, hub)
    ensures InWindow(hub, Some(peer), t) > 0 ==>
              InWindow(hub, Some(peer), t) <= Bound(limits, peer) - 1 + GateOf(hub, Some(peer)).most
  {
    var states, steps :| IsRun(limits, states, steps) && Last(states) == hub;
    HourlyAllowance(limits, states, steps, |steps|, Some(peer), t);
    HubBoundsPeer(limits, states, steps, |steps|, peer, t);
  }

  /** Exactly when a peer's allowance L is kept in every run with at most k of its
      handlers between the count and the record at once: when M - 1 + k is no more
      than L, M the smaller of L and the hub's allowance, or M is 0.  For an
      allowance within the hub's that is when k is at most 1. */
  lemma PeerKeptExactly(limits: Limits, peer: Peer, k: nat)
    ensures AlwaysKept(limits, Some(peer), k)
       <==> Bound(limits, peer) == 0 || Bound(limits, peer) - 1 + k <= limits.perHour(peer)
    ensures 1 <= limits.perHour(peer) <= limits.hub ==> (AlwaysKept(limits, Some(peer), k) <==> k <= 1)
  {
    var m := Bound(limits, peer);
    if m == 0 || m - 1 + k <= limits.perHour(peer) {
      forall hub | RunTo(limits, hub)
        ensures KeptIn(limits, hub, Some(peer), k)
      {
        KeptWithin(limits, hub, peer, k);
      }
    } else {
      var hub := AllowanceIsOverrun(limits, peer, k);
      assert InWindow(hub, Some(peer), 0) > LimitOf(limits, Some(peer));
    }
  }

  lemma KeptWithin(limits: Limits, hub: Hub, peer: Peer, k: nat)
    requires RunTo(limits, hub)
    requires Bound(limits, peer) == 0 || Bound(limits, peer) - 1 + k <= limits.perHour(peer)
    ensures KeptIn(limits, hub, Some(peer), k)
  {
    forall t
      ensures GateOf(hub, Some(peer)).most <= k ==> InWindow(hub, Some(peer), t) <= limits.perHour(peer)
    {
      WithinBound(limits, hub, peer, t);
      if Bound(limits, peer) == 0 {
        NoneOfPeer(limits, hub, peer, t);
      }
    }
  }

  lemma NoneOfPeer(limits: Limits, hub: Hub, peer: Peer, t: int)
    requires RunTo(limits, hub) && Bound(limits, peer) == 0
    ensures InWindow(hub, Some(peer), t) == 0
  {
    var states, steps :| IsRun(limits, states, steps) && Last(states) == hub;
    var g := JointReached(limits, states, steps, |steps|, peer);
    Reached(limits, states, steps, |steps|);
    assert Tracks(hub, GateOf(hub, Some(peer)), LimitOf(limits, Some(peer)), Some(peer));
    if limits.hub == 0 {
      NothingAccepted(g, hub.clock);
    } else {
      NothingAccepted(GateOf(hub, Some(peer)), hub.clock);
    }
    assert Times([]) == [];
  }
}
