/** How far the hub's own hourly allowance can be overrun, whatever the peers'
    allowances are: handlers of any peers take their peers' counts, and then the
    hub's count is what is left to pass. */
module HubOverrun {
  import opened Admission
  import opened Overrun
  import opened Sequences

  /** Handlers 0, 1, 2, ... at time 0, handler h from peer from(h): the first c have
      taken their peer's count, d of them the hub's, r have their row, and `most`
      is the most there have been between the hub's count and the record. */
  datatype Place = Place(c: nat, d: nat, r: nat, most: nat)

  /** No two handlers are this peer's. */
  ghost predicate OnlyOnce(from: nat -> Peer, p: Peer) {
    forall i, j :: from(i) == p && from(j) == p ==> i == j
  }

  /** A peer with one handler never has two in between. */
  ghost predicate OwnInv(hub: Hub, from: nat -> Peer) {
    forall p :: OnlyOnce(from, p) ==> GateOf(hub, Some(p)).most <= 1
  }

  ghost predicate StagesAre(stages: map<Handler, Stage>, used: set<Handler>, from: nat -> Peer, s: Place) {
    && IsRange(used, 0, s.c) && IsRange(stages.Keys, s.r, s.c)
    && forall h :: h in stages ==> stages[h] == Stage(from(h), h < s.d)
  }

  ghost predicate At(hub: Hub, from: nat -> Peer, s: Place) {
    && s.r <= s.d <= s.c && hub.clock == 0 && StagesAre(hub.stages, hub.used, from, s)
    && Accepted(hub.jobs, None) == Zeros(s.r) && InBetween(hub.all, s.r, s.d, s.most)
    && OwnInv(hub, from)
  }

  lemma RunToInv(limits: Limits, hub: Hub)
    requires RunTo(limits, hub)
    ensures HubInv(limits, hub)
  {
    var states, steps :| IsRun(limits, states, steps) && Last(states) == hub;
    Reached(limits, states, steps, |steps|);
  }

  lemma {:induction false} AtMostOne(s: set<Handler>, h: Handler)
    requires forall i :: i in s ==> i == h
    ensures |s| <= 1
  {
    assert s <= {h};
    if s != {} {
      assert s == {h};
    }
  }

  lemma OwnGateStep(limits: Limits, hub: Hub, step: Step, from: nat -> Peer, p: Peer)
    requires Enabled(hub, step) && BetweenAreAtWork(hub, GateOf(hub, Some(p)), Some(p))
    requires forall h :: h in hub.stages ==> hub.stages[h].peer == from(h)
    requires step.CountPeer? ==> step.peer == from(step.h)
    requires OnlyOnce(from, p) && GateOf(hub, Some(p)).most <= 1
    ensures GateOf(Next(limits, hub, step), Some(p)).most <= 1
  {
    var g := GateOf(hub, Some(p));
    NextGate(limits, hub, step, Some(p));
    if ActionOn(limits, hub, step, Some(p)) == In {
      AtMostOne(g.between.Keys + {step.h}, step.h);
    }
  }

  lemma OwnStep(limits: Limits, hub: Hub, step: Step, from: nat -> Peer)
    requires Enabled(hub, step) && HubInv(limits, hub) && OwnInv(hub, from)
    requires forall h :: h in hub.stages ==> hub.stages[h].peer == from(h)
    requires step.CountPeer? ==> step.peer == from(step.h)
    ensures OwnInv(Next(limits, hub, step), from)
  {
    forall p | OnlyOnce(from, p)
      ensures GateOf(Next(limits, hub, step), Some(p)).most <= 1
    {
      assert Tracks(hub, GateOf(hub, Some(p)), LimitOf(limits, Some(p)), Some(p));
      OwnGateStep(limits, hub, step, from, p);
    }
  }

  function CountedByPeer(s: Place): Place {
    s.(c := s.c + 1)
  }

  function CountedByHub(s: Place): Place {
    s.(d := s.d + 1, most := if s.d + 1 > s.r then Larger(s.most, s.d + 1 - s.r) else s.most)
  }

  function Recorded(s: Place): Place {
    s.(r := s.r + 1)
  }

  lemma NothingServed(limits: Limits, hub: Hub, p: Peer)
    requires Accepted(hub.jobs, None) == Zeros(0) && limits.perHour(p) >= 1
    ensures PassesPeer(limits, hub, p, 0)
  {
    NoneAccepted(hub.jobs, p);
  }

  lemma {:induction false} NoneAccepted(jobs: seq<Job>, p: Peer)
    requires Accepted(jobs, None) == []
    ensures Accepted(jobs, Some(p)) == []
    decreases |jobs|
  {
    if jobs != [] {
      NoneAccepted(Init(jobs), p);
    }
  }

  lemma StagesAfterPeerCount(stages: map<Handler, Stage>, used: set<Handler>, from: nat -> Peer, s: Place)
    requires StagesAre(stages, used, from, s) && s.r <= s.d <= s.c
    ensures StagesAre(stages[s.c := Stage(from(s.c), false)], used + {s.c}, from, CountedByPeer(s))
  {
  }

  lemma StagesAfterHubCount(stages: map<Handler, Stage>, used: set<Handler>, from: nat -> Peer, s: Place)
    requires StagesAre(stages, used, from, s) && s.r <= s.d < s.c
    ensures StagesAre(stages[s.d := Stage(from(s.d), true)], used + {s.d}, from, CountedByHub(s))
  {
  }

  lemma StagesAfterRecord(stages: map<Handler, Stage>, used: set<Handler>, from: nat -> Peer, s: Place)
    requires StagesAre(stages, used, from, s) && s.r < s.d <= s.c
    ensures StagesAre(stages - {s.r}, used + {s.r}, from, Recorded(s))
  {
  }

  /** One handler more takes its peer's count. */
  lemma TakePeersCount(limits: Limits, hub: Hub, from: nat -> Peer, s: Place) returns (next: Hub)
    requires At(hub, from, s) && HubInv(limits, hub) && s.r == 0 && limits.perHour(from(s.c)) >= 1
    ensures StepsTo(limits, hub, CountPeer(s.c, 0, from(s.c)), next) && At(next, from, CountedByPeer(s))
  {
    var step := CountPeer(s.c, 0, from(s.c));
    NothingServed(limits, hub, from(s.c));
    PeerCountEffect(limits, hub, s.c, from(s.c));
    StagesAfterPeerCount(hub.stages, hub.used, from, s);
    OwnStep(limits, hub, step, from);
    next := Next(limits, hub, step);
  }

  /** The next takes the hub's. */
  lemma TakeHubsCount(limits: Limits, hub: Hub, from: nat -> Peer, s: Place) returns (next: Hub)
    requires At(hub, from, s) && HubInv(limits, hub) && s.r < limits.hub && s.d < s.c
    ensures StepsTo(limits, hub, CountAll(s.d, 0), next) && At(next, from, CountedByHub(s))
  {
    CountZeros(s.r);
    HubCountEffect(limits, hub, s.d, from(s.d));
    StagesAfterHubCount(hub.stages, hub.used, from, s);
    EnterMost(hub.all, s.d, s.r, s.most);
    OwnStep(limits, hub, CountAll(s.d, 0), from);
    next := Next(limits, hub, CountAll(s.d, 0));
  }

  lemma InOwnGate(limits: Limits, hub: Hub, h: Handler, p: Peer)
    requires HubInv(limits, hub) && h in hub.stages && hub.stages[h].peer == p
    ensures h in GateOf(hub, Some(p)).between
  {
    assert Tracks(hub, GateOf(hub, Some(p)), LimitOf(limits, Some(p)), Some(p));
  }

  /** The next writes its row. */
  lemma WritesRow(limits: Limits, hub: Hub, from: nat -> Peer, s: Place) returns (next: Hub)
    requires At(hub, from, s) && HubInv(limits, hub) && s.r < s.d
    ensures StepsTo(limits, hub, Record(s.r, 0), next) && At(next, from, Recorded(s))
  {
    KeepFirst(hub.all, s.r, s.d, s.most);
    InOwnGate(limits, hub, s.r, from(s.r));
    RecordEffect(limits, hub, s.r, from(s.r));
    StagesAfterRecord(hub.stages, hub.used, from, s);
    AcceptedSnoc(hub.jobs, Job(s.r, from(s.r), 0, true), None);
    ZerosSnoc(s.r);
    OwnStep(limits, hub, Record(s.r, 0), from);
    next := Next(limits, hub, Record(s.r, 0));
  }

  // ---------------------------------------------------------------- the run

  ghost predicate Reach(limits: Limits, from: nat -> Peer, s: Place) {
    exists hub :: RunTo(limits, hub) && At(hub, from, s)
  }

  lemma NothingYet(limits: Limits, from: nat -> Peer)
    ensures Reach(limits, from, Place(0, 0, 0, 0))
  {
    assert IsRun(limits, [IDLE], []) && Last([IDLE]) == IDLE;
    assert RunTo(limits, IDLE) && At(IDLE, from, Place(0, 0, 0, 0));
  }

  lemma ReachPeersCount(limits: Limits, from: nat -> Peer, s: Place)
    requires Reach(limits, from, s) && s.r == 0 && limits.perHour(from(s.c)) >= 1
    ensures Reach(limits, from, CountedByPeer(s))
  {
    var hub :| RunTo(limits, hub) && At(hub, from, s);
    RunToInv(limits, hub);
    var next := TakePeersCount(limits, hub, from, s);
    RunsOn(limits, hub, CountPeer(s.c, 0, from(s.c)), next);
  }

  lemma ReachHubsCount(limits: Limits, from: nat -> Peer, s: Place)
    requires Reach(limits, from, s) && s.r < limits.hub && s.d < s.c
    ensures Reach(limits, from, CountedByHub(s))
  {
    var hub :| RunTo(limits, hub) && At(hub, from, s);
    RunToInv(limits, hub);
    var next := TakeHubsCount(limits, hub, from, s);
    RunsOn(limits, hub, CountAll(s.d, 0), next);
  }

  lemma ReachRow(limits: Limits, from: nat -> Peer, s: Place)
    requires Reach(limits, from, s) && s.r < s.d
    ensures Reach(limits, from, Recorded(s))
  {
    var hub :| RunTo(limits, hub) && At(hub, from, s);
    RunToInv(limits, hub);
    var next := WritesRow(limits, hub, from, s);
    RunsOn(limits, hub, Record(s.r, 0), next);
  }

  /** Places that hold the first one and go along with every step of `upto` handlers. */
  ghost predicate Closed(places: Place -> bool, all: nat, upto: nat) {
    && places(Place(0, 0, 0, 0))
    && (forall s {:trigger CountedByPeer(s)} :: places(s) && s.r == 0 && s.c < upto ==> places(CountedByPeer(s)))
    && (forall s {:trigger CountedByHub(s)} :: places(s) && s.r < all && s.d < s.c ==> places(CountedByHub(s)))
    && (forall s {:trigger Recorded(s)} :: places(s) && s.r < s.d ==> places(Recorded(s)))
  }

  /** Everybody takes their peer's count... */
  lemma {:induction false} AllTakePeersCount(places: Place -> bool, all: nat, upto: nat, c: nat)
    requires Closed(places, all, upto) && c <= upto
    ensures places(Place(c, 0, 0, 0))
  {
    if c > 0 {
      AllTakePeersCount(places, all, upto, c - 1);
      assert CountedByPeer(Place(c - 1, 0, 0, 0)) == Place(c, 0, 0, 0);
    }
  }

  /** ...then n go on one after the other... */
  lemma {:induction false} GoOnSerially(places: Place -> bool, all: nat, upto: nat, n: nat)
    requires Closed(places, all, upto) && n <= all && n <= upto
    ensures places(Place(upto, n, n, if n == 0 then 0 else 1))
  {
    if n == 0 {
      AllTakePeersCount(places, all, upto, upto);
    } else {
      GoOnSerially(places, all, upto, n - 1);
      var one := CountedByHub(Place(upto, n - 1, n - 1, if n == 1 then 0 else 1));
      assert one == Place(upto, n, n - 1, 1);
      assert Recorded(one) == Place(upto, n, n, 1);
    }
  }

  /** ...then k take the hub's count before any is recorded... */
  lemma {:induction false} AllTakeHubsCount(places: Place -> bool, all: nat, upto: nat, n: nat, k: nat, m: nat)
    requires Closed(places, all, upto) && places(Place(upto, n, n, m)) && n < all && n + k <= upto
    ensures places(Place(upto, n + k, n, Larger(m, k)))
  {
    if k > 0 {
      AllTakeHubsCount(places, all, upto, n, k - 1, m);
      assert CountedByHub(Place(upto, n + k - 1, n, Larger(m, k - 1))) == Place(upto, n + k, n, Larger(m, k));
    }
  }

  /** ...and then all of them are. */
  lemma {:induction false} AllRecorded(places: Place -> bool, all: nat, upto: nat, n: nat, k: nat, m: nat)
    requires Closed(places, all, upto) && places(Place(upto, upto, n, m)) && n + k <= upto
    ensures places(Place(upto, upto, n + k, m))
  {
    if k > 0 {
      AllRecorded(places, all, upto, n, k - 1, m);
      assert Recorded(Place(upto, upto, n + k - 1, m)) == Place(upto, upto, n + k, m);
    }
  }

  lemma SerialThenTogether(places: Place -> bool, all: nat, n: nat, k: nat)
    requires Closed(places, all, n + k) && n < all && k >= 1
    ensures places(Place(n + k, n + k, n + k, k))
  {
    var m := if n == 0 then 0 else 1;
    GoOnSerially(places, all, n + k, n);
    AllTakeHubsCount(places, all, n + k, n, k, m);
    AllRecorded(places, all, n + k, n, k, k);
  }

  lemma ReachIsClosed(limits: Limits, from: nat -> Peer, upto: nat, places: Place -> bool)
    requires forall s :: places(s) <==> Reach(limits, from, s)
    requires forall h :: 0 <= h < upto ==> limits.perHour(from(h)) >= 1
    ensures Closed(places, limits.hub, upto)
  {
    NothingYet(limits, from);
    forall s | places(s)
      ensures s.r == 0 && s.c < upto ==> places(CountedByPeer(s))
      ensures s.r < limits.hub && s.d < s.c ==> places(CountedByHub(s))
      ensures s.r < s.d ==> places(Recorded(s))
    {
      if s.r == 0 && s.c < upto {
        ReachPeersCount(limits, from, s);
      }
      if s.r < limits.hub && s.d < s.c {
        ReachHubsCount(limits, from, s);
      }
      if s.r < s.d {
        ReachRow(limits, from, s);
      }
    }
  }

  /** The hub's allowance H is overrun by as much as the bound allows, whatever the
      peers' own are, so long as they are not 0: for every k there is a run that
      never has more than k handlers between the hub's count and the record at
      once and accepts H - 1 + k jobs in one hour.  The handlers may be anybody's:
      when each is of a peer of its own, no peer ever has two at once. */
  lemma HubIsOverrun(limits: Limits, from: nat -> Peer, k: nat) returns (hub: Hub)
    requires limits.hub >= 1 && k >= 1
    requires forall h :: 0 <= h < limits.hub - 1 + k ==> limits.perHour(from(h)) >= 1
    ensures RunTo(limits, hub) && GateOf(hub, None).most == k
    ensures InWindow(hub, None, 0) == limits.hub - 1 + k
    ensures forall p :: OnlyOnce(from, p) ==> GateOf(hub, Some(p)).most <= 1
  {
    var n := limits.hub - 1;
    ghost var places := (s: Place) => Reach(limits, from, s);
    ReachIsClosed(limits, from, n + k, places);
    SerialThenTogether(places, limits.hub, n, k);
    hub :| RunTo(limits, hub) && At(hub, from, Place(n + k, n + k, n + k, k));
    CountZeros(n + k);
  }

  // ---------------------------------------------------------------- exactly when it is kept

  lemma {:induction false} SomebodysJob(jobs: seq<Job>) returns (p: Peer)
    requires Accepted(jobs, None) != []
    ensures Accepted(jobs, Some(p)) != []
    decreases |jobs|
  {
    var j := Last(jobs);
    if j.accepted {
      p := j.peer;
    } else {
      p := SomebodysJob(Init(jobs));
    }
  }

  /** Nothing is accepted from anyone whose allowance is 0. */
  lemma NobodyAllowed(limits: Limits, hub: Hub)
    requires RunTo(limits, hub) && forall p :: limits.perHour(p) == 0
    ensures Accepted(hub.jobs, None) == []
  {
    RunToInv(limits, hub);
    if Accepted(hub.jobs, None) != [] {
      var p := SomebodysJob(hub.jobs);
      assert Tracks(hub, GateOf(hub, Some(p)), LimitOf(limits, Some(p)), Some(p));
      NothingAccepted(GateOf(hub, Some(p)), hub.clock);
      assert false;
    }
  }

  /** Exactly when the hub's allowance is kept in every run with at most k handlers
      between the hub's count and the record at once: when k is at most 1, or
      nothing is allowed at all. */
  lemma HubKeptExactly(limits: Limits, k: nat)
    ensures AlwaysKept(limits, None, k) <==> k <= 1 || limits.hub == 0 || forall p :: limits.perHour(p) == 0
  {
    if k <= 1 || limits.hub == 0 {
      forall hub | RunTo(limits, hub)
        ensures KeptIn(limits, hub, None, k)
      {
        KeptSerially(limits, hub, None, k);
      }
    } else if forall p :: limits.perHour(p) == 0 {
      forall hub | RunTo(limits, hub)
        ensures KeptIn(limits, hub, None, k)
      {
        NobodyAllowed(limits, hub);
      }
    } else {
      var p :| limits.perHour(p) != 0;
      var hub := HubIsOverrun(limits, (h: nat) => p, k);
      assert InWindow(hub, None, 0) > LimitOf(limits, None);
    }
  }
}
