/** A peer whose own allowance is larger than the hub's: what the hub's count, which
    every accepted job also passes (hub/internal/peers/peers.go, handleJob), does to
    that one peer. */
module PeerUnderHub {
  import opened Admission
  import opened Sequences

  /** What a step means to a gate of one peer's handlers that is entered at the
      hub's count. */
  function HubAction(limits: Limits, hub: Hub, step: Step, peer: Peer): Action
    requires Enabled(hub, step)
  {
    if step.CountPeer? || hub.stages[step.h].peer != peer then Stay
    else
      match step
      case CountAll(_, now) => if PassesAll(limits, hub, now) then In else Stay
      case Refuse(_, _) => Out
      case _ => Kept
  }

  /** The gate's books: the peer's rows under the hub's limit, and its handlers
      between the hub's count and the record, who are some of those between the
      peer's own count and the record. */
  ghost predicate Joint(limits: Limits, hub: Hub, g: Gate, peer: Peer) {
    && GateInv(g, limits.hub, hub.clock)
    && Accepted(hub.jobs, Some(peer)) == Times(g.rows)
    && RowsAreDone(hub, g)
    && AtHubStage(hub.stages, g, peer)
    && g.most <= GateOf(hub, Some(peer)).most && MostCovers(GateOf(hub, Some(peer)))
  }

  ghost predicate AtHubStage(stages: map<Handler, Stage>, g: Gate, peer: Peer) {
    forall h :: h in g.between <==> h in stages && stages[h] == Stage(peer, true)
  }

  ghost predicate MostCovers(g: Gate) {
    |g.between.Keys| <= g.most
  }

  lemma {:induction false} Subset<T>(a: set<T>, b: set<T>)
    requires a <= b
    ensures |a| <= |b|
  {
    assert b == a + (b - a);
  }

  lemma ActCovers(g: Gate, action: Action, h: Handler, now: int)
    requires MostCovers(g)
    ensures MostCovers(Act(g, action, h, now)) && g.most <= Act(g, action, h, now).most
  {
    match action
    case Stay =>
    case In => assert Enter(g, h, now).between.Keys == g.between.Keys + {h};
    case Out => Subset(Drop(g, h).between.Keys, g.between.Keys);
    case Kept =>
      if h in g.between {
        Subset(Keep(g, h, now).between.Keys, g.between.Keys);
      }
  }

  lemma OneMoreJob(jobs: seq<Job>, j: Job, peer: Peer, lo: int)
    requires CountSince(Accepted(jobs, Some(peer)), lo) <= CountSince(Accepted(jobs, None), lo)
    ensures CountSince(Accepted(jobs + [j], Some(peer)), lo) <= CountSince(Accepted(jobs + [j], None), lo)
  {
    var own, all := Accepted(jobs, Some(peer)), Accepted(jobs, None);
    AcceptedSnoc(jobs, j, Some(peer));
    AcceptedSnoc(jobs, j, None);
    CountSnoc(own, j.at, lo);
    CountSnoc(all, j.at, lo);
    assert own + [] == own && all + [] == all;
  }

  /** A peer's jobs are among all. */
  lemma {:induction false} PeerWithinAll(jobs: seq<Job>, peer: Peer, lo: int)
    ensures CountSince(Accepted(jobs, Some(peer)), lo) <= CountSince(Accepted(jobs, None), lo)
    decreases |jobs|
  {
    if jobs != [] {
      PeerWithinAll(Init(jobs), peer, lo);
      OneMoreJob(Init(jobs), Last(jobs), peer, lo);
      assert jobs == Init(jobs) + [Last(jobs)];
    }
  }

  lemma CountSnoc(times: seq<int>, at: int, lo: int)
    ensures CountSince(times + [at], lo) == CountSince(times, lo) + if at > lo then 1 else 0
  {
    assert Init(times + [at]) == times;
  }

  lemma EntersUnseen(limits: Limits, hub: Hub, step: Step, g: Gate, peer: Peer)
    requires Enabled(hub, step) && HubAction(limits, hub, step, peer) == In
    requires RowsAreDone(hub, g) && AtHubStage(hub.stages, g, peer) && Accepted(hub.jobs, Some(peer)) == Times(g.rows)
    ensures Unseen(g, step.h) && CountSince(Times(g.rows), step.now - HOUR) < limits.hub
  {
    PeerWithinAll(hub.jobs, peer, step.now - HOUR);
  }

  lemma ActionKeepsGate(g: Gate, limit: nat, clock: int, action: Action, h: Handler, now: int)
    requires GateInv(g, limit, clock) && clock <= now
    requires action == In ==> Unseen(g, h) && CountSince(Times(g.rows), now - HOUR) < limit
    ensures GateInv(Act(g, action, h, now), limit, now)
  {
    TimeMovesOn(g, limit, clock, now);
    match action
    case Stay =>
    case In => EnterKeeps(g, limit, clock, h, now);
    case Out => DropKeeps(g, limit, now, h);
    case Kept =>
      if h in g.between {
        KeepKeeps(g, limit, clock, h, now);
      }
  }

  lemma JointKeepsGate(limits: Limits, hub: Hub, step: Step, g: Gate, peer: Peer)
    requires Enabled(hub, step) && Joint(limits, hub, g, peer)
    ensures GateInv(Act(g, HubAction(limits, hub, step, peer), step.h, step.now), limits.hub, step.now)
  {
    if HubAction(limits, hub, step, peer) == In {
      EntersUnseen(limits, hub, step, g, peer);
    }
    ActionKeepsGate(g, limits.hub, hub.clock, HubAction(limits, hub, step, peer), step.h, step.now);
  }

  lemma KeptTogether(limits: Limits, hub: Hub, step: Step, peer: Peer)
    requires Enabled(hub, step)
    ensures HubAction(limits, hub, step, peer) == Kept <==> ActionOn(limits, hub, step, Some(peer)) == Kept
    ensures HubAction(limits, hub, step, peer) == Kept ==> step.h in hub.stages && hub.stages[step.h] == Stage(peer, true)
  {
  }

  lemma JointKeepsRows(limits: Limits, hub: Hub, step: Step, g: Gate, peer: Peer)
    requires Enabled(hub, step) && RowsAreDone(hub, g) && hub.stages.Keys <= hub.used
    ensures RowsAreDone(Next(limits, hub, step), Act(g, HubAction(limits, hub, step, peer), step.h, step.now))
  {
  }

  lemma JointStages(limits: Limits, hub: Hub, step: Step, peer: Peer)
    requires Enabled(hub, step) && hub.stages.Keys <= hub.used
    ensures step.h in StagesAfter(limits, hub, step) && StagesAfter(limits, hub, step)[step.h] == Stage(peer, true)
       <==> HubAction(limits, hub, step, peer) == In
    ensures HubAction(limits, hub, step, peer) == Stay ==>
              !(step.h in hub.stages && hub.stages[step.h] == Stage(peer, true))
  {
  }

  lemma ActElsewhere(g: Gate, action: Action, h: Handler, now: int, other: Handler)
    requires other != h
    ensures other in Act(g, action, h, now).between <==> other in g.between
  {
  }

  lemma JointKeepsStage(limits: Limits, hub: Hub, step: Step, g: Gate, peer: Peer)
    requires Enabled(hub, step) && AtHubStage(hub.stages, g, peer) && hub.stages.Keys <= hub.used
    ensures AtHubStage(StagesAfter(limits, hub, step), Act(g, HubAction(limits, hub, step, peer), step.h, step.now), peer)
  {
    var action := HubAction(limits, hub, step, peer);
    ActBetween(g, action, step.h, step.now);
    JointStages(limits, hub, step, peer);
    forall h | h != step.h
      ensures h in Act(g, action, step.h, step.now).between
         <==> h in StagesAfter(limits, hub, step) && StagesAfter(limits, hub, step)[h] == Stage(peer, true)
    {
      ActElsewhere(g, action, step.h, step.now, h);
      BetweenElsewhere(limits, hub, step, g, Some(peer), h);
    }
  }

  lemma OwnGateHolds(hub: Hub, own: Gate, g: Gate, peer: Peer, h: Handler)
    requires BetweenAreAtWork(hub, own, Some(peer)) && AtHubStage(hub.stages, g, peer)
    requires h in hub.stages && hub.stages[h].peer == peer && MostCovers(own)
    ensures |g.between.Keys + {h}| <= own.most
  {
    forall i | i in g.between.Keys + {h}
      ensures i in own.between.Keys
    {
    }
    Subset(g.between.Keys + {h}, own.between.Keys);
  }

  /** At the hub's count no more are in this gate than between the peer's own
      count and the record. */
  lemma JointKeepsMost(limits: Limits, hub: Hub, step: Step, g: Gate, own: Gate, peer: Peer)
    requires Enabled(hub, step) && BetweenAreAtWork(hub, own, Some(peer)) && AtHubStage(hub.stages, g, peer)
    requires g.most <= own.most && MostCovers(own)
    ensures var own' := Act(own, ActionOn(limits, hub, step, Some(peer)), step.h, step.now);
            Act(g, HubAction(limits, hub, step, peer), step.h, step.now).most <= own'.most && MostCovers(own')
  {
    ActCovers(own, ActionOn(limits, hub, step, Some(peer)), step.h, step.now);
    if HubAction(limits, hub, step, peer) == In {
      OwnGateHolds(hub, own, g, peer, step.h);
    }
  }

  lemma JointStep(limits: Limits, hub: Hub, step: Step, g: Gate, peer: Peer) returns (g': Gate)
    requires Enabled(hub, step) && Joint(limits, hub, g, peer) && hub.stages.Keys <= hub.used
    requires BetweenAreAtWork(hub, GateOf(hub, Some(peer)), Some(peer))
    ensures Joint(limits, Next(limits, hub, step), g', peer)
  {
    g' := Act(g, HubAction(limits, hub, step, peer), step.h, step.now);
    JointKeepsGate(limits, hub, step, g, peer);
    KeptTogether(limits, hub, step, peer);
    AcceptedAfter(limits, hub, step, Some(peer));
    TimesAct(g, HubAction(limits, hub, step, peer), step.h, step.now);
    JointKeepsRows(limits, hub, step, g, peer);
    JointKeepsStage(limits, hub, step, g, peer);
    JointKeepsMost(limits, hub, step, g, GateOf(hub, Some(peer)), peer);
    NextGate(limits, hub, step, Some(peer));
  }

  lemma JointAtStart(limits: Limits, peer: Peer)
    ensures Joint(limits, IDLE, EMPTY, peer)
  {
    assert Times(EMPTY.rows) == [];
  }

  lemma AtWorkInRun(limits: Limits, states: seq<Hub>, steps: seq<Step>, k: nat, peer: Peer)
    requires IsRun(limits, states, steps) && k < |steps|
    ensures states[k].stages.Keys <= states[k].used
    ensures BetweenAreAtWork(states[k], GateOf(states[k], Some(peer)), Some(peer))
    ensures StepsTo(limits, states[k], steps[k], states[k + 1])
  {
    Reached(limits, states, steps, k);
    assert Tracks(states[k], GateOf(states[k], Some(peer)), LimitOf(limits, Some(peer)), Some(peer));
  }

  lemma {:induction false} JointReached(limits: Limits, states: seq<Hub>, steps: seq<Step>, k: nat, peer: Peer) returns (g: Gate)
    requires IsRun(limits, states, steps) && k < |states|
    ensures Joint(limits, states[k], g, peer)
  {
    if k == 0 {
      JointAtStart(limits, peer);
      g := EMPTY;
    } else {
      g := JointReached(limits, states, steps, k - 1, peer);
      AtWorkInRun(limits, states, steps, k - 1, peer);
      g := JointStep(limits, states[k - 1], steps[k - 1], g, peer);
    }
  }

  /** The hub's allowance bounds each peer as the peer's own does: in every window
      of an hour at most the hub's - 1 + K of one peer's jobs are accepted, K the
      most of that peer's handlers ever between its count and the record. */
  lemma HubBoundsPeer(limits: Limits, states: seq<Hub>, steps: seq<Step>, k: nat, peer: Peer, t: int)
    requires IsRun(limits, states, steps) && k < |states|
    ensures var n := CountBetween(Accepted(states[k].jobs, Some(peer)), t - HOUR, t);
            n > 0 ==> n <= limits.hub - 1 + GateOf(states[k], Some(peer)).most
  {
    var g := JointReached(limits, states, steps, k, peer);
    AnyWindow(g, limits.hub, states[k].clock, t);
  }
}
