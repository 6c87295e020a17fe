/** Hourly allowances: the counts `handleJob` (hub/internal/peers/peers.go) takes
    before it accepts a peer's job, over the rows of hub/internal/store/peers.go.

    The count and the record are two statements with other handlers in between,
    so the allowance can be overrun; by how much is what is proved here.  Times
    are instants of one clock that does not run backwards. */
module Admission {
  import opened Sequences

  type Handler = nat
  datatype Peer = Peer(id: string)

  /** An hour, in the milliseconds the rows are stamped with. */
  const HOUR := 3600_000

  /** SELECT COUNT(*) ... WHERE at > lo */
  function CountSince(times: seq<int>, lo: int): nat {
    if times == [] then 0 else CountSince(Init(times), lo) + if Last(times) > lo then 1 else 0
  }

  /** How many of these instants lie in the window (lo, hi]. */
  function CountBetween(times: seq<int>, lo: int, hi: int): nat {
    if times == [] then 0 else CountBetween(Init(times), lo, hi) + if lo < Last(times) <= hi then 1 else 0
  }

  ghost predicate Sorted(times: seq<int>) {
    forall i, j :: 0 <= i < j < |times| ==> times[i] <= times[j]
  }

  /** In a sorted list a window is one stretch of indices. */
  lemma {:induction false} WindowIsStretch(times: seq<int>, lo: int, hi: int) returns (i: nat, j: nat)
    requires Sorted(times)
    ensures i <= j <= |times| && CountBetween(times, lo, hi) == j - i
    ensures forall k :: i <= k < j ==> lo < times[k] <= hi
    ensures forall k :: j <= k < |times| && i < j ==> times[k] > hi
    decreases |times|
  {
    if times == [] {
      i, j := 0, 0;
    } else {
      i, j := WindowIsStretch(Init(times), lo, hi);
      if lo < Last(times) <= hi {
        if i < j {
          assert forall k :: j <= k < |times| - 1 ==> times[k] <= Last(times);
          j := |times|;
        } else {
          i, j := |times| - 1, |times|;
        }
      } else if i == j {
        i, j := 0, 0;
      } else {
        assert times[j - 1] <= Last(times);
      }
    }
  }

  lemma {:induction false} CountSinceAtLeast(times: seq<int>, lo: int, i: nat)
    requires i <= |times| && forall k :: i <= k < |times| ==> times[k] > lo
    ensures CountSince(times, lo) >= |times| - i
    decreases |times|
  {
    if i < |times| {
      CountSinceAtLeast(Init(times), lo, i);
    }
  }

  // ---------------------------------------------------------------- one allowance

  /** A handler's count: when it was taken, how many rows there were, its place
      among all counts, and who was between count and record then, itself
      included. */
  datatype Pass = Pass(at: int, recorded: nat, order: nat, among: set<Handler>)

  datatype Row = Row(handler: Handler, at: int, pass: Pass)

  /** The rows under one allowance, the handlers between their count and their
      record, how many counts there have been, and the most handlers there have
      been in between at once. */
  datatype Gate = Gate(rows: seq<Row>, between: map<Handler, Pass>, order: nat, most: nat)

  const EMPTY := Gate([], map[], 0, 0)

  function Times(rows: seq<Row>): seq<int> {
    seq(|rows|, i requires 0 <= i < |rows| => rows[i].at)
  }

  function Enter(g: Gate, h: Handler, now: int): Gate {
    var among := g.between.Keys + {h};
    g.(between := g.between[h := Pass(now, |g.rows|, g.order, among)],
       order := g.order + 1,
       most := if |among| > g.most then |among| else g.most)
  }

  function Drop(g: Gate, h: Handler): Gate {
    g.(between := g.between - {h})
  }

  function Keep(g: Gate, h: Handler, now: int): Gate
    requires h in g.between
  {
    Gate(g.rows + [Row(h, now, g.between[h])], g.between - {h}, g.order, g.most)
  }

  /** A count below the limit is one at which fewer rows than that were within
      the hour. */
  ghost predicate PassInv(g: Gate, limit: nat, clock: int, p: Pass) {
    && p.at <= clock && p.recorded <= |g.rows| && p.order < g.order && |p.among| <= g.most
    && limit >= 1 && forall i :: 0 <= i < p.recorded && g.rows[i].at > p.at - HOUR ==> p.recorded - i < limit
  }

  /** Whoever is recorded after a count, or still in between, was in between at
      that count or counted later. */
  ghost predicate OrderInv(g: Gate, p: Pass) {
    && (forall i :: p.recorded <= i < |g.rows| ==> g.rows[i].handler in p.among || g.rows[i].pass.order > p.order)
    && (forall h :: h in g.between ==> h in p.among || g.between[h].order > p.order)
  }

  ghost predicate GateInv(g: Gate, limit: nat, clock: int) {
    && (forall i, j :: 0 <= i < j < |g.rows| ==> g.rows[i].at <= g.rows[j].at)
    && (forall i :: 0 <= i < |g.rows| ==> && g.rows[i].at <= clock && g.rows[i].pass.at <= g.rows[i].at
                                          && g.rows[i].pass.recorded <= i && g.rows[i].handler !in g.between)
    && (forall i, j :: 0 <= i < j < |g.rows| ==> g.rows[i].handler != g.rows[j].handler)
    && (forall i :: 0 <= i < |g.rows| ==> PassInv(g, limit, clock, g.rows[i].pass) && OrderInv(g, g.rows[i].pass))
    && (forall h :: h in g.between ==> PassInv(g, limit, clock, g.between[h]) && OrderInv(g, g.between[h]))
  }

  ghost predicate Unseen(g: Gate, h: Handler) {
    h !in g.between && forall i :: 0 <= i < |g.rows| ==> g.rows[i].handler != h
  }

  lemma TimeMovesOn(g: Gate, limit: nat, clock: int, now: int)
    requires GateInv(g, limit, clock) && clock <= now
    ensures GateInv(g, limit, now)
  {
  }

  lemma EnterKeepsPass(g: Gate, limit: nat, clock: int, h: Handler, now: int, p: Pass)
    requires clock <= now && PassInv(g, limit, clock, p) && OrderInv(g, p)
    ensures PassInv(Enter(g, h, now), limit, now, p) && OrderInv(Enter(g, h, now), p)
  {
  }

  lemma EnteredPass(g: Gate, limit: nat, clock: int, h: Handler, now: int)
    requires GateInv(g, limit, clock) && CountSince(Times(g.rows), now - HOUR) < limit
    ensures var e := Enter(g, h, now); PassInv(e, limit, now, e.between[h]) && OrderInv(e, e.between[h])
  {
    forall i | 0 <= i < |g.rows| && g.rows[i].at > now - HOUR
      ensures |g.rows| - i < limit
    {
      CountSinceAtLeast(Times(g.rows), now - HOUR, i);
    }
  }

  lemma EnterKeeps(g: Gate, limit: nat, clock: int, h: Handler, now: int)
    requires GateInv(g, limit, clock) && clock <= now && Unseen(g, h)
    requires CountSince(Times(g.rows), now - HOUR) < limit
    ensures GateInv(Enter(g, h, now), limit, now)
  {
    var e := Enter(g, h, now);
    forall i | 0 <= i < |e.rows|
      ensures PassInv(e, limit, now, e.rows[i].pass) && OrderInv(e, e.rows[i].pass)
    {
      EnterKeepsPass(g, limit, clock, h, now, e.rows[i].pass);
    }
    forall h' | h' in e.between
      ensures PassInv(e, limit, now, e.between[h']) && OrderInv(e, e.between[h'])
    {
      if h' == h {
        EnteredPass(g, limit, clock, h, now);
      } else {
        EnterKeepsPass(g, limit, clock, h, now, e.between[h']);
      }
    }
  }

  lemma DropKeepsPass(g: Gate, limit: nat, clock: int, h: Handler, p: Pass)
    requires PassInv(g, limit, clock, p) && OrderInv(g, p)
    ensures PassInv(Drop(g, h), limit, clock, p) && OrderInv(Drop(g, h), p)
  {
  }

  lemma DropKeeps(g: Gate, limit: nat, clock: int, h: Handler)
    requires GateInv(g, limit, clock)
    ensures GateInv(Drop(g, h), limit, clock)
  {
    var d := Drop(g, h);
    forall i | 0 <= i < |d.rows|
      ensures PassInv(d, limit, clock, d.rows[i].pass) && OrderInv(d, d.rows[i].pass)
    {
      DropKeepsPass(g, limit, clock, h, d.rows[i].pass);
    }
    forall h' | h' in d.between
      ensures PassInv(d, limit, clock, d.between[h']) && OrderInv(d, d.between[h'])
    {
      DropKeepsPass(g, limit, clock, h, d.between[h']);
    }
  }

  lemma KeepKeepsPass(g: Gate, limit: nat, clock: int, h: Handler, now: int, p: Pass)
    requires clock <= now && h in g.between && PassInv(g, limit, clock, p) && OrderInv(g, p)
    ensures PassInv(Keep(g, h, now), limit, now, p) && OrderInv(Keep(g, h, now), p)
  {
  }

  lemma KeepKeeps(g: Gate, limit: nat, clock: int, h: Handler, now: int)
    requires GateInv(g, limit, clock) && clock <= now && h in g.between
    ensures GateInv(Keep(g, h, now), limit, now)
  {
    var k := Keep(g, h, now);
    forall i | 0 <= i < |k.rows|
      ensures PassInv(k, limit, now, k.rows[i].pass) && OrderInv(k, k.rows[i].pass)
    {
      KeepKeepsPass(g, limit, clock, h, now, k.rows[i].pass);
    }
    forall h' | h' in k.between
      ensures PassInv(k, limit, now, k.between[h']) && OrderInv(k, k.between[h'])
    {
      KeepKeepsPass(g, limit, clock, h, now, k.between[h']);
    }
  }

  /** The row of a stretch whose count came last. */
  lemma {:induction false} LatestCount(rows: seq<Row>, i: nat, j: nat) returns (x: nat)
    requires i < j <= |rows|
    ensures i <= x < j && forall k :: i <= k < j ==> rows[k].pass.order <= rows[x].pass.order
    decreases j
  {
    if j == i + 1 {
      x := i;
    } else {
      x := LatestCount(rows, i, j - 1);
      if rows[x].pass.order < rows[j - 1].pass.order {
        x := j - 1;
      }
    }
  }

  lemma {:induction false} DistinctFit(rows: seq<Row>, i: nat, j: nat, among: set<Handler>)
    requires i <= j <= |rows|
    requires forall k, l :: 0 <= k < l < |rows| ==> rows[k].handler != rows[l].handler
    requires forall k :: i <= k < j ==> rows[k].handler in among
    ensures j - i <= |among|
    decreases j
  {
    if i < j {
      DistinctFit(rows, i, j - 1, among - {rows[j - 1].handler});
    }
  }

  lemma TimesAreSorted(g: Gate, limit: nat, clock: int)
    requires GateInv(g, limit, clock)
    ensures Sorted(Times(g.rows))
  {
  }

  /** The rows of a stretch recorded after a count that was the last of theirs
      were in between with it. */
  lemma RecordedAfter(rows: seq<Row>, p: Pass, from: nat, j: nat)
    requires p.recorded <= from <= j <= |rows|
    requires forall k, l :: 0 <= k < l < |rows| ==> rows[k].handler != rows[l].handler
    requires forall k :: p.recorded <= k < |rows| ==> rows[k].handler in p.among || rows[k].pass.order > p.order
    requires forall k :: from <= k < j ==> rows[k].pass.order <= p.order
    ensures j - from <= |p.among|
  {
    DistinctFit(rows, from, j, p.among);
  }

  /** Rows within an hour of each other: those recorded before the latest of
      their counts were counted by it, the rest were in between with it. */
  lemma StretchIsBounded(g: Gate, limit: nat, clock: int, i: nat, j: nat)
    requires GateInv(g, limit, clock) && i < j <= |g.rows|
    requires g.rows[j - 1].at - g.rows[i].at < HOUR
    ensures j - i <= limit - 1 + g.most
  {
    var x := LatestCount(g.rows, i, j);
    var p := g.rows[x].pass;
    assert PassInv(g, limit, clock, p) && OrderInv(g, p);
    assert p.at <= g.rows[x].at <= g.rows[j - 1].at;
    RecordedAfter(g.rows, p, if p.recorded > i then p.recorded else i, j);
  }

  /** Any window of an hour holds at most limit - 1 + K rows, K being the most
      handlers ever in between at once. */
  lemma AnyWindow(g: Gate, limit: nat, clock: int, t: int)
    requires GateInv(g, limit, clock)
    ensures CountBetween(Times(g.rows), t - HOUR, t) > 0 ==>
              CountBetween(Times(g.rows), t - HOUR, t) <= limit - 1 + g.most
  {
    TimesAreSorted(g, limit, clock);
    var i, j := WindowIsStretch(Times(g.rows), t - HOUR, t);
    if i < j {
      assert Times(g.rows)[i] == g.rows[i].at && Times(g.rows)[j - 1] == g.rows[j - 1].at;
      StretchIsBounded(g, limit, clock, i, j);
    }
  }

  // ---------------------------------------------------------------- the hub

  /** A `served` row of peer_jobs. */
  datatype Job = Job(handler: Handler, peer: Peer, at: int, accepted: bool)

  /** When jobs were accepted, from one peer or from the whole space. */
  function Accepted(jobs: seq<Job>, who: Option<Peer>): seq<int> {
    if jobs == [] then []
    else
      var j := Last(jobs);
      Accepted(Init(jobs), who) + if j.accepted && (who == None || who.value == j.peer) then [j.at] else []
  }

  function ServedInLastHour(jobs: seq<Job>, peer: Peer, now: int): nat {
    CountSince(Accepted(jobs, Some(peer)), now - HOUR)
  }

  function ServedInLastHourAll(jobs: seq<Job>, now: int): nat {
    CountSince(Accepted(jobs, None), now - HOUR)
  }

  /** Fixed settings: each peer's allowance and the hub's own. */
  datatype Limits = Limits(perHour: Peer -> nat, hub: nat)

  datatype Stage = Stage(peer: Peer, countedAll: bool)

  /** The rows, where each handler at work stands, and the bookkeeping of who
      was in between when: one gate a peer and one for the hub. */
  datatype Hub = Hub(
    jobs: seq<Job>, stages: map<Handler, Stage>, used: set<Handler>, clock: int, peers: map<Peer, Gate>, all: Gate)

  const IDLE := Hub([], map[], {}, 0, map[], EMPTY)

  /** `handleJob` from the first count to the accepted row.  Refuse is any later
      refusal: over the concurrency limit, or nothing holds the model. */
  datatype Step =
    | CountPeer(h: Handler, now: int, peer: Peer)
    | CountAll(h: Handler, now: int)
    | Refuse(h: Handler, now: int)
    | Record(h: Handler, now: int)

  /** The gate of one peer, or of the whole space. */
  function GateOf(hub: Hub, who: Option<Peer>): Gate {
    if who == None then hub.all
    else if who.value in hub.peers then hub.peers[who.value] else EMPTY
  }

  function LimitOf(limits: Limits, who: Option<Peer>): nat {
    if who == None then limits.hub else limits.perHour(who.value)
  }

  predicate Concerns(peer: Peer, who: Option<Peer>) {
    who == None || who.value == peer
  }

  predicate Enabled(hub: Hub, step: Step) {
    hub.clock <= step.now &&
    if step.CountPeer? then step.h !in hub.used
    else step.h in hub.stages && hub.stages[step.h].countedAll == !step.CountAll?
  }

  predicate PassesPeer(limits: Limits, hub: Hub, peer: Peer, now: int) {
    ServedInLastHour(hub.jobs, peer, now) < limits.perHour(peer)
  }

  predicate PassesAll(limits: Limits, hub: Hub, now: int) {
    ServedInLastHourAll(hub.jobs, now) < limits.hub
  }

  datatype Action = Stay | In | Out | Kept

  /** What a step means to one gate. */
  function ActionOn(limits: Limits, hub: Hub, step: Step, who: Option<Peer>): Action
    requires Enabled(hub, step)
  {
    match step
    case CountPeer(_, now, peer) => if who == Some(peer) && PassesPeer(limits, hub, peer, now) then In else Stay
    case CountAll(h, now) =>
      if PassesAll(limits, hub, now) then if who == None then In else Stay
      else if who == Some(hub.stages[h].peer) then Out else Stay
    case Refuse(h, _) => if Concerns(hub.stages[h].peer, who) then Out else Stay
    case Record(h, _) => if Concerns(hub.stages[h].peer, who) then Kept else Stay
  }

  function Act(g: Gate, action: Action, h: Handler, now: int): Gate {
    match action
    case Stay => g
    case In => Enter(g, h, now)
    case Out => Drop(g, h)
    case Kept => if h in g.between then Keep(g, h, now) else g
  }

  /** The row a step inserts, if any, and where it leaves the handler. */
  function RowOf(limits: Limits, hub: Hub, step: Step): Option<Job>
    requires Enabled(hub, step)
  {
    match step
    case CountPeer(h, now, peer) => if PassesPeer(limits, hub, peer, now) then None else Some(Job(h, peer, now, false))
    case CountAll(h, now) => if PassesAll(limits, hub, now) then None else Some(Job(h, hub.stages[h].peer, now, false))
    case Refuse(h, now) => Some(Job(h, hub.stages[h].peer, now, false))
    case Record(h, now) => Some(Job(h, hub.stages[h].peer, now, true))
  }

  function StagesAfter(limits: Limits, hub: Hub, step: Step): map<Handler, Stage>
    requires Enabled(hub, step)
  {
    match step
    case CountPeer(h, now, peer) => if PassesPeer(limits, hub, peer, now) then hub.stages[h := Stage(peer, false)] else hub.stages
    case CountAll(h, now) =>
      if PassesAll(limits, hub, now) then hub.stages[h := Stage(hub.stages[h].peer, true)] else hub.stages - {h}
    case Refuse(h, _) => hub.stages - {h}
    case Record(h, _) => hub.stages - {h}
  }

  function Next(limits: Limits, hub: Hub, step: Step): Hub
    requires Enabled(hub, step)
  {
    var peer := if step.CountPeer? then step.peer else hub.stages[step.h].peer;
    var row := RowOf(limits, hub, step);
    Hub(
      if row == None then hub.jobs else hub.jobs + [row.value],
      StagesAfter(limits, hub, step),
      hub.used + {step.h},
      step.now,
      hub.peers[peer := Act(GateOf(hub, Some(peer)), ActionOn(limits, hub, step, Some(peer)), step.h, step.now)],
      Act(hub.all, ActionOn(limits, hub, step, None), step.h, step.now))
  }

  predicate Belongs(stage: Stage, who: Option<Peer>) {
    if who == None then stage.countedAll else stage.peer == who.value
  }

  /** A gate keeps the books of one allowance of the hub. */
  ghost predicate Tracks(hub: Hub, g: Gate, limit: nat, who: Option<Peer>) {
    && GateInv(g, limit, hub.clock)
    && Accepted(hub.jobs, who) == Times(g.rows)
    && RowsAreDone(hub, g)
    && BetweenAreAtWork(hub, g, who)
  }

  ghost predicate RowsAreDone(hub: Hub, g: Gate) {
    forall i :: 0 <= i < |g.rows| ==> g.rows[i].handler in hub.used && g.rows[i].handler !in hub.stages
  }

  ghost predicate BetweenAreAtWork(hub: Hub, g: Gate, who: Option<Peer>) {
    forall h :: h in g.between <==> h in hub.stages && Belongs(hub.stages[h], who)
  }

  ghost predicate HubInv(limits: Limits, hub: Hub) {
    && hub.stages.Keys <= hub.used
    && forall who :: Tracks(hub, GateOf(hub, who), LimitOf(limits, who), who)
  }

  lemma NextGate(limits: Limits, hub: Hub, step: Step, who: Option<Peer>)
    requires Enabled(hub, step)
    ensures GateOf(Next(limits, hub, step), who)
         == Act(GateOf(hub, who), ActionOn(limits, hub, step, who), step.h, step.now)
  {
  }

  lemma AcceptedSnoc(jobs: seq<Job>, j: Job, who: Option<Peer>)
    ensures Accepted(jobs + [j], who)
         == Accepted(jobs, who) + if j.accepted && Concerns(j.peer, who) then [j.at] else []
  {
    assert Init(jobs + [j]) == jobs;
  }

  lemma LetInBelow(limits: Limits, hub: Hub, step: Step, g: Gate, who: Option<Peer>)
    requires Enabled(hub, step) && Tracks(hub, g, LimitOf(limits, who), who) && hub.stages.Keys <= hub.used
    requires ActionOn(limits, hub, step, who) == In
    ensures Unseen(g, step.h) && CountSince(Times(g.rows), step.now - HOUR) < LimitOf(limits, who)
  {
    assert CountSince(Accepted(hub.jobs, who), step.now - HOUR) < LimitOf(limits, who);
  }

  /** The gate's own invariant across one step. */
  lemma ActKeepsGate(limits: Limits, hub: Hub, step: Step, g: Gate, who: Option<Peer>)
    requires Enabled(hub, step) && Tracks(hub, g, LimitOf(limits, who), who) && hub.stages.Keys <= hub.used
    ensures GateInv(Act(g, ActionOn(limits, hub, step, who), step.h, step.now), LimitOf(limits, who), step.now)
  {
    var limit := LimitOf(limits, who);
    TimeMovesOn(g, limit, hub.clock, step.now);
    match ActionOn(limits, hub, step, who)
    case Stay =>
    case In =>
      LetInBelow(limits, hub, step, g, who);
      EnterKeeps(g, limit, hub.clock, step.h, step.now);
    case Out => DropKeeps(g, limit, step.now, step.h);
    case Kept =>
      if step.h in g.between {
        KeepKeeps(g, limit, hub.clock, step.h, step.now);
      }
  }

  /** A gate gains a row exactly when an accepted row that concerns it is inserted. */
  lemma RowIsKept(limits: Limits, hub: Hub, step: Step, who: Option<Peer>)
    requires Enabled(hub, step)
    ensures ActionOn(limits, hub, step, who) == Kept
       <==> RowOf(limits, hub, step).Some? && RowOf(limits, hub, step).value.accepted
            && Concerns(RowOf(limits, hub, step).value.peer, who)
    ensures ActionOn(limits, hub, step, who) == Kept ==>
              step.h in hub.stages && Belongs(hub.stages[step.h], who) && RowOf(limits, hub, step).value.at == step.now
  {
  }

  lemma TimesAct(g: Gate, action: Action, h: Handler, now: int)
    requires action == Kept ==> h in g.between
    ensures Times(Act(g, action, h, now).rows) == Times(g.rows) + if action == Kept then [now] else []
  {
    if action == Kept {
      assert Times(Keep(g, h, now).rows) == Times(g.rows) + [now];
    } else {
      assert Times(g.rows) + [] == Times(g.rows);
    }
  }

  lemma AcceptedAfter(limits: Limits, hub: Hub, step: Step, who: Option<Peer>)
    requires Enabled(hub, step)
    ensures Accepted(Next(limits, hub, step).jobs, who)
         == Accepted(hub.jobs, who) + if ActionOn(limits, hub, step, who) == Kept then [step.now] else []
  {
    RowIsKept(limits, hub, step, who);
    var jobs := Next(limits, hub, step).jobs;
    match RowOf(limits, hub, step)
    case None => assert jobs == hub.jobs;
    case Some(j) =>
      assert jobs == hub.jobs + [j];
      AcceptedSnoc(hub.jobs, j, who);
  }

  lemma ActKeepsRows(limits: Limits, hub: Hub, step: Step, g: Gate, who: Option<Peer>)
    requires Enabled(hub, step) && RowsAreDone(hub, g) && hub.stages.Keys <= hub.used
    ensures RowsAreDone(Next(limits, hub, step), Act(g, ActionOn(limits, hub, step, who), step.h, step.now))
  {
  }

  lemma ActBetween(g: Gate, action: Action, h: Handler, now: int)
    ensures h in Act(g, action, h, now).between <==> action == In || (action == Stay && h in g.between)
  {
  }

  lemma ActionAndStage(limits: Limits, hub: Hub, step: Step, who: Option<Peer>)
    requires Enabled(hub, step) && hub.stages.Keys <= hub.used
    ensures step.h in StagesAfter(limits, hub, step) && Belongs(StagesAfter(limits, hub, step)[step.h], who)
       <==> || ActionOn(limits, hub, step, who) == In
            || (ActionOn(limits, hub, step, who) == Stay && step.h in hub.stages && Belongs(hub.stages[step.h], who))
  {
  }

  lemma BetweenAt(limits: Limits, hub: Hub, step: Step, g: Gate, who: Option<Peer>)
    requires Enabled(hub, step) && BetweenAreAtWork(hub, g, who) && hub.stages.Keys <= hub.used
    ensures step.h in Act(g, ActionOn(limits, hub, step, who), step.h, step.now).between
       <==> step.h in StagesAfter(limits, hub, step) && Belongs(StagesAfter(limits, hub, step)[step.h], who)
  {
    ActBetween(g, ActionOn(limits, hub, step, who), step.h, step.now);
    ActionAndStage(limits, hub, step, who);
  }

  lemma BetweenElsewhere(limits: Limits, hub: Hub, step: Step, g: Gate, who: Option<Peer>, h: Handler)
    requires Enabled(hub, step) && h != step.h
    ensures h in Act(g, ActionOn(limits, hub, step, who), step.h, step.now).between <==> h in g.between
    ensures h in StagesAfter(limits, hub, step) <==> h in hub.stages
    ensures h in hub.stages ==> StagesAfter(limits, hub, step)[h] == hub.stages[h]
  {
  }

  lemma ActKeepsBetween(limits: Limits, hub: Hub, step: Step, g: Gate, who: Option<Peer>)
    requires Enabled(hub, step) && BetweenAreAtWork(hub, g, who) && hub.stages.Keys <= hub.used
    ensures BetweenAreAtWork(Next(limits, hub, step), Act(g, ActionOn(limits, hub, step, who), step.h, step.now), who)
  {
    BetweenAt(limits, hub, step, g, who);
    forall h | h != step.h
      ensures h in Act(g, ActionOn(limits, hub, step, who), step.h, step.now).between
         <==> h in StagesAfter(limits, hub, step) && Belongs(StagesAfter(limits, hub, step)[h], who)
    {
      BetweenElsewhere(limits, hub, step, g, who, h);
    }
  }

  lemma StepKeepsHub(limits: Limits, hub: Hub, step: Step)
    requires HubInv(limits, hub) && Enabled(hub, step)
    ensures HubInv(limits, Next(limits, hub, step))
  {
    var hub' := Next(limits, hub, step);
    forall who
      ensures Tracks(hub', GateOf(hub', who), LimitOf(limits, who), who)
    {
      var g := GateOf(hub, who);
      assert Tracks(hub, g, LimitOf(limits, who), who);
      NextGate(limits, hub, step, who);
      ActKeepsGate(limits, hub, step, g, who);
      AcceptedAfter(limits, hub, step, who);
      RowIsKept(limits, hub, step, who);
      TimesAct(g, ActionOn(limits, hub, step, who), step.h, step.now);
      ActKeepsRows(limits, hub, step, g, who);
      ActKeepsBetween(limits, hub, step, g, who);
    }
  }

  ghost predicate StepsTo(limits: Limits, hub: Hub, step: Step, hub': Hub) {
    Enabled(hub, step) && hub' == Next(limits, hub, step)
  }

  ghost predicate IsRun(limits: Limits, states: seq<Hub>, steps: seq<Step>) {
    && |states| == |steps| + 1 && states[0] == IDLE
    && forall i :: 0 <= i < |steps| ==> StepsTo(limits, states[i], steps[i], states[i + 1])
  }

  lemma {:induction false} Reached(limits: Limits, states: seq<Hub>, steps: seq<Step>, k: nat)
    requires IsRun(limits, states, steps) && k < |states|
    ensures HubInv(limits, states[k])
  {
    if k == 0 {
      assert Times(EMPTY.rows) == [];
    } else {
      Reached(limits, states, steps, k - 1);
      assert StepsTo(limits, states[k - 1], steps[k - 1], states[k]);
      StepKeepsHub(limits, states[k - 1], steps[k - 1]);
    }
  }

  /** Every window of an hour, in every run: the jobs accepted from one peer are
      at most PerHour - 1 + K, K the most of its handlers ever between the count
      and the record at once; and the same for the whole space. */
  lemma HourlyAllowance(limits: Limits, states: seq<Hub>, steps: seq<Step>, k: nat, who: Option<Peer>, t: int)
    requires IsRun(limits, states, steps) && k < |states|
    ensures var n := CountBetween(Accepted(states[k].jobs, who), t - HOUR, t);
            n > 0 ==> n <= LimitOf(limits, who) - 1 + GateOf(states[k], who).most
  {
    Reached(limits, states, steps, k);
    var hub := states[k];
    assert Tracks(hub, GateOf(hub, who), LimitOf(limits, who), who);
    AnyWindow(GateOf(hub, who), LimitOf(limits, who), hub.clock, t);
  }

  lemma {:induction false} SinceIsBetween(times: seq<int>, lo: int, hi: int)
    requires forall k :: 0 <= k < |times| ==> times[k] <= hi
    ensures CountSince(times, lo) == CountBetween(times, lo, hi)
    decreases |times|
  {
    if times != [] {
      SinceIsBetween(Init(times), lo, hi);
    }
  }

  lemma AcceptedByNow(hub: Hub, g: Gate, limit: nat, who: Option<Peer>, now: int)
    requires Tracks(hub, g, limit, who) && hub.clock <= now
    ensures CountSince(Accepted(hub.jobs, who), now - HOUR) == CountBetween(Accepted(hub.jobs, who), now - HOUR, now)
  {
    SinceIsBetween(Accepted(hub.jobs, who), now - HOUR, now);
  }

  lemma CountWithin(g: Gate, limit: nat, clock: int, now: int)
    requires GateInv(g, limit, clock) && clock <= now && g.most <= 1
    ensures CountBetween(Times(g.rows), now - HOUR, now) <= limit
  {
    AnyWindow(g, limit, clock, now);
  }

  lemma TrackedBefore(limits: Limits, states: seq<Hub>, steps: seq<Step>, k: nat, who: Option<Peer>)
    requires IsRun(limits, states, steps) && k < |steps|
    ensures Tracks(states[k], GateOf(states[k], who), LimitOf(limits, who), who) && states[k].clock <= steps[k].now
  {
    assert StepsTo(limits, states[k], steps[k], states[k + 1]);
    Reached(limits, states, steps, k);
  }

  /** The accepted jobs of a peer, or of all, in the window (lo, hi]. */
  ghost function JobsIn(jobs: seq<Job>, who: Option<Peer>, lo: int, hi: int): set<int> {
    set i | 0 <= i < |jobs| && IsJobIn(jobs[i], who, lo, hi)
  }

  ghost predicate IsJobIn(j: Job, who: Option<Peer>, lo: int, hi: int) {
    j.accepted && (who.Some? ==> j.peer == who.value) && lo < j.at <= hi
  }

  lemma JobsInSnoc(jobs: seq<Job>, j: Job, who: Option<Peer>, lo: int, hi: int)
    ensures |JobsIn(jobs + [j], who, lo, hi)| == |JobsIn(jobs, who, lo, hi)| + if IsJobIn(j, who, lo, hi) then 1 else 0
  {
    var all := jobs + [j];
    assert forall i :: 0 <= i < |jobs| ==> all[i] == jobs[i];
    assert all[|jobs|] == j;
    if IsJobIn(j, who, lo, hi) {
      assert JobsIn(all, who, lo, hi) == JobsIn(jobs, who, lo, hi) + {|jobs|};
    } else {
      assert JobsIn(all, who, lo, hi) == JobsIn(jobs, who, lo, hi);
    }
  }

  lemma BetweenSnoc(times: seq<int>, at: int, lo: int, hi: int)
    ensures CountBetween(times + [at], lo, hi) == CountBetween(times, lo, hi) + if lo < at <= hi then 1 else 0
  {
    assert Init(times + [at]) == times;
  }

  /** The counts are of jobs. */
  lemma {:induction false} CountsAreJobs(jobs: seq<Job>, who: Option<Peer>, lo: int, hi: int)
    ensures CountBetween(Accepted(jobs, who), lo, hi) == |JobsIn(jobs, who, lo, hi)|
    decreases |jobs|
  {
    if jobs == [] {
      assert JobsIn(jobs, who, lo, hi) == {};
    } else {
      var front, j := Init(jobs), Last(jobs);
      assert jobs == front + [j];
      CountsAreJobs(front, who, lo, hi);
      JobsInSnoc(front, j, who, lo, hi);
      AcceptedSnoc(front, j, who);
      BetweenSnoc(Accepted(front, who), j.at, lo, hi);
      assert Accepted(front, who) + [] == Accepted(front, who);
    }
  }

  /** How many of these jobs were accepted in the hour before now. */
  ghost function InHourBefore(jobs: seq<Job>, who: Option<Peer>, now: int): nat {
    |JobsIn(jobs, who, now - 3_600_000, now)|
  }

  lemma CountIsHour(hub: Hub, g: Gate, limit: nat, who: Option<Peer>, now: int)
    requires Tracks(hub, g, limit, who) && hub.clock <= now
    ensures CountSince(Accepted(hub.jobs, who), now - HOUR) == InHourBefore(hub.jobs, who, now)
  {
    AcceptedByNow(hub, g, limit, who, now);
    CountsAreJobs(hub.jobs, who, now - HOUR, now);
  }

  lemma CountedNow(limits: Limits, states: seq<Hub>, steps: seq<Step>, k: nat, who: Option<Peer>)
    requires IsRun(limits, states, steps) && k < |steps|
    ensures CountSince(Accepted(states[k].jobs, who), steps[k].now - HOUR)
         == InHourBefore(states[k].jobs, who, steps[k].now)
  {
    TrackedBefore(limits, states, steps, k, who);
    CountIsHour(states[k], GateOf(states[k], who), LimitOf(limits, who), who, steps[k].now);
  }

  /** Whose allowance a count is about. */
  function CountedFor(step: Step): Option<Peer> {
    if step.CountPeer? then Some(step.peer) else None
  }

  lemma LetPast(limits: Limits, hub: Hub, step: Step)
    requires Enabled(hub, step) && (step.CountPeer? || step.CountAll?) && hub.stages.Keys <= hub.used
    ensures step.h in StagesAfter(limits, hub, step)
       <==> CountSince(Accepted(hub.jobs, CountedFor(step)), step.now - HOUR) < LimitOf(limits, CountedFor(step))
  {
  }

  /** Whoever is not let past, and whoever is recorded, leaves one row; nobody else does. */
  ghost predicate RowLeft(hub: Hub, step: Step, hub': Hub)
    requires Enabled(hub, step)
  {
    hub'.jobs == hub.jobs + if step.h in hub'.stages then [] else [Job(step.h, PeerOf(hub, step), step.now, step.Record?)]
  }

  function PeerOf(hub: Hub, step: Step): Peer
    requires Enabled(hub, step)
  {
    if step.CountPeer? then step.peer else hub.stages[step.h].peer
  }

  lemma RowIsLeft(limits: Limits, hub: Hub, step: Step)
    requires Enabled(hub, step) && hub.stages.Keys <= hub.used
    ensures RowLeft(hub, step, Next(limits, hub, step))
  {
    var row := RowOf(limits, hub, step);
    assert row == None <==> step.h in StagesAfter(limits, hub, step);
    assert row.Some? ==> row.value == Job(step.h, PeerOf(hub, step), step.now, step.Record?);
    assert Next(limits, hub, step).stages == StagesAfter(limits, hub, step);
    if row == None {
      assert Next(limits, hub, step).jobs == hub.jobs + [];
    } else {
      assert Next(limits, hub, step).jobs == hub.jobs + [row.value];
    }
  }

  /** Exactly who is let past a count, in every run: one whose peer had fewer than
      its allowance of jobs accepted in the hour before, and then one in whose
      hour the hub had fewer than its own. */
  lemma AdmittedExactly(limits: Limits, states: seq<Hub>, steps: seq<Step>, k: nat)
    requires IsRun(limits, states, steps) && k < |steps|
    ensures steps[k].CountPeer? ==>
              (steps[k].h in states[k + 1].stages <==>
                 InHourBefore(states[k].jobs, Some(steps[k].peer), steps[k].now) < limits.perHour(steps[k].peer))
    ensures steps[k].CountAll? ==>
              (steps[k].h in states[k + 1].stages <==>
                 InHourBefore(states[k].jobs, None, steps[k].now) < limits.hub)
  {
    if steps[k].CountPeer? || steps[k].CountAll? {
      CountedNow(limits, states, steps, k, CountedFor(steps[k]));
      Reached(limits, states, steps, k);
      assert StepsTo(limits, states[k], steps[k], states[k + 1]);
      LetPast(limits, states[k], steps[k]);
    }
  }

  /** Whoever is refused leaves a row that was not accepted, and a record one that was. */
  lemma RefusalsAreRecorded(limits: Limits, states: seq<Hub>, steps: seq<Step>, k: nat)
    requires IsRun(limits, states, steps) && k < |steps|
    ensures Enabled(states[k], steps[k]) && RowLeft(states[k], steps[k], states[k + 1])
  {
    Reached(limits, states, steps, k);
    assert StepsTo(limits, states[k], steps[k], states[k + 1]);
    RowIsLeft(limits, states[k], steps[k]);
  }

  lemma HourWithin(hub: Hub, g: Gate, limit: nat, who: Option<Peer>, now: int)
    requires Tracks(hub, g, limit, who) && hub.clock <= now && g.most <= 1
    ensures InHourBefore(hub.jobs, who, now) <= limit
  {
    CountIsHour(hub, g, limit, who, now);
    AcceptedByNow(hub, g, limit, who, now);
    CountWithin(g, limit, hub.clock, now);
  }

  /** Served one at a time, a peer is refused over its allowance, or anyone over
      the hub's, only when exactly the allowance was accepted in the hour before. */
  lemma SerialIsExact(limits: Limits, states: seq<Hub>, steps: seq<Step>, k: nat, who: Option<Peer>)
    requires IsRun(limits, states, steps) && k < |steps| && who == CountedFor(steps[k])
    requires (steps[k].CountPeer? || steps[k].CountAll?) && steps[k].h !in states[k + 1].stages
    requires GateOf(states[k], who).most <= 1
    ensures InHourBefore(states[k].jobs, who, steps[k].now) == LimitOf(limits, who)
  {
    AdmittedExactly(limits, states, steps, k);
    TrackedBefore(limits, states, steps, k, who);
    HourWithin(states[k], GateOf(states[k], who), LimitOf(limits, who), who, steps[k].now);
  }
}
