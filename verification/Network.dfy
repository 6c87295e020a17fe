/** A network of hubs, each running the router of Router.dfy.

    A job crosses when a router that is asking its peers sends it to another
    hub, whose handleJob (hub/internal/peers/peers.go) serves it through its own
    router with the local-only mark.  A remote's job reaches its hub through the
    door (hub/internal/fleet/fleet.go), which sets the same mark. */
module Network {
  import A = Answers
  import R = Router

  type Hub = nat

  /** One call of `place` on one hub. */
  datatype Call = Call(hub: Hub, r: R.Req)

  /** The hubs' routers; for a call that came over a peer stream, the call that
      sent it; and the calls that came through a door. */
  datatype Net = Net(hubs: map<Hub, R.System>, sentBy: map<Call, Call>, doors: set<Call>)

  datatype Step =
    | Client(hub: Hub, r: R.Req, joined: bool, marked: bool, path: string)
    | Door(hub: Hub, r: R.Req, joined: bool, path: string)
    | Cross(hub: Hub, r: R.Req, target: Hub, arrival: R.Req, joined: bool)
    | Inside(hub: Hub, step: R.Step)

  predicate Asking(s: R.System, r: R.Req) {
    r in s.reqs && (s.reqs[r].pc.AskingHome? || s.reqs[r].pc.AskingPeer?)
  }

  predicate Enabled(n: Net, step: Step) {
    step.hub in n.hubs &&
    match step
    case Client(hub, r, _, _, _) => r !in n.hubs[hub].reqs
    case Door(hub, r, _, _) => r !in n.hubs[hub].reqs
    case Cross(hub, r, target, arrival, _) =>
      Asking(n.hubs[hub], r) && target in n.hubs && target != hub && arrival !in n.hubs[target].reqs
    case Inside(hub, inner) => !inner.Arrive? && R.Enabled(n.hubs[hub], inner)
  }

  function Arrived(n: Net, hub: Hub, r: R.Req, joined: bool, marked: bool, path: string): Net
    requires hub in n.hubs && r !in n.hubs[hub].reqs
  {
    n.(hubs := n.hubs[hub := R.Next(n.hubs[hub], R.Arrive(r, joined, marked, path))])
  }

  function Next(n: Net, step: Step): Net
    requires Enabled(n, step)
  {
    match step
    case Client(hub, r, joined, marked, path) => Arrived(n, hub, r, joined, marked, path)
    case Door(hub, r, joined, path) =>
      Arrived(n, hub, r, joined, true, path).(doors := n.doors + {Call(hub, r)})
    case Cross(hub, r, target, arrival, joined) =>
      Arrived(n, target, arrival, joined, true, n.hubs[hub].reqs[r].path).(sentBy := n.sentBy[Call(target, arrival) := Call(hub, r)])
    case Inside(hub, inner) => n.(hubs := n.hubs[hub := R.Next(n.hubs[hub], inner)])
  }

  /** Every hub starts with an idle router. */
  ghost predicate Fresh(n: Net) {
    n.sentBy == map[] && n.doors == {} && forall hub :: hub in n.hubs ==> n.hubs[hub] == R.START
  }

  ghost predicate StepsTo(n: Net, step: Step, m: Net) {
    Enabled(n, step) && m == Next(n, step)
  }

  ghost predicate IsRun(states: seq<Net>, steps: seq<Step>) {
    && |states| == |steps| + 1 && Fresh(states[0])
    && forall i :: 0 <= i < |steps| ==> StepsTo(states[i], steps[i], states[i + 1])
  }

  predicate Known(n: Net, c: Call) {
    c.hub in n.hubs && c.r in n.hubs[c.hub].reqs
  }

  predicate PeersOn(n: Net, c: Call)
    requires Known(n, c)
  {
    n.hubs[c.hub].reqs[c.r].peersOn
  }

  ghost predicate Inv(n: Net) {
    Routes(n) && forall hub :: hub in n.hubs ==> R.AnswerInv(n.hubs[hub])
  }

  /** A job may go to another hub exactly when the router of its own waits for what
      a peer says. */
  lemma CrossesWhileAsking(n: Net, hub: Hub, r: R.Req, target: Hub, arrival: R.Req, joined: bool, placed: A.Placed)
    requires hub in n.hubs && target in n.hubs && target != hub && arrival !in n.hubs[target].reqs
    ensures Enabled(n, Cross(hub, r, target, arrival, joined)) <==> R.Enabled(n.hubs[hub], R.PeerReply(r, placed))
  {
  }

  /** A call that came from a peer or a door has no route to the peers, and one
      that sent a job has. */
  ghost predicate Routes(n: Net) {
    && (forall c :: c in n.doors ==> Known(n, c) && !PeersOn(n, c))
    && (forall c :: c in n.sentBy ==> && Known(n, c) && !PeersOn(n, c)
                                      && Known(n, n.sentBy[c]) && PeersOn(n, n.sentBy[c]))
  }

  /** A step of one hub's router changes no route of a call already there. */
  lemma CallsKeepTheirRoute(n: Net, step: Step, c: Call)
    requires Enabled(n, step) && Known(n, c)
    ensures Known(Next(n, step), c) && PeersOn(Next(n, step), c) == PeersOn(n, c)
  {
    if step.Inside? && step.hub == c.hub {
      R.PeersOnStep(n.hubs[c.hub], step.step, c.r);
    }
  }

  lemma StepKeepsHubs(n: Net, step: Step, hub: Hub)
    requires Enabled(n, step) && hub in n.hubs && forall h :: h in n.hubs ==> R.AnswerInv(n.hubs[h])
    ensures hub in Next(n, step).hubs && R.AnswerInv(Next(n, step).hubs[hub])
  {
    match step
    case Client(h, r, joined, marked, path) => R.StepKeepsAnswers(n.hubs[h], R.Arrive(r, joined, marked, path));
    case Door(h, r, joined, path) => R.StepKeepsAnswers(n.hubs[h], R.Arrive(r, joined, true, path));
    case Cross(from, sender, h, r, joined) =>
      R.StepKeepsAnswers(n.hubs[h], R.Arrive(r, joined, true, n.hubs[from].reqs[sender].path));
    case Inside(h, inner) => R.StepKeepsAnswers(n.hubs[h], inner);
  }

  lemma AskingHasRoute(n: Net, hub: Hub, r: R.Req)
    requires Inv(n) && hub in n.hubs && Asking(n.hubs[hub], r)
    ensures PeersOn(n, Call(hub, r))
  {
    assert R.RequestInv(n.hubs[hub].reqs[r]);
  }

  lemma ArrivesWithoutRoute(n: Net, hub: Hub, r: R.Req, joined: bool, path: string)
    requires hub in n.hubs && r !in n.hubs[hub].reqs
    ensures var m := Arrived(n, hub, r, joined, true, path); Known(m, Call(hub, r)) && !PeersOn(m, Call(hub, r))
  {
  }

  /** No call changes its route, and at most call c is new at a door or over a stream. */
  lemma OneMoreCall(n: Net, m: Net, c: Call)
    requires Routes(n) && forall d :: Known(n, d) ==> Known(m, d) && PeersOn(m, d) == PeersOn(n, d)
    requires m.doors <= n.doors + {c}
    requires forall d :: d in m.sentBy && d != c ==> d in n.sentBy && m.sentBy[d] == n.sentBy[d]
    requires c in m.sentBy ==> Known(n, m.sentBy[c]) && PeersOn(n, m.sentBy[c])
    requires c in m.doors || c in m.sentBy ==> Known(m, c) && !PeersOn(m, c)
    ensures Routes(m)
  {
  }

  lemma StepKeepsRoutes(n: Net, step: Step)
    requires Routes(n) && Enabled(n, step) && (step.Cross? ==> PeersOn(n, Call(step.hub, step.r)))
    ensures Routes(Next(n, step))
  {
    var m := Next(n, step);
    forall c | Known(n, c)
      ensures Known(m, c) && PeersOn(m, c) == PeersOn(n, c)
    {
      CallsKeepTheirRoute(n, step, c);
    }
    if step.Door? {
      ArrivesWithoutRoute(n, step.hub, step.r, step.joined, step.path);
      OneMoreCall(n, m, Call(step.hub, step.r));
    } else if step.Cross? {
      ArrivesWithoutRoute(n, step.target, step.arrival, step.joined, n.hubs[step.hub].reqs[step.r].path);
      OneMoreCall(n, m, Call(step.target, step.arrival));
    }
  }

  lemma StepKeepsInv(n: Net, step: Step)
    requires Inv(n) && Enabled(n, step)
    ensures Inv(Next(n, step))
  {
    forall hub | hub in Next(n, step).hubs
      ensures R.AnswerInv(Next(n, step).hubs[hub])
    {
      StepKeepsHubs(n, step, hub);
    }
    if step.Cross? {
      AskingHasRoute(n, step.hub, step.r);
    }
    StepKeepsRoutes(n, step);
  }

  lemma {:induction false} Reached(states: seq<Net>, steps: seq<Step>, k: nat)
    requires IsRun(states, steps) && k < |states|
    ensures Inv(states[k])
  {
    if k > 0 {
      Reached(states, steps, k - 1);
      assert StepsTo(states[k - 1], steps[k - 1], states[k]);
      StepKeepsInv(states[k - 1], steps[k - 1]);
    }
  }

  /** One hop: a job that crossed was sent by a call that did not cross itself,
      and a call that came through a door has sent nothing. */
  lemma OneHop(states: seq<Net>, steps: seq<Step>, k: nat)
    requires IsRun(states, steps) && k < |states|
    ensures var n := states[k];
            && (forall c :: c in n.sentBy ==> n.sentBy[c] !in n.sentBy)
            && (forall c :: c in n.sentBy ==> n.sentBy[c] !in n.doors)
  {
    Reached(states, steps, k);
  }

  /** The path a call names. */
  function PathOf(n: Net, c: Call): string
    requires Known(n, c)
  {
    n.hubs[c.hub].reqs[c.r].path
  }

  /** The converse of a crossing: no step of any run lets a call that came from
      a peer, or through a door, send a job on, and what is sent is always a
      prompt, so `handleJob` never has another path to refuse. */
  lemma NeverSentOn(states: seq<Net>, steps: seq<Step>, k: nat)
    requires IsRun(states, steps) && k < |steps| && steps[k].Cross?
    ensures var sender, arrival := Call(steps[k].hub, steps[k].r), Call(steps[k].target, steps[k].arrival);
            && sender !in states[k].sentBy && sender !in states[k].doors
            && Known(states[k], sender) && Known(states[k + 1], arrival)
            && PathOf(states[k + 1], arrival) == PathOf(states[k], sender)
            && PathOf(states[k + 1], arrival) in R.JOB_PATHS
  {
    Reached(states, steps, k);
    assert StepsTo(states[k], steps[k], states[k + 1]);
    AskingHasRoute(states[k], steps[k].hub, steps[k].r);
    assert R.RequestInv(states[k].hubs[steps[k].hub].reqs[steps[k].r]);
  }

  lemma {:induction false} StaysMarked(states: seq<Net>, steps: seq<Step>, j: nat, k: nat, c: Call)
    requires IsRun(states, steps) && j <= k < |states|
    ensures c in states[j].doors ==> c in states[k].doors
    ensures c in states[j].sentBy ==> c in states[k].sentBy
    decreases k
  {
    if j < k {
      StaysMarked(states, steps, j, k - 1, c);
      assert StepsTo(states[k - 1], steps[k - 1], states[k]);
    }
  }

  /** The call a step of the network brings in over a stream or through a door. */
  function BroughtIn(step: Step): Call
    requires step.Cross? || step.Door?
  {
    if step.Cross? then Call(step.target, step.arrival) else Call(step.hub, step.r)
  }

  /** Nothing goes on, said of the steps alone: whoever sends a job in a run was not
      brought in by an earlier crossing or through a door. */
  lemma NothingGoesOn(states: seq<Net>, steps: seq<Step>, j: nat, k: nat)
    requires IsRun(states, steps) && j < k < |steps| && (steps[j].Cross? || steps[j].Door?) && steps[k].Cross?
    ensures Call(steps[k].hub, steps[k].r) != BroughtIn(steps[j])
  {
    assert StepsTo(states[j], steps[j], states[j + 1]);
    StaysMarked(states, steps, j + 1, k, BroughtIn(steps[j]));
    NeverSentOn(states, steps, k);
  }
}
