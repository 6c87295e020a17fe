/** The inference router of hub/internal/pool/pool.go.

    Every request runs `place` in its own goroutine.  Each mutex section, and
    each decision between two of them, is one atomic step here, and any
    request may take the next step, so a run is an arbitrary interleaving.
    What the store, the network and the clock answer is carried by the step:
    the theorems hold whatever they say. */
module Router {
  import opened Answers
  import opened Sequences

  type Host = int
  type Req = nat
  /** A Go channel, named by the count of channels made before it. */
  type Chan = nat

  // ---------------------------------------------------------------- shared state

  /** What the mutexes guard: the machines in use, the channel the next release
      closes, the channels made and closed so far, and the queue's counter. */
  datatype Shared = Shared(busy: set<Host>, freed: Chan, made: nat, closed: set<Chan>, waiting: int)

  const NEW_POOL := Shared({}, 0, 1, {}, 0)

  /** The current channel is open, and a new one is never an old one. */
  ghost predicate ChannelsValid(s: Shared) {
    && s.freed < s.made
    && s.freed !in s.closed
    && forall c :: c in s.closed ==> c < s.made
  }

  function Take(s: Shared, h: Host): Shared {
    if h in s.busy then s else s.(busy := s.busy + {h})
  }

  /** Free the machine, close the channel everybody sleeps on, make the next. */
  function Free(s: Shared, h: Host): Shared {
    s.(busy := s.busy - {h}, closed := s.closed + {s.freed}, freed := s.made, made := s.made + 1)
  }

  function Enqueued(s: Shared, depth: nat): Shared {
    if s.waiting >= depth then s else s.(waiting := s.waiting + 1)
  }

  function Dequeued(s: Shared): Shared {
    if s.waiting > 0 then s.(waiting := s.waiting - 1) else s
  }

  /** A host row as one pass of `pick` reads it. */
  datatype HostRow = HostRow(id: Host, installed: bool, online: bool, disabled: bool, holdsModel: bool)

  predicate Eligible(h: HostRow) {
    h.installed && h.online && !h.disabled && h.holdsModel
  }

  /** The fleet as it was read; an unreadable list is one without hosts. */
  function Listed(hosts: Option<seq<HostRow>>): seq<HostRow> {
    if hosts.Some? then hosts.value else []
  }

  datatype Reason = WasFree | Busy | NothingHolds | HostsUnavailable

  /** The pool's own fields.  `freed`, `made` and `closed` stand for the Go
      channel, which Dafny does not have; `waiting` is the package's `queued`. */
  class Pool {
    var busy: set<Host>
    var freed: Chan
    var made: nat
    var closed: set<Chan>
    var waiting: int

    function Contents(): (s: Shared)
      reads this
    {
      Shared(busy, freed, made, closed, waiting)
    }

    constructor ()
      ensures Contents() == NEW_POOL && ChannelsValid(Contents())
    {
      busy, freed, made, closed, waiting := {}, 0, 1, {}, 0;
    }

    method TakeHost(h: Host) returns (got: bool)
      modifies this
      ensures got <==> h !in old(busy)
      ensures Contents() == Take(old(Contents()), h) && h in busy
    {
      if h in busy {
        return false;
      }
      busy := busy + {h};
      return true;
    }

    /** `close` panics on a closed channel; that it is open is a precondition
        the validity of the channels gives at every call. */
    method Release(h: Host)
      requires ChannelsValid(Contents())
      modifies this
      ensures Contents() == Free(old(Contents()), h)
      ensures ChannelsValid(Contents()) && old(freed) in closed
    {
      busy := busy - {h};
      assert freed !in closed;
      closed := closed + {freed};
      freed, made := made, made + 1;
    }

    method Enqueue(depth: nat) returns (ok: bool)
      modifies this
      ensures ok <==> old(waiting) < depth
      ensures Contents() == Enqueued(old(Contents()), depth)
    {
      if waiting >= depth {
        return false;
      }
      waiting := waiting + 1;
      return true;
    }

    method Dequeue()
      modifies this
      ensures Contents() == Dequeued(old(Contents()))
    {
      if waiting > 0 {
        waiting := waiting - 1;
      }
    }

    /** `pick`: without a list of hosts nothing is tried and nothing changes. */
    method Pick(hosts: Option<seq<HostRow>>, others: seq<Shared>) returns (got: Option<Host>, reason: Reason, ghost turn: nat)
      requires |others| == |Listed(hosts)|
      modifies this
      ensures reason == HostsUnavailable <==> hosts.None?
      ensures hosts.None? ==> got.None? && Contents() == old(Contents())
      ensures turn <= |Listed(hosts)| && (got.Some? <==> turn < |Listed(hosts)|)
      ensures forall j :: 0 <= j < turn && Eligible(Listed(hosts)[j]) ==> Listed(hosts)[j].id in others[j].busy
      ensures got.Some? ==> && reason == WasFree && got.value == Listed(hosts)[turn].id
                            && Eligible(Listed(hosts)[turn]) && got.value !in others[turn].busy
                            && Contents() == Take(others[turn], got.value)
      ensures got.None? ==> Contents() == if Listed(hosts) == [] then old(Contents()) else Last(others)
      ensures got.None? ==> (reason == Busy <==> exists i :: 0 <= i < |Listed(hosts)| && Eligible(Listed(hosts)[i]))
    {
      if hosts.None? {
        return None, HostsUnavailable, 0;
      }
      got, reason, turn := Walk(hosts.value, others);
    }

    /** One pass over the fleet.  Before it takes row i, others leave the pool as
        `others[i]`.  The pass takes the first machine that may serve the model
        and is idle when its turn comes, and says "busy" exactly when machines
        hold the model and every one of them was serving at its turn: the last
        `return` of the original, reached with a holder and none busy, is dead. */
    method Walk(hosts: seq<HostRow>, others: seq<Shared>) returns (got: Option<Host>, reason: Reason, ghost turn: nat)
      requires |others| == |hosts|
      modifies this
      ensures turn <= |hosts| && (got.Some? <==> turn < |hosts|)
      ensures forall j :: 0 <= j < turn && Eligible(hosts[j]) ==> hosts[j].id in others[j].busy
      ensures got.Some? ==> && reason == WasFree && got.value == hosts[turn].id
                            && Eligible(hosts[turn]) && got.value !in others[turn].busy
                            && Contents() == Take(others[turn], got.value)
      ensures got.None? ==> Contents() == if hosts == [] then old(Contents()) else Last(others)
      ensures got.None? ==> (reason == Busy || reason == NothingHolds) && (reason == Busy <==> exists i :: 0 <= i < |hosts| && Eligible(hosts[i]))
    {
      var busyOne, holders := false, 0;
      var i := 0;
      while i < |hosts|
        invariant 0 <= i <= |hosts|
        invariant Contents() == if i == 0 then old(Contents()) else others[i - 1]
        invariant forall j :: 0 <= j < i && Eligible(hosts[j]) ==> hosts[j].id in others[j].busy
        invariant holders > 0 <==> exists j :: 0 <= j < i && Eligible(hosts[j])
        invariant busyOne <==> holders > 0
        invariant holders >= 0
      {
        var h := hosts[i];
        Become(others[i]);
        if h.installed && h.online && !h.disabled && h.holdsModel {
          holders := holders + 1;
          var ok := TakeHost(h.id);
          if ok {
            return Some(h.id), WasFree, i;
          }
          busyOne := true;
        }
        i := i + 1;
      }
      if busyOne {
        return None, Busy, i;
      }
      return None, NothingHolds, i;
    }

    /** `proxy`: on every way out the client has one response and the machine is free. */
    method Proxy(w: Writer, h: Host, reply: Reply, key: string) returns (remembered: bool, recorded: bool)
      requires ChannelsValid(Contents())
      modifies this, w
      ensures w.log == old(w.log) + ProxyEvents(reply) && IsResponse(ProxyEvents(reply))
      ensures Contents() == Free(old(Contents()), h) && ChannelsValid(Contents())
    {
      ProxyAnswersOnce(reply);
      remembered, recorded := w.Proxy(reply, key);
      Release(h);
    }

    /** What other requests have done to the pool in the meantime. */
    method Become(s: Shared)
      modifies this
      ensures Contents() == s
    {
      busy, freed, made, closed, waiting := s.busy, s.freed, s.made, s.closed, s.waiting;
    }
  }

  // ---------------------------------------------------------------- one request

  const JOB_PATHS: set<string> := {
    "/api/chat", "/api/generate", "/api/embed", "/api/embeddings",
    "/v1/chat/completions", "/v1/completions", "/v1/embeddings"
  }

  /** Whether `place` keeps its route to the peers. */
  predicate MayCross(joined: bool, localOnly: bool, path: string) {
    joined && !localOnly && path in JOB_PATHS
  }

  /** Where a request is in `place`. */
  datatype Pc =
    | Top                       // about to take the wake-up channel
    | AtHome                    // about to look the conversation's home up
    | AskingHome                // the home is a peer
    | TakingHome(host: Host)    // the home is a machine
    | Listing                   // about to read the fleet
    | Picking(left: seq<HostRow>) // walking it
    | AskingPeer(busy: bool)    // the peers' first refusal
    | Unplaced                  // nothing here serves the model
    | Queueing
    | CheckingDeadline
    | Sleeping
    | Proxying(host: Host)      // holds the machine, has not answered
    | Releasing(host: Host)     // has answered, still holds the machine
    | Returning                 // the deferred dequeue is left
    | Done

  /** One call of `place`.  `rows` is the fleet as this pass read it, `saw`
      remembers who held each machine the pass found busy, and `log` is what
      has been written to the client. */
  datatype Request = Request(
    path: string, peersOn: bool, pc: Pc, snap: Chan, rows: seq<HostRow>, saw: map<Host, Req>, busyOne: bool,
    queued: bool, log: seq<Event>, gone: bool)

  predicate Holds(q: Request, h: Host) {
    q.pc == Proxying(h) || q.pc == Releasing(h)
  }

  /** Between taking the channel and leaving the pass. */
  predicate Watching(q: Request) {
    q.pc.AtHome? || q.pc.AskingHome? || q.pc.TakingHome? || q.pc.Listing? || q.pc.Picking? || q.pc.AskingPeer?
    || q.pc.Unplaced? || q.pc.Queueing? || q.pc.CheckingDeadline? || q.pc.Sleeping?
  }

  predicate Answered(q: Request) {
    q.pc.Releasing? || q.pc.Returning? || q.pc.Done?
  }

  // ---------------------------------------------------------------- the system

  /** The pool, every call of `place` so far, who holds each machine, and the
      largest queue depth any `enqueue` has read. */
  datatype System = System(shared: Shared, reqs: map<Req, Request>, holder: map<Host, Req>, deepest: nat)

  const START := System(NEW_POOL, map[], map[], 0)

  datatype Home = NoHome | PeerHome | HostHome(host: Host)

  datatype Cause = ClientGone | Woken | Timer

  datatype Step =
    | Arrive(r: Req, joined: bool, localOnly: bool, path: string)
    | TakeChannel(r: Req)
    | FindHome(r: Req, home: Home)
    | HomeUnavailable(r: Req)
    | TakeHome(r: Req)
    | ListHosts(r: Req, hosts: Option<seq<HostRow>>)
    | PickTry(r: Req)
    | PickSkip(r: Req)
    | PickEnd(r: Req)
    | PeerReply(r: Req, placed: Placed)
    | AnswerUnplaced(r: Req)
    | Enqueue(r: Req, depth: nat)
    | CheckDeadline(r: Req, passed: bool)
    | Wake(r: Req, cause: Cause)
    | AnswerProxied(r: Req, reply: Reply)
    | Release(r: Req)
    | Return(r: Req)

  predicate Ready(q: Request, step: Step, closed: set<Chan>) {
    match step
    case Arrive(_, _, _, _) => false
    case TakeChannel(_) => q.pc == Top
    case FindHome(_, _) => q.pc == AtHome
    case HomeUnavailable(_) => q.pc.TakingHome?
    case TakeHome(_) => q.pc.TakingHome?
    case ListHosts(_, _) => q.pc == Listing
    case PickTry(_) => q.pc.Picking? && q.pc.left != [] && Eligible(q.pc.left[0])
    case PickSkip(_) => q.pc.Picking? && q.pc.left != [] && !Eligible(q.pc.left[0])
    case PickEnd(_) => q.pc == Picking([])
    case PeerReply(_, _) => q.pc.AskingHome? || q.pc.AskingPeer?
    case AnswerUnplaced(_) => q.pc == Unplaced
    case Enqueue(_, _) => q.pc == Queueing
    case CheckDeadline(_, _) => q.pc == CheckingDeadline
    case Wake(_, cause) => q.pc == Sleeping && (cause == Woken ==> q.snap in closed)
    case AnswerProxied(_, _) => q.pc.Proxying?
    case Release(_) => q.pc.Releasing?
    case Return(_) => q.pc == Returning
  }

  predicate Enabled(s: System, step: Step) {
    if step.Arrive? then step.r !in s.reqs
    else step.r in s.reqs && Ready(s.reqs[step.r], step, s.shared.closed)
  }

  /** `take` by request r: the machine is its own, or the pass notes its holder
      and goes on. */
  function Tried(s: System, r: Req, h: Host, next: Pc): Request
    requires r in s.reqs
  {
    var q := s.reqs[r];
    if h in s.shared.busy then
      var owner := if h in s.holder then s.holder[h] else r;
      q.(pc := next, saw := q.saw[h := owner], busyOne := q.busyOne || q.pc.Picking?)
    else q.(pc := Proxying(h))
  }

  function TryHost(s: System, r: Req, h: Host, next: Pc): System
    requires r in s.reqs
  {
    System(Take(s.shared, h), s.reqs[r := Tried(s, r, h, next)],
           if h in s.shared.busy then s.holder else s.holder[h := r], s.deepest)
  }

  /** Where a step that takes no machine leaves the request; `full` is whether the
      queue was at its depth. */
  function PcAfter(q: Request, step: Step, full: bool): Pc {
    match step
    case TakeChannel(_) => AtHome
    case FindHome(_, NoHome) => Listing
    case FindHome(_, PeerHome) => if q.peersOn then AskingHome else Listing
    case FindHome(_, HostHome(h)) => TakingHome(h)
    case HomeUnavailable(_) => Listing
    case ListHosts(_, hosts) => Picking(Listed(hosts))
    case PickSkip(_) => if q.pc.Picking? && q.pc.left != [] then Picking(q.pc.left[1..]) else q.pc
    case PickEnd(_) => if q.peersOn then AskingPeer(q.busyOne) else if q.busyOne then Queueing else Unplaced
    case PeerReply(_, placed) =>
      if SaidYes(placed) then Returning
      else if q.pc.AskingPeer? then if q.pc.busy then Queueing else Unplaced
      else Listing
    case AnswerUnplaced(_) => Returning
    case Enqueue(_, _) => if !q.queued && full then Returning else CheckingDeadline
    case CheckDeadline(_, passed) => if passed then Returning else Sleeping
    case Wake(_, cause) => if cause == ClientGone then Returning else Top
    case AnswerProxied(_, _) => if q.pc.Proxying? then Releasing(q.pc.host) else q.pc
    case Release(_) => Returning
    case Return(_) => Done
    case _ => q.pc
  }

  const NO_MACHINE := "no machine in the pool holds the model"
  const QUEUE_FULL := "the pool is busy and the queue is full"
  const STAYED_BUSY := "the pool stayed busy for the whole wait"

  /** What a step writes to the client. */
  function Written(q: Request, step: Step, full: bool): seq<Event> {
    match step
    case PeerReply(_, placed) => PeerEvents(placed)
    case AnswerUnplaced(_) => ErrorEvents(404, NO_MACHINE)
    case Enqueue(_, _) => if !q.queued && full then ErrorEvents(503, QUEUE_FULL) else []
    case CheckDeadline(_, passed) => if passed then ErrorEvents(503, STAYED_BUSY) else []
    case AnswerProxied(_, reply) => ProxyEvents(reply)
    case _ => []
  }

  function QueuedAfter(q: Request, step: Step, full: bool): bool {
    if step.Enqueue? then q.queued || !full else q.queued && !step.Return?
  }

  function Moved(q: Request, step: Step, freed: Chan, full: bool): Request {
    Request(
      q.path, q.peersOn, PcAfter(q, step, full),
      if step.TakeChannel? then freed else q.snap,
      if step.TakeChannel? then [] else if step.ListHosts? then Listed(step.hosts) else q.rows,
      if step.TakeChannel? then map[] else q.saw,
      !step.TakeChannel? && q.busyOne,
      QueuedAfter(q, step, full),
      q.log + Written(q, step, full),
      q.gone || (step.Wake? && step.cause == ClientGone))
  }

  predicate AtDepth(s: System, step: Step) {
    step.Enqueue? && s.shared.waiting >= step.depth
  }

  function RequestAfter(s: System, step: Step): Request
    requires Enabled(s, step)
  {
    if step.Arrive? then
      Request(step.path, MayCross(step.joined, step.localOnly, step.path), Top, 0, [], map[], false, false, [], false)
    else Moved(s.reqs[step.r], step, s.shared.freed, AtDepth(s, step))
  }

  function SharedAfter(s: System, step: Step): Shared
    requires Enabled(s, step)
  {
    match step
    case Release(r) => Free(s.shared, s.reqs[r].pc.host)
    case Enqueue(r, depth) => if s.reqs[r].queued then s.shared else Enqueued(s.shared, depth)
    case Return(r) => if s.reqs[r].queued then Dequeued(s.shared) else s.shared
    case _ => s.shared
  }

  function DeepestAfter(s: System, step: Step): nat
    requires Enabled(s, step)
  {
    if step.Enqueue? && !s.reqs[step.r].queued && step.depth > s.deepest then step.depth else s.deepest
  }

  function NextRow(q: Request): HostRow
    requires q.pc.Picking? && q.pc.left != []
  {
    q.pc.left[0]
  }

  function Next(s: System, step: Step): (t: System)
    requires Enabled(s, step)
  {
    if step.TakeHome? then TryHost(s, step.r, s.reqs[step.r].pc.host, Listing)
    else if step.PickTry? then TryHost(s, step.r, NextRow(s.reqs[step.r]).id, Picking(s.reqs[step.r].pc.left[1..]))
    else System(SharedAfter(s, step), s.reqs[step.r := RequestAfter(s, step)],
                if step.Release? then s.holder - {s.reqs[step.r].pc.host} else s.holder, DeepestAfter(s, step))
  }

  ghost predicate StepsTo(s: System, step: Step, t: System) {
    Enabled(s, step) && t == Next(s, step)
  }

  /** A run: the states it passes through and the steps between them. */
  ghost predicate IsRun(states: seq<System>, steps: seq<Step>) {
    && |states| == |steps| + 1 && states[0] == START
    && forall i :: 0 <= i < |steps| ==> StepsTo(states[i], steps[i], states[i + 1])
  }

  // ---------------------------------------------------------------- the invariant

  /** A machine is busy exactly while one request is between take and release. */
  ghost predicate ExclusiveInv(s: System) {
    && s.shared.busy == s.holder.Keys
    && (forall h :: h in s.holder ==> s.holder[h] in s.reqs && Holds(s.reqs[s.holder[h]], h))
    && (forall r, h :: r in s.reqs && Holds(s.reqs[r], h) ==> h in s.holder && s.holder[h] == r)
  }

  /** A snapshot is the current channel or a closed one; while it is current,
      every machine the pass found busy is still held by whoever held it. */
  ghost predicate WakeInv(s: System) {
    && ChannelsValid(s.shared)
    && (forall r :: r in s.reqs && Watching(s.reqs[r]) ==>
          s.reqs[r].snap == s.shared.freed || s.reqs[r].snap in s.shared.closed)
    && (forall r, h :: r in s.reqs && Watching(s.reqs[r]) && s.reqs[r].snap == s.shared.freed && h in s.reqs[r].saw
          ==> h in s.holder && s.holder[h] == s.reqs[r].saw[h])
  }

  ghost function Waiters(reqs: map<Req, Request>): set<Req> {
    set r | r in reqs && reqs[r].queued
  }

  ghost predicate QueueInv(s: System) {
    s.shared.waiting == |Waiters(s.reqs)| && s.shared.waiting <= s.deepest
  }

  /** Nothing is written before the answer, and then one response, unless the
      client went away while the call slept. */
  ghost predicate LogInv(q: Request) {
    && (if Answered(q) && !q.gone then IsResponse(q.log) else q.log == [])
    && (q.gone ==> Answered(q))
  }

  /** Past reading the fleet, in this pass. */
  predicate HasList(q: Request) {
    q.pc.Picking? || q.pc.AskingPeer? || q.pc.Unplaced? || q.pc.Queueing? || q.pc.CheckingDeadline? || q.pc.Sleeping?
  }

  /** How many rows of the fleet the pass has been through. */
  function Through(q: Request): int {
    if q.pc.Picking? then |q.rows| - |q.pc.left| else |q.rows|
  }

  /** Every machine that may serve the model and had its turn was busy, and
      `busyOne` says whether there was any. */
  ghost predicate WalkInv(q: Request) {
    && (HasList(q) ==>
          && 0 <= Through(q) && (q.pc.Picking? ==> q.pc.left == q.rows[Through(q)..])
          && (forall i :: 0 <= i < Through(q) && Eligible(q.rows[i]) ==> q.rows[i].id in q.saw)
          && (q.busyOne <==> exists i :: 0 <= i < Through(q) && Eligible(q.rows[i])))
    && (Watching(q) && !HasList(q) ==> !q.busyOne)
    && (q.pc.AskingPeer? ==> q.pc.busy == q.busyOne)
    && (q.pc.Unplaced? ==> !q.busyOne)
    && (q.pc.Sleeping? || q.pc.CheckingDeadline? || q.pc.Queueing? ==> q.busyOne)
  }

  ghost predicate RouteInv(q: Request) {
    && (q.peersOn ==> q.path in JOB_PATHS)
    && (q.pc.AskingHome? || q.pc.AskingPeer? ==> q.peersOn)
    && (q.pc.Sleeping? || q.pc.CheckingDeadline? ==> q.queued)
    && (q.pc.Done? ==> !q.queued)
  }

  ghost predicate RequestInv(q: Request) {
    LogInv(q) && WalkInv(q) && RouteInv(q)
  }

  ghost predicate AnswerInv(s: System) {
    forall r :: r in s.reqs ==> RequestInv(s.reqs[r])
  }

  ghost predicate Inv(s: System) {
    ExclusiveInv(s) && WakeInv(s) && QueueInv(s) && AnswerInv(s)
  }

  predicate TouchesMachine(step: Step) {
    step.TakeHome? || step.PickTry? || step.Release?
  }

  /** Request r moves and nothing about the machines or channels changes. */
  ghost predicate Quiet(s: System, t: System, r: Req) {
    && r in t.reqs && t.reqs == s.reqs[r := t.reqs[r]]
    && t.holder == s.holder && t.shared.busy == s.shared.busy
    && t.shared.freed == s.shared.freed && t.shared.made == s.shared.made && t.shared.closed == s.shared.closed
    && forall h :: Holds(t.reqs[r], h) <==> r in s.reqs && Holds(s.reqs[r], h)
  }

  lemma MovedHolds(q: Request, step: Step, freed: Chan, closed: set<Chan>, full: bool, h: Host)
    requires Ready(q, step, closed) && !TouchesMachine(step)
    ensures Holds(Moved(q, step, freed, full), h) <==> Holds(q, h)
  {
  }

  lemma MovedWatches(q: Request, step: Step, freed: Chan, closed: set<Chan>, full: bool)
    requires Ready(q, step, closed) && !TouchesMachine(step)
    ensures var q' := Moved(q, step, freed, full);
            Watching(q') ==> || (Watching(q) && q'.snap == q.snap && q'.saw == q.saw)
                             || (q'.snap == freed && q'.saw == map[])
  {
  }

  lemma QuietShared(s: System, step: Step)
    requires Enabled(s, step) && !TouchesMachine(step)
    ensures var t := SharedAfter(s, step);
            t.busy == s.shared.busy && t.freed == s.shared.freed && t.made == s.shared.made && t.closed == s.shared.closed
  {
  }

  lemma QuietStep(s: System, step: Step)
    requires Enabled(s, step) && !TouchesMachine(step)
    ensures Quiet(s, Next(s, step), step.r) && WatchKept(s, step.r, Next(s, step).reqs[step.r])
  {
    QuietShared(s, step);
    if !step.Arrive? {
      var q := s.reqs[step.r];
      forall h
        ensures Holds(RequestAfter(s, step), h) <==> Holds(q, h)
      {
        MovedHolds(q, step, s.shared.freed, s.shared.closed, AtDepth(s, step), h);
      }
      MovedWatches(q, step, s.shared.freed, s.shared.closed, AtDepth(s, step));
    }
  }

  lemma QuietKeepsExclusive(s: System, t: System, r: Req)
    requires ExclusiveInv(s) && Quiet(s, t, r)
    ensures ExclusiveInv(t)
  {
    forall h | h in t.holder
      ensures t.holder[h] in t.reqs && Holds(t.reqs[t.holder[h]], h)
    {
      assert Holds(s.reqs[s.holder[h]], h);
    }
    forall r', h | r' in t.reqs && Holds(t.reqs[r'], h)
      ensures h in t.holder && t.holder[h] == r'
    {
      assert Holds(s.reqs[r'], h);
    }
  }

  /** Request r becomes the holder of an idle machine, and nothing else changes. */
  ghost predicate Taken(s: System, t: System, r: Req, h: Host) {
    && r in t.reqs && t.reqs == s.reqs[r := t.reqs[r]] && t.reqs[r].pc == Proxying(h)
    && t.holder == s.holder[h := r] && t.shared.busy == s.shared.busy + {h}
  }

  lemma TakenKeepsExclusive(s: System, t: System, r: Req, h: Host)
    requires ExclusiveInv(s) && h !in s.shared.busy && Taken(s, t, r, h)
    requires r in s.reqs ==> !s.reqs[r].pc.Proxying? && !s.reqs[r].pc.Releasing?
    ensures ExclusiveInv(t)
  {
    forall h' | h' in t.holder
      ensures t.holder[h'] in t.reqs && Holds(t.reqs[t.holder[h']], h')
    {
      if h' != h {
        assert Holds(s.reqs[s.holder[h']], h');
      }
    }
    forall r', h' | r' in t.reqs && Holds(t.reqs[r'], h')
      ensures h' in t.holder && t.holder[h'] == r'
    {
      if r' != r {
        assert Holds(s.reqs[r'], h');
      }
    }
  }

  lemma TryKeepsExclusive(s: System, r: Req, h: Host, next: Pc)
    requires ExclusiveInv(s) && r in s.reqs && !s.reqs[r].pc.Proxying? && !s.reqs[r].pc.Releasing?
    requires !next.Proxying? && !next.Releasing?
    ensures ExclusiveInv(TryHost(s, r, h, next))
  {
    if h in s.shared.busy {
      QuietKeepsExclusive(s, TryHost(s, r, h, next), r);
    } else {
      TakenKeepsExclusive(s, TryHost(s, r, h, next), r, h);
    }
  }

  /** Request r gives its machine back, and nothing else changes. */
  ghost predicate Freed(s: System, t: System, r: Req, h: Host) {
    && r in s.reqs && r in t.reqs && t.reqs == s.reqs[r := t.reqs[r]] && Holds(s.reqs[r], h)
    && !t.reqs[r].pc.Proxying? && !t.reqs[r].pc.Releasing?
    && t.holder == s.holder - {h} && t.shared.busy == s.shared.busy - {h}
  }

  lemma FreedKeepsExclusive(s: System, t: System, r: Req, h: Host)
    requires ExclusiveInv(s) && Freed(s, t, r, h)
    ensures ExclusiveInv(t)
  {
    forall h' | h' in t.holder
      ensures t.holder[h'] in t.reqs && Holds(t.reqs[t.holder[h']], h')
    {
      assert Holds(s.reqs[s.holder[h']], h');
      assert s.holder[h'] != r;
    }
    forall r', h' | r' in t.reqs && Holds(t.reqs[r'], h')
      ensures h' in t.holder && t.holder[h'] == r'
    {
      assert r' != r && Holds(s.reqs[r'], h');
      assert s.holder[h'] == r' && s.holder[h] == r;
    }
  }

  lemma ReleaseKeepsExclusive(s: System, r: Req)
    requires ExclusiveInv(s) && Enabled(s, Release(r))
    ensures ExclusiveInv(Next(s, Release(r)))
  {
    FreedKeepsExclusive(s, Next(s, Release(r)), r, s.reqs[r].pc.host);
  }

  lemma StepKeepsExclusive(s: System, step: Step)
    requires ExclusiveInv(s) && Enabled(s, step)
    ensures ExclusiveInv(Next(s, step))
  {
    if step.TakeHome? {
      TryKeepsExclusive(s, step.r, s.reqs[step.r].pc.host, Listing);
    } else if step.PickTry? {
      TryKeepsExclusive(s, step.r, NextRow(s.reqs[step.r]).id, Picking(s.reqs[step.r].pc.left[1..]));
    } else if step.Release? {
      ReleaseKeepsExclusive(s, step.r);
    } else {
      QuietStep(s, step);
      QuietKeepsExclusive(s, Next(s, step), step.r);
    }
  }

  /** Request r moves on its own: it stops watching, keeps what it watched, or
      starts over on the current channel. */
  ghost predicate WatchKept(s: System, r: Req, q: Request) {
    Watching(q) ==>
      || (r in s.reqs && Watching(s.reqs[r]) && q.snap == s.reqs[r].snap && q.saw == s.reqs[r].saw)
      || (q.snap == s.shared.freed && q.saw == map[])
  }

  lemma QuietKeepsWake(s: System, t: System, r: Req)
    requires WakeInv(s) && Quiet(s, t, r) && WatchKept(s, r, t.reqs[r])
    ensures WakeInv(t)
  {
  }

  lemma TriedWatches(s: System, r: Req, h: Host, next: Pc)
    requires ExclusiveInv(s) && r in s.reqs && Watching(s.reqs[r])
    ensures var q, t := s.reqs[r], Tried(s, r, h, next);
            && t.snap == q.snap
            && forall h' :: h' in t.saw ==>
                 || (h' == h && h in s.holder && t.saw[h'] == s.holder[h])
                 || (h' in q.saw && t.saw[h'] == q.saw[h'])
  {
  }

  /** A request that only saw more of the present holders still watches rightly. */
  lemma SeenKeepsWake(s: System, t: System, r: Req)
    requires WakeInv(s) && r in s.reqs && r in t.reqs && Watching(s.reqs[r]) && t.reqs == s.reqs[r := t.reqs[r]]
    requires t.shared.freed == s.shared.freed && t.shared.made == s.shared.made && t.shared.closed == s.shared.closed
    requires forall h :: h in s.holder ==> h in t.holder && t.holder[h] == s.holder[h]
    requires t.reqs[r].snap == s.reqs[r].snap
    requires forall h :: h in t.reqs[r].saw ==>
               || (h in s.holder && t.reqs[r].saw[h] == s.holder[h])
               || (h in s.reqs[r].saw && t.reqs[r].saw[h] == s.reqs[r].saw[h])
    ensures WakeInv(t)
  {
  }

  lemma TryKeepsWake(s: System, r: Req, h: Host, next: Pc)
    requires ExclusiveInv(s) && WakeInv(s) && r in s.reqs && Watching(s.reqs[r])
    ensures WakeInv(TryHost(s, r, h, next))
  {
    TriedWatches(s, r, h, next);
    SeenKeepsWake(s, TryHost(s, r, h, next), r);
  }

  lemma ReleaseKeepsWake(s: System, r: Req)
    requires WakeInv(s) && Enabled(s, Release(r))
    ensures WakeInv(Next(s, Release(r)))
  {
    var t := Next(s, Release(r));
    forall r' | r' in t.reqs && Watching(t.reqs[r'])
      ensures t.reqs[r'].snap in t.shared.closed && t.reqs[r'].snap != t.shared.freed
    {
      assert r' in s.reqs && Watching(s.reqs[r']);
    }
  }

  lemma StepKeepsWake(s: System, step: Step)
    requires ExclusiveInv(s) && WakeInv(s) && Enabled(s, step)
    ensures WakeInv(Next(s, step))
  {
    if step.TakeHome? {
      TryKeepsWake(s, step.r, s.reqs[step.r].pc.host, Listing);
    } else if step.PickTry? {
      TryKeepsWake(s, step.r, NextRow(s.reqs[step.r]).id, Picking(s.reqs[step.r].pc.left[1..]));
    } else if step.Release? {
      ReleaseKeepsWake(s, step.r);
    } else {
      QuietStep(s, step);
      QuietKeepsWake(s, Next(s, step), step.r);
    }
  }

  lemma {:induction false} WaitersAfter(reqs: map<Req, Request>, r: Req, q: Request)
    ensures Waiters(reqs[r := q]) == if q.queued then Waiters(reqs) + {r} else Waiters(reqs) - {r}
  {
  }

  /** One request moves and the counter with it. */
  lemma PutKeepsQueue(s: System, t: System, r: Req)
    requires QueueInv(s) && r in t.reqs && t.reqs == s.reqs[r := t.reqs[r]]
    requires s.deepest <= t.deepest && t.shared.waiting <= t.deepest
    requires t.shared.waiting - s.shared.waiting
          == (if t.reqs[r].queued then 1 else 0) - (if r in s.reqs && s.reqs[r].queued then 1 else 0)
    ensures QueueInv(t)
  {
    WaitersAfter(s.reqs, r, t.reqs[r]);
    if r in s.reqs && s.reqs[r].queued {
      assert r in Waiters(s.reqs);
    } else {
      assert r !in Waiters(s.reqs);
    }
  }

  /** A call that enqueued is counted, so the deferred dequeue finds the
      counter positive. */
  lemma QueuedIsCounted(s: System, r: Req)
    requires QueueInv(s) && r in s.reqs && s.reqs[r].queued
    ensures s.shared.waiting > 0
  {
    assert r in Waiters(s.reqs);
  }

  lemma MovedKeepsQueued(q: Request, step: Step, freed: Chan, full: bool)
    requires !step.Enqueue? && !step.Return?
    ensures Moved(q, step, freed, full).queued == q.queued
  {
  }

  lemma StepKeepsQueue(s: System, step: Step)
    requires QueueInv(s) && Enabled(s, step)
    ensures QueueInv(Next(s, step))
  {
    if step.Return? && s.reqs[step.r].queued {
      QueuedIsCounted(s, step.r);
    }
    if !step.Arrive? && !step.Enqueue? && !step.Return? {
      MovedKeepsQueued(s.reqs[step.r], step, s.shared.freed, AtDepth(s, step));
    }
    PutKeepsQueue(s, Next(s, step), step.r);
  }

  lemma WrittenOnce(q: Request, step: Step, closed: set<Chan>, full: bool)
    requires Ready(q, step, closed) && !Answered(q)
    ensures if PcAfter(q, step, full).Releasing? || (PcAfter(q, step, full).Returning? && !step.Wake?)
            then IsResponse(Written(q, step, full)) else Written(q, step, full) == []
  {
    if step.PeerReply? {
      PeerAnswersOnce(step.placed);
    } else if step.AnswerProxied? {
      ProxyAnswersOnce(step.reply);
    }
  }

  lemma MovedKeepsLog(q: Request, step: Step, freed: Chan, closed: set<Chan>, full: bool)
    requires LogInv(q) && Ready(q, step, closed) && !step.TakeHome? && !step.PickTry?
    ensures LogInv(Moved(q, step, freed, full))
  {
    if Answered(q) {
      assert q.log + [] == q.log;
    } else {
      WrittenOnce(q, step, closed, full);
      assert [] + Written(q, step, full) == Written(q, step, full);
    }
  }

  lemma SkipKeepsWalk(q: Request, t: Request)
    requires WalkInv(q) && q.pc.Picking? && q.pc.left != [] && !Eligible(q.pc.left[0])
    requires t.pc == Picking(q.pc.left[1..]) && t.rows == q.rows && t.saw == q.saw && t.busyOne == q.busyOne
    ensures WalkInv(t)
  {
    assert q.pc.left[0] == q.rows[Through(q)];
  }

  lemma MovedKeepsWalk(q: Request, step: Step, freed: Chan, closed: set<Chan>, full: bool)
    requires WalkInv(q) && Ready(q, step, closed) && !step.TakeHome? && !step.PickTry?
    ensures WalkInv(Moved(q, step, freed, full))
  {
    if step.PickSkip? {
      SkipKeepsWalk(q, Moved(q, step, freed, full));
    }
  }

  lemma MovedKeepsRoute(q: Request, step: Step, freed: Chan, closed: set<Chan>, full: bool)
    requires RouteInv(q) && Ready(q, step, closed) && !step.TakeHome? && !step.PickTry?
    ensures RouteInv(Moved(q, step, freed, full))
  {
  }

  lemma TakeHomeKeepsRequest(s: System, r: Req, h: Host)
    requires r in s.reqs && RequestInv(s.reqs[r]) && s.reqs[r].pc.TakingHome?
    ensures RequestInv(TryHost(s, r, h, Listing).reqs[r])
  {
  }

  lemma PickTryKeepsWalk(q: Request, t: Request, owner: Req)
    requires WalkInv(q) && q.pc.Picking? && q.pc.left != [] && Eligible(q.pc.left[0])
    requires t.pc == Picking(q.pc.left[1..]) && t.rows == q.rows && t.saw == q.saw[q.pc.left[0].id := owner] && t.busyOne
    ensures WalkInv(t)
  {
    assert q.pc.left[0] == q.rows[Through(q)];
  }

  lemma PickTryKeepsRequest(s: System, r: Req)
    requires r in s.reqs && RequestInv(s.reqs[r]) && s.reqs[r].pc.Picking? && s.reqs[r].pc.left != []
    requires Eligible(s.reqs[r].pc.left[0])
    ensures RequestInv(TryHost(s, r, NextRow(s.reqs[r]).id, Picking(s.reqs[r].pc.left[1..])).reqs[r])
  {
    var q := s.reqs[r];
    var t := TryHost(s, r, NextRow(q).id, Picking(q.pc.left[1..])).reqs[r];
    if NextRow(q).id in s.shared.busy {
      PickTryKeepsWalk(q, t, t.saw[NextRow(q).id]);
    }
  }

  lemma OnlyItsOwnRequest(s: System, step: Step)
    requires Enabled(s, step)
    ensures step.r in Next(s, step).reqs
    ensures Next(s, step).reqs == s.reqs[step.r := Next(s, step).reqs[step.r]]
  {
  }

  lemma StepKeepsRequest(s: System, step: Step)
    requires AnswerInv(s) && Enabled(s, step)
    ensures step.r in Next(s, step).reqs && RequestInv(Next(s, step).reqs[step.r])
  {
    if step.TakeHome? {
      TakeHomeKeepsRequest(s, step.r, s.reqs[step.r].pc.host);
    } else if step.PickTry? {
      PickTryKeepsRequest(s, step.r);
    } else if !step.Arrive? {
      MovedKeepsLog(s.reqs[step.r], step, s.shared.freed, s.shared.closed, AtDepth(s, step));
      MovedKeepsWalk(s.reqs[step.r], step, s.shared.freed, s.shared.closed, AtDepth(s, step));
      MovedKeepsRoute(s.reqs[step.r], step, s.shared.freed, s.shared.closed, AtDepth(s, step));
    }
  }

  lemma StepKeepsAnswers(s: System, step: Step)
    requires AnswerInv(s) && Enabled(s, step)
    ensures AnswerInv(Next(s, step))
  {
    StepKeepsRequest(s, step);
    OnlyItsOwnRequest(s, step);
    var q := Next(s, step).reqs[step.r];
    var reqs := s.reqs[step.r := q];
    assert forall r :: r in reqs ==> RequestInv(reqs[r]);
  }

  lemma StepKeepsInv(s: System, step: Step)
    requires Inv(s) && Enabled(s, step)
    ensures Inv(Next(s, step))
  {
    StepKeepsExclusive(s, step);
    StepKeepsWake(s, step);
    StepKeepsQueue(s, step);
    StepKeepsAnswers(s, step);
  }

  lemma {:induction false} Reached(states: seq<System>, steps: seq<Step>, k: nat)
    requires IsRun(states, steps) && k < |states|
    ensures Inv(states[k])
  {
    if k == 0 {
      assert Waiters(START.reqs) == {};
    } else {
      Reached(states, steps, k - 1);
      assert StepsTo(states[k - 1], steps[k - 1], states[k]);
      StepKeepsInv(states[k - 1], steps[k - 1]);
    }
  }

  // ---------------------------------------------------------------- what every run keeps

  /** Exclusive machines: `busy` is exactly the set of machines held between
      take and release, and each is held by one request. */
  lemma MachinesAreExclusive(states: seq<System>, steps: seq<Step>, k: nat)
    requires IsRun(states, steps) && k < |states|
    ensures var s := states[k];
            && (forall h :: h in s.shared.busy <==> exists r :: r in s.reqs && Holds(s.reqs[r], h))
            && (forall r, r', h :: r in s.reqs && r' in s.reqs && Holds(s.reqs[r], h) && Holds(s.reqs[r'], h) ==> r == r')
  {
    Reached(states, steps, k);
    var s := states[k];
    forall h | h in s.shared.busy
      ensures exists r :: r in s.reqs && Holds(s.reqs[r], h)
    {
      assert s.holder[h] in s.reqs && Holds(s.reqs[s.holder[h]], h);
    }
    forall r, r', h | r in s.reqs && r' in s.reqs && Holds(s.reqs[r], h) && Holds(s.reqs[r'], h)
      ensures r == r'
    {
      assert s.holder[h] == r && s.holder[h] == r';
    }
  }

  /** The counter is the number of live calls that enqueued, it stays within
      the largest depth read, and the test in `dequeue` never fails. */
  lemma QueueIsExact(states: seq<System>, steps: seq<Step>, k: nat)
    requires IsRun(states, steps) && k < |states|
    ensures var s := states[k];
            && s.shared.waiting == |set r | r in s.reqs && s.reqs[r].queued && !s.reqs[r].pc.Done?|
            && s.shared.waiting <= s.deepest
            && (forall r :: Enabled(s, Return(r)) && s.reqs[r].queued ==> s.shared.waiting > 0)
  {
    Reached(states, steps, k);
    var s := states[k];
    assert Waiters(s.reqs) == set r | r in s.reqs && s.reqs[r].queued && !s.reqs[r].pc.Done? by {
      forall r | r in s.reqs && s.reqs[r].queued
        ensures !s.reqs[r].pc.Done?
      {
        assert RequestInv(s.reqs[r]);
      }
    }
    forall r | Enabled(s, Return(r)) && s.reqs[r].queued
      ensures s.shared.waiting > 0
    {
      QueuedIsCounted(s, r);
    }
  }

  lemma DeepestStep(s: System, step: Step, depth: nat)
    requires Enabled(s, step) && s.deepest <= depth && (step.Enqueue? ==> step.depth <= depth)
    ensures Next(s, step).deepest <= depth
  {
  }

  /** With one depth setting the queue never outgrows it. */
  lemma {:induction false} DepthIsKept(states: seq<System>, steps: seq<Step>, k: nat, depth: nat)
    requires IsRun(states, steps) && k < |states|
    requires forall i :: 0 <= i < |steps| && steps[i].Enqueue? ==> steps[i].depth <= depth
    ensures states[k].deepest <= depth && states[k].shared.waiting <= depth
  {
    if k > 0 {
      DepthIsKept(states, steps, k - 1, depth);
      assert StepsTo(states[k - 1], steps[k - 1], states[k]);
      DeepestStep(states[k - 1], steps[k - 1], depth);
    }
    Reached(states, steps, k);
  }

  /** The channel `release` closes is open in every reachable state, and once
      it is closed every sleeper can go on. */
  lemma CloseNeverFails(states: seq<System>, steps: seq<Step>, k: nat, r: Req)
    requires IsRun(states, steps) && k < |states| && Enabled(states[k], Release(r))
    ensures states[k].shared.freed !in states[k].shared.closed
    ensures var t := Next(states[k], Release(r));
            forall r' :: r' in t.reqs && t.reqs[r'].pc == Sleeping ==> Enabled(t, Wake(r', Woken))
  {
    Reached(states, steps, k);
    var s := states[k];
    var t := Next(s, Release(r));
    forall r' | r' in t.reqs && t.reqs[r'].pc == Sleeping
      ensures Enabled(t, Wake(r', Woken))
    {
      assert r' != r && Watching(s.reqs[r']);
    }
  }

  lemma MovedKeeps(q: Request, step: Step, freed: Chan, full: bool)
    ensures Moved(q, step, freed, full).peersOn == q.peersOn && Moved(q, step, freed, full).path == q.path
    ensures !step.TakeChannel? ==> Moved(q, step, freed, full).snap == q.snap
  {
  }

  lemma SnapIsKept(s: System, step: Step, r: Req)
    requires Enabled(s, step) && step != TakeChannel(r) && r in s.reqs
    ensures r in Next(s, step).reqs && Next(s, step).reqs[r].snap == s.reqs[r].snap
  {
    if r == step.r && !step.Arrive? {
      MovedKeeps(s.reqs[r], step, s.shared.freed, AtDepth(s, step));
    }
  }

  lemma ChannelsMoveOn(s: System, step: Step)
    requires Enabled(s, step)
    ensures s.shared.closed <= Next(s, step).shared.closed
    ensures step.Release? ==> s.shared.freed in Next(s, step).shared.closed
    ensures !step.Release? ==> Next(s, step).shared.freed == s.shared.freed
  {
    if !TouchesMachine(step) {
      QuietShared(s, step);
    }
  }

  lemma HolderIsKept(s: System, step: Step, h: Host)
    requires ExclusiveInv(s) && Enabled(s, step) && !step.Release? && h in s.holder
    ensures h in Next(s, step).holder && Next(s, step).holder[h] == s.holder[h]
  {
  }

  /** From step a, which takes the channel, to state k request r takes no other. */
  ghost predicate OnePass(steps: seq<Step>, a: nat, k: nat, r: Req)
    requires a < k <= |steps|
  {
    steps[a] == TakeChannel(r) && forall i :: a < i < k ==> steps[i] != TakeChannel(r)
  }

  ghost predicate NoRelease(steps: seq<Step>, a: nat, k: nat)
    requires k <= |steps|
  {
    forall i :: a < i < k ==> !steps[i].Release?
  }

  /** During one pass the snapshot is the channel taken; it is closed from the
      first release on, and until then it is the current one. */
  lemma {:induction false} SnapInPass(states: seq<System>, steps: seq<Step>, a: nat, k: nat, r: Req)
    requires IsRun(states, steps) && a < k < |states| && OnePass(steps, a, k, r)
    ensures r in states[k].reqs
    ensures NoRelease(steps, a, k) ==> states[k].reqs[r].snap == states[k].shared.freed
    ensures !NoRelease(steps, a, k) ==> states[k].reqs[r].snap in states[k].shared.closed
    decreases k
  {
    assert StepsTo(states[k - 1], steps[k - 1], states[k]);
    if k > a + 1 {
      SnapInPass(states, steps, a, k - 1, r);
      SnapIsKept(states[k - 1], steps[k - 1], r);
      ChannelsMoveOn(states[k - 1], steps[k - 1]);
    }
  }

  lemma HolderInRun(states: seq<System>, steps: seq<Step>, i: nat, h: Host)
    requires IsRun(states, steps) && i < |steps| && !steps[i].Release? && h in states[i].holder
    ensures h in states[i + 1].holder && states[i + 1].holder[h] == states[i].holder[h]
  {
    Reached(states, steps, i);
    assert StepsTo(states[i], steps[i], states[i + 1]);
    HolderIsKept(states[i], steps[i], h);
  }

  lemma {:induction false} HolderInPass(states: seq<System>, steps: seq<Step>, b: nat, k: nat, h: Host)
    requires IsRun(states, steps) && b <= k < |states| && h in states[b].holder
    requires forall i :: b <= i < k ==> !steps[i].Release?
    ensures h in states[k].holder && states[k].holder[h] == states[b].holder[h]
    decreases k
  {
    if b < k {
      HolderInPass(states, steps, b, k - 1, h);
      HolderInRun(states, steps, k - 1, h);
    }
  }

  /** No lost wake-up.  Step a is request r taking the channel; in state k it
      is asleep on that channel.  If the channel is still open, no machine was
      released in between, and a machine busy at any moment b of the look is
      still held by the very request that held it then. */
  lemma NoLostWakeup(states: seq<System>, steps: seq<Step>, a: nat, b: nat, k: nat, r: Req)
    requires IsRun(states, steps) && a < b <= k < |states| && OnePass(steps, a, k, r)
    requires r in states[k].reqs && states[k].reqs[r].pc == Sleeping
    requires states[k].reqs[r].snap !in states[k].shared.closed
    ensures forall i :: a < i < k ==> !steps[i].Release?
    ensures forall h :: h in states[b].shared.busy ==>
              exists owner :: && owner in states[b].reqs && Holds(states[b].reqs[owner], h)
                              && owner in states[k].reqs && Holds(states[k].reqs[owner], h)
  {
    SnapInPass(states, steps, a, k, r);
    assert NoRelease(steps, a, k);
    Reached(states, steps, b);
    Reached(states, steps, k);
    forall h | h in states[b].shared.busy
      ensures exists owner :: && owner in states[b].reqs && Holds(states[b].reqs[owner], h)
                              && owner in states[k].reqs && Holds(states[k].reqs[owner], h)
    {
      HolderInPass(states, steps, b, k, h);
      var owner := states[b].holder[h];
      assert Holds(states[b].reqs[owner], h) && Holds(states[k].reqs[owner], h);
    }
  }

  /** The same seen from one state: a request asleep on an open channel waits
      for machines that may serve it.  There is at least one, every one in the
      fleet as its walk read it is busy now, and each is with the very request
      that held it when the walk came by. */
  lemma SleeperWaitsForHolders(states: seq<System>, steps: seq<Step>, k: nat, r: Req)
    requires IsRun(states, steps) && k < |states| && r in states[k].reqs
    requires states[k].reqs[r].pc == Sleeping && states[k].reqs[r].snap !in states[k].shared.closed
    ensures var s, q := states[k], states[k].reqs[r];
            && (exists i :: 0 <= i < |q.rows| && Eligible(q.rows[i]))
            && (forall i :: 0 <= i < |q.rows| && Eligible(q.rows[i]) ==> q.rows[i].id in s.shared.busy && q.rows[i].id in q.saw)
            && (forall h :: h in q.saw ==> q.saw[h] in s.reqs && Holds(s.reqs[q.saw[h]], h))
  {
    Reached(states, steps, k);
    var s := states[k];
    var q := s.reqs[r];
    assert RequestInv(q) && Watching(q);
    forall h | h in q.saw
      ensures h in s.shared.busy && q.saw[h] in s.reqs && Holds(s.reqs[q.saw[h]], h)
    {
      assert h in s.holder && s.holder[h] == q.saw[h];
    }
  }

  /** A request is told that nothing holds its model only when no machine of the
      fleet, as its walk read it, may serve it. */
  lemma UnplacedHasNoMachine(states: seq<System>, steps: seq<Step>, k: nat, r: Req)
    requires IsRun(states, steps) && k < |states| && Enabled(states[k], AnswerUnplaced(r))
    ensures forall i :: 0 <= i < |states[k].reqs[r].rows| ==> !Eligible(states[k].reqs[r].rows[i])
  {
    Reached(states, steps, k);
    assert RequestInv(states[k].reqs[r]);
  }

  /** One answer: what a call has written is nothing or one response, a peer that
      did not answer has written nothing, and a call that is over has written
      exactly one response unless its client went away while it slept. */
  lemma OneAnswer(states: seq<System>, steps: seq<Step>, k: nat, r: Req)
    requires IsRun(states, steps) && k < |states| && r in states[k].reqs
    ensures var q := states[k].reqs[r];
            && (q.log == [] || IsResponse(q.log))
            && (q.pc.Done? ==> (q.log == [] <==> q.gone))
            && (forall placed :: Enabled(states[k], PeerReply(r, placed)) && !SaidYes(placed) ==>
                  q.log == [] && Next(states[k], PeerReply(r, placed)).reqs[r].log == [])
            && (forall reply :: Enabled(states[k], AnswerProxied(r, reply)) ==>
                  q.log == [] && IsResponse(Next(states[k], AnswerProxied(r, reply)).reqs[r].log))
  {
    Reached(states, steps, k);
    var q := states[k].reqs[r];
    assert RequestInv(q);
    forall placed | Enabled(states[k], PeerReply(r, placed)) && !SaidYes(placed)
      ensures q.log == [] && Next(states[k], PeerReply(r, placed)).reqs[r].log == []
    {
      PeerAnswersOnce(placed);
    }
    forall reply | Enabled(states[k], AnswerProxied(r, reply))
      ensures q.log == [] && IsResponse(Next(states[k], AnswerProxied(r, reply)).reqs[r].log)
    {
      ProxyAnswersOnce(reply);
      assert [] + ProxyEvents(reply) == ProxyEvents(reply);
    }
  }

  /** When every call is over, nothing is held and nobody is counted. */
  lemma AtRest(states: seq<System>, steps: seq<Step>, k: nat)
    requires IsRun(states, steps) && k < |states|
    requires forall r :: r in states[k].reqs ==> states[k].reqs[r].pc.Done?
    ensures states[k].shared.busy == {} && states[k].shared.waiting == 0
  {
    MachinesAreExclusive(states, steps, k);
    QueueIsExact(states, steps, k);
    var s := states[k];
    assert (set r | r in s.reqs && s.reqs[r].queued && !s.reqs[r].pc.Done?) == {};
    assert forall r, h :: r in s.reqs ==> !Holds(s.reqs[r], h);
  }

  // ---------------------------------------------------------------- what may cross

  lemma PeersOnStep(s: System, step: Step, r: Req)
    requires Enabled(s, step) && r in s.reqs
    ensures r in Next(s, step).reqs && Next(s, step).reqs[r].peersOn == s.reqs[r].peersOn
    ensures Next(s, step).reqs[r].path == s.reqs[r].path
  {
    if r == step.r && !step.Arrive? {
      MovedKeeps(s.reqs[r], step, s.shared.freed, AtDepth(s, step));
    }
  }

  lemma {:induction false} PeersOnIsFixed(states: seq<System>, steps: seq<Step>, a: nat, k: nat)
    requires IsRun(states, steps) && a < k < |states| && steps[a].Arrive?
    ensures steps[a].r in states[k].reqs
    ensures states[k].reqs[steps[a].r].path == steps[a].path
    ensures states[k].reqs[steps[a].r].peersOn == MayCross(steps[a].joined, steps[a].localOnly, steps[a].path)
    decreases k
  {
    assert StepsTo(states[k - 1], steps[k - 1], states[k]);
    if k > a + 1 {
      PeersOnIsFixed(states, steps, a, k - 1);
      PeersOnStep(states[k - 1], steps[k - 1], steps[a].r);
    }
  }

  /** A request that asks a peer arrived with the space joined, without the
      local-only mark, and on a prompt path. */
  lemma OnlyPromptsCross(states: seq<System>, steps: seq<Step>, a: nat, k: nat)
    requires IsRun(states, steps) && a < k < |steps| && steps[a].Arrive?
    requires steps[k].PeerReply? && steps[k].r == steps[a].r
    ensures steps[a].joined && !steps[a].localOnly && steps[a].path in JOB_PATHS
  {
    Reached(states, steps, k);
    PeersOnIsFixed(states, steps, a, k);
    assert StepsTo(states[k], steps[k], states[k + 1]);
    assert RequestInv(states[k].reqs[steps[k].r]);
  }
}
