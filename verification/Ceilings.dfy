/** Two ceilings of hub/internal/peers: the lock-free count of service connections
    (services.go, handleTCP) with each peer's share of it, and the mutex-guarded
    counts of jobs being served (peers.go, handleJob).  Leaving the space makes
    the per-peer maps nil, and joining one makes new ones. */
module Ceilings {

  datatype Peer = Peer(id: string)
  type Id = nat

  function Get(m: map<Peer, int>, p: Peer): int {
    if p in m then m[p] else 0
  }

  /** The ids whose entry satisfies f. */
  ghost function Those<T>(m: map<Id, T>, f: T -> bool): set<Id> {
    set c | c in m && f(m[c])
  }

  /** Changing one entry changes the count by one entry. */
  lemma CountAfter<T>(m: map<Id, T>, c: Id, v: T, f: T -> bool)
    ensures |Those(m[c := v], f)|
         == |Those(m, f)| + (if f(v) then 1 else 0) - (if c in m && f(m[c]) then 1 else 0)
  {
    var before, after := Those(m, f), Those(m[c := v], f);
    if c in m && f(m[c]) {
      assert c in before;
      assert after - {c} == before - {c};
    } else {
      assert after - {c} == before;
    }
    if f(v) {
      assert c in after;
    } else {
      assert c !in after;
    }
  }

  // ---------------------------------------------------------------- service connections

  /** One connection in handleTCP: refused by the count but not yet subtracted,
      past the count, within its peer's share, or out of the share with the
      count still to give back. */
  datatype Pc = Over | Passed | Serving | Leaving | Gone

  datatype Conn = Conn(peer: Peer, pc: Pc)

  /** The atomic counter and the peers' shares; `joined` is whether there is a map
      of shares at all. */
  datatype Counts = Counts(conns: int, joined: bool, perPeer: map<Peer, int>)

  function Added(c: Counts): Counts { c.(conns := c.conns + 1) }
  function Subtracted(c: Counts): Counts { c.(conns := c.conns - 1) }
  function Shared(c: Counts, p: Peer): Counts { c.(perPeer := c.perPeer[p := Get(c.perPeer, p) + 1]) }

  predicate OverShare(c: Counts, p: Peer, share: nat) {
    !c.joined || Get(c.perPeer, p) >= share
  }

  function Unshared(c: Counts, p: Peer): Counts {
    if c.joined then c.(perPeer := c.perPeer[p := Get(c.perPeer, p) - 1]) else c
  }

  class Connections {
    var conns: int
    var joined: bool
    var perPeer: map<Peer, int>

    function Contents(): Counts
      reads this
    {
      Counts(conns, joined, perPeer)
    }

    constructor ()
      ensures Contents() == Counts(0, true, map[])
    {
      conns, joined, perPeer := 0, true, map[];
    }

    /** conns.Add(1) > ceiling; the subtraction of a refused connection is a
        step of its own. */
    method AddConn(ceiling: nat) returns (over: bool)
      modifies this
      ensures Contents() == Added(old(Contents())) && over == (old(conns) + 1 > ceiling)
    {
      conns := conns + 1;
      return conns > ceiling;
    }

    method SubtractConn()
      modifies this
      ensures Contents() == Subtracted(old(Contents()))
    {
      conns := conns - 1;
    }

    /** Without a map nobody has a share. */
    method TakeShare(from: Peer, share: nat) returns (over: bool)
      modifies this
      ensures over == (!old(joined) || Get(old(perPeer), from) >= share)
      ensures Contents() == if over then old(Contents()) else Shared(old(Contents()), from)
    {
      over := !joined || Get(perPeer, from) >= share;
      if !over {
        perPeer := perPeer[from := Get(perPeer, from) + 1];
      }
    }

    /** The deferred decrement, guarded against the nil map. */
    method GiveShare(from: Peer)
      modifies this
      ensures Contents() == Unshared(old(Contents()), from)
    {
      if joined {
        perPeer := perPeer[from := Get(perPeer, from) - 1];
      }
    }
  }

  datatype Settings = Settings(ceiling: nat, share: nat)

  datatype Door = Door(counts: Counts, live: map<Id, Conn>)

  const CLOSED := Door(Counts(0, true, map[]), map[])

  datatype Step =
    | Add(c: Id, peer: Peer)
    | Undo(c: Id)
    | Share(c: Id)
    | Finish(c: Id)
    | Leave(c: Id)
    | QuitSpace
    | JoinSpace

  predicate Enabled(d: Door, step: Step) {
    match step
    case Add(c, _) => c !in d.live
    case Undo(c) => c in d.live && d.live[c].pc == Over
    case Share(c) => c in d.live && d.live[c].pc == Passed
    case Finish(c) => c in d.live && d.live[c].pc == Serving
    case Leave(c) => c in d.live && d.live[c].pc == Leaving
    case _ => true
  }

  function Next(s: Settings, d: Door, step: Step): Door
    requires Enabled(d, step)
  {
    match step
    case Add(c, p) =>
      var counts := Added(d.counts);
      Door(counts, d.live[c := Conn(p, if counts.conns > s.ceiling then Over else Passed)])
    case Undo(c) => Door(Subtracted(d.counts), d.live[c := d.live[c].(pc := Gone)])
    case Share(c) =>
      var p := d.live[c].peer;
      if OverShare(d.counts, p, s.share) then Door(d.counts, d.live[c := Conn(p, Leaving)])
      else Door(Shared(d.counts, p), d.live[c := Conn(p, Serving)])
    case Finish(c) => Door(Unshared(d.counts, d.live[c].peer), d.live[c := d.live[c].(pc := Leaving)])
    case Leave(c) => Door(Subtracted(d.counts), d.live[c := d.live[c].(pc := Gone)])
    case QuitSpace => d.(counts := d.counts.(joined := false, perPeer := map[]))
    case JoinSpace => d.(counts := d.counts.(joined := true, perPeer := map[]))
  }

  predicate ChangesSpace(step: Step) {
    step.QuitSpace? || step.JoinSpace?
  }

  ghost function Counted(d: Door): set<Id> { Those(d.live, (c: Conn) => c.pc != Gone) }
  ghost function Admitted(d: Door): set<Id> { Those(d.live, (c: Conn) => c.pc != Gone && c.pc != Over) }
  ghost function Refused(d: Door): set<Id> { Those(d.live, (c: Conn) => c.pc == Over) }
  ghost function ServingOf(d: Door, p: Peer): set<Id> { Those(d.live, (c: Conn) => c.pc == Serving && c.peer == p) }

  ghost predicate CountInv(s: Settings, d: Door) {
    && d.counts.conns == |Counted(d)| == |Admitted(d)| + |Refused(d)|
    && |Admitted(d)| <= s.ceiling
  }

  ghost predicate ShareInv(s: Settings, d: Door) {
    d.counts.joined && forall p :: Get(d.counts.perPeer, p) == |ServingOf(d, p)| <= s.share
  }

  lemma StepCounts(s: Settings, d: Door, step: Step)
    requires Enabled(d, step) && !ChangesSpace(step)
    ensures var d' := Next(s, d, step);
            var old' := if step.c in d.live then d.live[step.c].pc else Gone;
            var new' := d'.live[step.c].pc;
            && |Counted(d')| == |Counted(d)| + (if new' != Gone then 1 else 0) - (if old' != Gone then 1 else 0)
            && |Admitted(d')| == |Admitted(d)| + (if new' != Gone && new' != Over then 1 else 0)
                                 - (if old' != Gone && old' != Over then 1 else 0)
            && |Refused(d')| == |Refused(d)| + (if new' == Over then 1 else 0) - (if old' == Over then 1 else 0)
  {
    var v := Next(s, d, step).live[step.c];
    assert Next(s, d, step).live == d.live[step.c := v];
    CountAfter(d.live, step.c, v, (c: Conn) => c.pc != Gone);
    CountAfter(d.live, step.c, v, (c: Conn) => c.pc != Gone && c.pc != Over);
    CountAfter(d.live, step.c, v, (c: Conn) => c.pc == Over);
  }

  lemma StepShares(s: Settings, d: Door, step: Step, p: Peer)
    requires Enabled(d, step) && !ChangesSpace(step)
    requires d.counts.joined && Get(d.counts.perPeer, p) == |ServingOf(d, p)| <= s.share
    ensures Get(Next(s, d, step).counts.perPeer, p) == |ServingOf(Next(s, d, step), p)| <= s.share
  {
    var v := Next(s, d, step).live[step.c];
    assert Next(s, d, step).live == d.live[step.c := v];
    CountAfter(d.live, step.c, v, (c: Conn) => c.pc == Serving && c.peer == p);
  }

  lemma StepKeepsCounts(s: Settings, d: Door, step: Step)
    requires CountInv(s, d) && Enabled(d, step)
    ensures CountInv(s, Next(s, d, step))
  {
    if !ChangesSpace(step) {
      StepCounts(s, d, step);
    }
  }

  lemma StepKeepsShares(s: Settings, d: Door, step: Step)
    requires ShareInv(s, d) && Enabled(d, step) && !ChangesSpace(step)
    ensures ShareInv(s, Next(s, d, step))
  {
    forall p
      ensures Get(Next(s, d, step).counts.perPeer, p) == |ServingOf(Next(s, d, step), p)| <= s.share
    {
      StepShares(s, d, step, p);
    }
  }

  ghost predicate StepsTo(s: Settings, d: Door, step: Step, d': Door) {
    Enabled(d, step) && d' == Next(s, d, step)
  }

  ghost predicate IsRun(s: Settings, states: seq<Door>, steps: seq<Step>) {
    && |states| == |steps| + 1 && states[0] == CLOSED
    && forall i :: 0 <= i < |steps| ==> StepsTo(s, states[i], steps[i], states[i + 1])
  }

  /** The first k steps are within one membership. */
  ghost predicate OneMembership(steps: seq<Step>, k: nat)
    requires k <= |steps|
  {
    forall i :: 0 <= i < k ==> !ChangesSpace(steps[i])
  }

  /** Add-then-check: at every moment of every interleaving, over any number of
      memberships, the connections let through are within the ceiling and the
      counter is exact; it also holds the refused ones that have not
      subtracted yet, so it may be above the ceiling.  Within one membership
      each peer's connections are within its share, and its count is exact. */
  lemma {:induction false} CeilingHolds(s: Settings, states: seq<Door>, steps: seq<Step>, k: nat)
    requires IsRun(s, states, steps) && k < |states|
    ensures |Admitted(states[k])| <= s.ceiling
    ensures states[k].counts.conns == |Counted(states[k])| == |Admitted(states[k])| + |Refused(states[k])|
    ensures OneMembership(steps, k) ==>
              states[k].counts.joined && forall p :: Get(states[k].counts.perPeer, p) == |ServingOf(states[k], p)| <= s.share
  {
    if k == 0 {
      assert Counted(CLOSED) == {} && Admitted(CLOSED) == {} && Refused(CLOSED) == {};
      assert forall p :: ServingOf(CLOSED, p) == {};
    } else {
      CeilingHolds(s, states, steps, k - 1);
      assert StepsTo(s, states[k - 1], steps[k - 1], states[k]);
      StepKeepsCounts(s, states[k - 1], steps[k - 1]);
      if OneMembership(steps, k) {
        assert OneMembership(steps, k - 1);
        StepKeepsShares(s, states[k - 1], steps[k - 1]);
      }
    }
  }

  /** When a connection is refused: exactly when those let through and those
      refused but not yet subtracted fill the ceiling together.  With none of
      the latter, exactly when the ceiling is full. */
  lemma RefusedWhenFull(s: Settings, states: seq<Door>, steps: seq<Step>, k: nat)
    requires IsRun(s, states, steps) && k < |steps| && steps[k].Add?
    ensures states[k + 1].live[steps[k].c].pc == Over <==> |Admitted(states[k])| + |Refused(states[k])| >= s.ceiling
    ensures Refused(states[k]) == {} ==>
              (states[k + 1].live[steps[k].c].pc == Over <==> |Admitted(states[k])| == s.ceiling)
  {
    CeilingHolds(s, states, steps, k);
    assert StepsTo(s, states[k], steps[k], states[k + 1]);
  }

  /** Past the count, within one membership, a connection is served exactly when
      its peer has fewer connections being served than its share. */
  lemma ServedWithinShare(s: Settings, states: seq<Door>, steps: seq<Step>, k: nat)
    requires IsRun(s, states, steps) && k < |steps| && OneMembership(steps, k) && steps[k].Share?
    ensures steps[k].c in states[k].live && steps[k].c in states[k + 1].live
    ensures states[k + 1].live[steps[k].c].pc == Serving <==> |ServingOf(states[k], states[k].live[steps[k].c].peer)| < s.share
  {
    CeilingHolds(s, states, steps, k);
    assert StepsTo(s, states[k], steps[k], states[k + 1]);
  }

  // ---------------------------------------------------------------- shares across a rejoin

  function Rejoin(s: Settings, d: Door): Door {
    Next(s, Next(s, d, QuitSpace), JoinSpace)
  }

  /** Leaving and joining again makes a new map of shares: it is right about the
      connections exactly when none of them held a share. */
  lemma RejoinSharesAreSoundWhenIdle(s: Settings, d: Door)
    requires ShareInv(s, d)
    ensures ShareInv(s, Rejoin(s, d)) <==> forall c :: c in d.live ==> d.live[c].pc != Serving
  {
    var t := Rejoin(s, d);
    forall p
      ensures ServingOf(t, p) == ServingOf(d, p)
    {
    }
    if c :| c in d.live && d.live[c].pc == Serving {
      assert c in ServingOf(d, d.live[c].peer);
    } else {
      assert forall p :: ServingOf(d, p) == {};
    }
  }

  /** Otherwise a connection of the space before that ends after the rejoin drives
      its peer's share to -1, and the peer is then let in once more than it may be. */
  lemma RejoinSharesOverAdmit(s: Settings, d: Door, c: Id)
    requires ShareInv(s, d) && c in d.live && d.live[c].pc == Serving
    ensures Enabled(Rejoin(s, d), Finish(c))
    ensures var t := Next(s, Rejoin(s, d), Finish(c));
            Get(t.counts.perPeer, d.live[c].peer) == -1 && !OverShare(t.counts, d.live[c].peer, 0)
  {
  }

  // ---------------------------------------------------------------- jobs being served

  /** `serving` and `total`; `joined` is whether `serving` is a map at all. */
  datatype Books = Books(joined: bool, serving: map<Peer, int>, total: int)

  predicate MayServe(b: Books, p: Peer, max: nat, ceiling: nat) {
    Get(b.serving, p) < max && b.total < ceiling
  }

  function Begun(b: Books, p: Peer): Books {
    Books(b.joined, b.serving[p := Get(b.serving, p) + 1], b.total + 1)
  }

  function Ended(b: Books, p: Peer): Books {
    Books(b.joined, b.serving[p := Get(b.serving, p) - 1], b.total - 1)
  }

  function Left(b: Books): Books { Books(false, map[], b.total) }
  function Rejoined(b: Books): Books { Books(true, map[], b.total) }

  datatype Outcome = Served | TurnedAway | Panicked

  class Jobs {
    var joined: bool
    var serving: map<Peer, int>
    var total: int

    function Contents(): Books
      reads this
    {
      Books(joined, serving, total)
    }

    constructor ()
      ensures Contents() == Books(true, map[], 0)
    {
      joined, serving, total := true, map[], 0;
    }

    /** The locked check and increments.  Reading a nil map gives 0, so a job may
        pass the check; the increment then panics. */
    method Admit(from: Peer, maxConcurrent: nat, ceiling: nat) returns (outcome: Outcome)
      modifies this
      ensures outcome.TurnedAway? <==> !MayServe(old(Contents()), from, maxConcurrent, ceiling)
      ensures outcome.Panicked? <==> MayServe(old(Contents()), from, maxConcurrent, ceiling) && !old(joined)
      ensures Contents() == if outcome.Served? then Begun(old(Contents()), from) else old(Contents())
    {
      if Get(serving, from) >= maxConcurrent || total >= ceiling {
        return TurnedAway;
      }
      if !joined {
        return Panicked;
      }
      serving := serving[from := Get(serving, from) + 1];
      total := total + 1;
      return Served;
    }

    /** The deferred decrements, which have no nil guard. */
    method Done(from: Peer) returns (panicked: bool)
      modifies this
      ensures panicked == !old(joined)
      ensures Contents() == if panicked then old(Contents()) else Ended(old(Contents()), from)
    {
      if !joined {
        return true;
      }
      serving := serving[from := Get(serving, from) - 1];
      total := total - 1;
      return false;
    }

    method LeaveSpace()
      modifies this
      ensures Contents() == Left(old(Contents()))
    {
      joined, serving := false, map[];
    }

    method Attach()
      modifies this
      ensures Contents() == Rejoined(old(Contents()))
    {
      joined, serving := true, map[];
    }
  }

  /** The books, the jobs at work by handler, and whether a handler has panicked. */
  datatype Server = Server(books: Books, flight: map<Id, Peer>, panicked: bool)

  const IDLE := Server(Books(true, map[], 0), map[], false)

  datatype Limits = Limits(max: Peer -> nat, ceiling: nat)

  ghost function FlightOf(flight: map<Id, Peer>, p: Peer): set<Id> {
    set j | j in flight && flight[j] == p
  }

  lemma FlightAfter(flight: map<Id, Peer>, j: Id, p: Peer, q: Peer)
    requires j !in flight
    ensures |FlightOf(flight[j := p], q)| == |FlightOf(flight, q)| + if p == q then 1 else 0
  {
    if p == q {
      assert FlightOf(flight[j := p], q) == FlightOf(flight, q) + {j};
    } else {
      assert FlightOf(flight[j := p], q) == FlightOf(flight, q);
    }
  }

  /** The books agree with the jobs at work and are within the limits. */
  ghost predicate BooksAgree(l: Limits, s: Server) {
    && s.books.joined && !s.panicked
    && s.books.total == |s.flight| <= l.ceiling
    && forall p :: Get(s.books.serving, p) == |FlightOf(s.flight, p)| <= l.max(p)
  }

  function Begin(s: Server, j: Id, p: Peer): Server { s.(books := Begun(s.books, p), flight := s.flight[j := p]) }
  function End(s: Server, j: Id): Server
    requires j in s.flight
  {
    s.(books := Ended(s.books, s.flight[j]), flight := s.flight - {j})
  }

  lemma BeginKeeps(l: Limits, s: Server, j: Id, p: Peer)
    requires BooksAgree(l, s) && j !in s.flight && MayServe(s.books, p, l.max(p), l.ceiling)
    ensures BooksAgree(l, Begin(s, j, p))
  {
    forall q
      ensures Get(Begin(s, j, p).books.serving, q) == |FlightOf(Begin(s, j, p).flight, q)| <= l.max(q)
    {
      FlightAfter(s.flight, j, p, q);
    }
  }

  lemma EndKeeps(l: Limits, s: Server, j: Id)
    requires BooksAgree(l, s) && j in s.flight
    ensures BooksAgree(l, End(s, j))
  {
    var t := End(s, j);
    assert s.flight == t.flight[j := s.flight[j]];
    forall q
      ensures Get(t.books.serving, q) == |FlightOf(t.flight, q)| <= l.max(q)
    {
      FlightAfter(t.flight, j, s.flight[j], q);
    }
  }

  datatype JobStep = Arrive(j: Id, peer: Peer) | Depart(j: Id) | Quit | Join

  predicate JobEnabled(s: Server, step: JobStep) {
    && !s.panicked
    && match step
       case Arrive(j, _) => j !in s.flight
       case Depart(j) => j in s.flight
       case _ => true
  }

  /** A job that may not be served is refused and changes nothing. */
  function JobNext(l: Limits, s: Server, step: JobStep): Server
    requires JobEnabled(s, step)
  {
    match step
    case Arrive(j, p) =>
      if !MayServe(s.books, p, l.max(p), l.ceiling) then s
      else if !s.books.joined then s.(panicked := true)
      else Begin(s, j, p)
    case Depart(j) => if !s.books.joined then s.(panicked := true) else End(s, j)
    case Quit => s.(books := Left(s.books))
    case Join => s.(books := Rejoined(s.books))
  }

  ghost predicate JobStepsTo(l: Limits, s: Server, step: JobStep, t: Server) {
    JobEnabled(s, step) && t == JobNext(l, s, step)
  }

  ghost predicate IsService(l: Limits, states: seq<Server>, steps: seq<JobStep>) {
    && |states| == |steps| + 1 && states[0] == IDLE
    && forall i :: 0 <= i < |steps| ==> JobStepsTo(l, states[i], steps[i], states[i + 1])
  }

  /** The first k steps are within one membership. */
  ghost predicate Staying(steps: seq<JobStep>, k: nat)
    requires k <= |steps|
  {
    forall i :: 0 <= i < k ==> !steps[i].Quit? && !steps[i].Join?
  }

  /** Within one membership `serving` and `total` are the jobs at work, per peer
      and in all, stay within MaxConcurrent and the hub's ceiling, and nothing
      panics. */
  lemma {:induction false} BooksStayTrue(l: Limits, states: seq<Server>, steps: seq<JobStep>, k: nat)
    requires IsService(l, states, steps) && k < |states| && Staying(steps, k)
    ensures BooksAgree(l, states[k])
  {
    if k == 0 {
      assert forall p :: FlightOf(states[0].flight, p) == {};
    } else {
      assert Staying(steps, k - 1);
      BooksStayTrue(l, states, steps, k - 1);
      assert JobStepsTo(l, states[k - 1], steps[k - 1], states[k]);
      match steps[k - 1]
      case Arrive(j, p) =>
        if MayServe(states[k - 1].books, p, l.max(p), l.ceiling) {
          BeginKeeps(l, states[k - 1], j, p);
        }
      case Depart(j) => EndKeeps(l, states[k - 1], j);
    }
  }

  /** Within one membership a job is served exactly when its peer has fewer at
      work than it may have and the hub fewer than its ceiling; otherwise nothing
      changes. */
  lemma ServedBelowLimits(l: Limits, states: seq<Server>, steps: seq<JobStep>, k: nat)
    requires IsService(l, states, steps) && k < |steps| && Staying(steps, k) && steps[k].Arrive?
    ensures steps[k].j in states[k + 1].flight
       <==> |FlightOf(states[k].flight, steps[k].peer)| < l.max(steps[k].peer) && |states[k].flight| < l.ceiling
    ensures steps[k].j !in states[k + 1].flight ==> states[k + 1] == states[k]
  {
    BooksStayTrue(l, states, steps, k);
    assert JobStepsTo(l, states[k], steps[k], states[k + 1]);
  }

  /** Over any number of memberships `total` is the number of jobs at work, since
      it is not reset, and within the hub's ceiling. */
  lemma {:induction false} TotalStaysTrue(l: Limits, states: seq<Server>, steps: seq<JobStep>, k: nat)
    requires IsService(l, states, steps) && k < |states|
    ensures states[k].books.total == |states[k].flight| <= l.ceiling
  {
    if k > 0 {
      TotalStaysTrue(l, states, steps, k - 1);
      assert JobStepsTo(l, states[k - 1], steps[k - 1], states[k]);
      if steps[k - 1].Depart? {
        assert states[k - 1].flight.Keys - {steps[k - 1].j} == (states[k - 1].flight - {steps[k - 1].j}).Keys;
      }
    }
  }

  /** After k steps the hub has left a space and joined none since. */
  ghost predicate Away(steps: seq<JobStep>, k: nat)
    requires k <= |steps|
  {
    exists i :: 0 <= i < k && steps[i].Quit? && forall j :: i < j < k ==> !steps[j].Join?
  }

  lemma AwayStep(steps: seq<JobStep>, k: nat)
    requires k < |steps|
    ensures Away(steps, k + 1) <==> steps[k].Quit? || (Away(steps, k) && !steps[k].Join?)
  {
    if Away(steps, k) && !steps[k].Join? {
      var i :| 0 <= i < k && steps[i].Quit? && forall j :: i < j < k ==> !steps[j].Join?;
      assert forall j :: i < j < k + 1 ==> !steps[j].Join?;
    }
    if Away(steps, k + 1) && !steps[k].Quit? {
      var i :| 0 <= i < k + 1 && steps[i].Quit? && forall j :: i < j < k + 1 ==> !steps[j].Join?;
      assert i < k && forall j :: i < j < k ==> !steps[j].Join?;
    }
  }

  /** A handler that ends, or one let in, while there is no map. */
  ghost predicate WritesNilMap(l: Limits, s: Server, step: JobStep) {
    step.Depart? || (step.Arrive? && MayServe(s.books, step.peer, l.max(step.peer), l.ceiling))
  }

  lemma {:induction false} JoinedUnlessAway(l: Limits, states: seq<Server>, steps: seq<JobStep>, k: nat)
    requires IsService(l, states, steps) && k < |states|
    ensures states[k].books.joined <==> !Away(steps, k)
  {
    if k > 0 {
      JoinedUnlessAway(l, states, steps, k - 1);
      assert JobStepsTo(l, states[k - 1], steps[k - 1], states[k]);
      AwayStep(steps, k - 1);
    }
  }

  /** Exactly when the hub panics: when a job ends, or one is let in, between
      leaving a space and joining the next. */
  lemma {:induction false} PanicsExactlyAway(l: Limits, states: seq<Server>, steps: seq<JobStep>, k: nat)
    requires IsService(l, states, steps) && k < |states|
    ensures states[k].panicked <==> exists i :: 0 <= i < k && Away(steps, i) && WritesNilMap(l, states[i], steps[i])
  {
    if k > 0 {
      PanicsExactlyAway(l, states, steps, k - 1);
      JoinedUnlessAway(l, states, steps, k - 1);
      assert JobStepsTo(l, states[k - 1], steps[k - 1], states[k]);
      assert states[k].panicked <==> Away(steps, k - 1) && WritesNilMap(l, states[k - 1], steps[k - 1]);
      if i :| 0 <= i < k - 1 && Away(steps, i) && WritesNilMap(l, states[i], steps[i]) {
        assert false;
      }
    }
  }

  function Sum(serving: map<Peer, int>, peers: seq<Peer>): int {
    if peers == [] then 0 else Sum(serving, peers[1..]) + Get(serving, peers[0])
  }

  ghost function FlightOfAny(flight: map<Id, Peer>, peers: seq<Peer>): set<Id> {
    set j | j in flight && flight[j] in peers
  }

  lemma FlightSplits(flight: map<Id, Peer>, peers: seq<Peer>)
    requires peers != [] && peers[0] !in peers[1..]
    ensures |FlightOfAny(flight, peers)| == |FlightOf(flight, peers[0])| + |FlightOfAny(flight, peers[1..])|
  {
    var first, rest := FlightOf(flight, peers[0]), FlightOfAny(flight, peers[1..]);
    assert peers == [peers[0]] + peers[1..];
    assert FlightOfAny(flight, peers) == first + rest;
    assert first !! rest;
  }

  lemma {:induction false} SumCountsFlight(flight: map<Id, Peer>, serving: map<Peer, int>, peers: seq<Peer>)
    requires forall p :: Get(serving, p) == |FlightOf(flight, p)|
    requires forall i, j :: 0 <= i < j < |peers| ==> peers[i] != peers[j]
    ensures Sum(serving, peers) == |FlightOfAny(flight, peers)|
    decreases |peers|
  {
    if peers == [] {
      assert FlightOfAny(flight, peers) == {};
    } else {
      SumCountsFlight(flight, serving, peers[1..]);
      FlightSplits(flight, peers);
    }
  }

  /** `total` is the sum of `serving` over any list of the peers that has every
      peer with a job at work once. */
  lemma TotalIsSum(l: Limits, s: Server, peers: seq<Peer>)
    requires BooksAgree(l, s)
    requires forall i, j :: 0 <= i < j < |peers| ==> peers[i] != peers[j]
    requires forall j :: j in s.flight ==> s.flight[j] in peers
    ensures s.books.total == Sum(s.books.serving, peers)
  {
    SumCountsFlight(s.flight, s.books.serving, peers);
    assert FlightOfAny(s.flight, peers) == s.flight.Keys;
  }

  /** Leaving and joining again resets `serving` but not `total`: the books
      agree afterwards exactly when no job was at work. */
  lemma RejoinIsSoundWhenIdle(l: Limits, s: Server)
    requires BooksAgree(l, s)
    ensures BooksAgree(l, s.(books := Rejoined(Left(s.books)))) <==> s.flight == map[]
  {
    var t := s.(books := Rejoined(Left(s.books)));
    if s.flight == map[] {
      assert forall p :: FlightOf(t.flight, p) == {};
    } else {
      var j :| j in s.flight;
      assert j in FlightOf(t.flight, s.flight[j]);
    }
  }

  /** What goes wrong otherwise: when a job from before the rejoin ends, its
      peer's count drops below zero, and the peer is then let in once more than
      it may be. */
  lemma RejoinOverAdmits(l: Limits, s: Server, j: Id)
    requires BooksAgree(l, s) && j in s.flight
    ensures var t := End(s.(books := Rejoined(Left(s.books))), j);
            && Get(t.books.serving, s.flight[j]) == -1
            && (t.books.total < l.ceiling ==> MayServe(t.books, s.flight[j], 0, l.ceiling))
  {
  }
}
