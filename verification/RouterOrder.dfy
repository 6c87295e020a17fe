/** The order `place` decides in (hub/internal/pool/pool.go): the conversation's home,
    a free machine, the peers, the queue.  Everything here is about the steps of a
    run, not about where a request is said to be. */
module RouterOrder {
  import opened Answers
  import opened Router
  import opened Sequences

  /** The peers were asked for this request, and it was not a yes. */
  predicate SaidNo(step: Step, r: Req) {
    step.PeerReply? && step.r == r && !SaidYes(step.placed)
  }

  /** The paths that are a prompt, the whole of what a peer may be asked. */
  predicate IsPromptPath(path: string) {
    || path == "/api/chat" || path == "/api/generate" || path == "/api/embed" || path == "/api/embeddings"
    || path == "/v1/chat/completions" || path == "/v1/completions" || path == "/v1/embeddings"
  }

  lemma JobPathsArePrompts(path: string)
    ensures path in JOB_PATHS <==> IsPromptPath(path)
  {
  }

  // ---------------------------------------------------------------- one step

  predicate AfterPeers(q: Request) {
    q.pc.Unplaced? || q.pc.Queueing? || q.pc.CheckingDeadline? || q.pc.Sleeping?
  }

  /** Where a request is says which step it took last. */
  lemma CameFrom(q: Request, step: Step, closed: set<Chan>, full: bool)
    requires Ready(q, step, closed) && !step.TakeHome? && !step.PickTry?
    ensures var pc := PcAfter(q, step, full);
            && (pc.AskingPeer? ==> step.PickEnd?)
            && (pc.Unplaced? || pc.Queueing? ==>
                  (step.PickEnd? && !q.peersOn) || (step.PeerReply? && !SaidYes(step.placed) && q.pc.AskingPeer?))
            && (pc.CheckingDeadline? ==> q.pc.Queueing? && step.Enqueue?)
            && (pc.Sleeping? ==> q.pc.CheckingDeadline? && step.CheckDeadline? && !step.passed)
  {
  }

  lemma HomeCameFrom(q: Request, step: Step, closed: set<Chan>, full: bool)
    requires Ready(q, step, closed) && !step.TakeHome? && !step.PickTry?
    ensures var pc := PcAfter(q, step, full);
            && (pc.TakingHome? ==> step.FindHome? && step.home == HostHome(pc.host))
            && (pc.AskingHome? ==> step.FindHome? && step.home == PeerHome)
            && (pc.Listing? ==>
                  || (step.FindHome? && (step.home.NoHome? || (step.home.PeerHome? && !q.peersOn)))
                  || (step.HomeUnavailable? && q.pc.TakingHome?)
                  || (step.PeerReply? && !SaidYes(step.placed) && q.pc.AskingHome?))
  {
  }

  lemma OthersDoNotMove(s: System, step: Step, r: Req)
    requires Enabled(s, step) && r in s.reqs && step.r != r
    ensures r in Next(s, step).reqs && Next(s, step).reqs[r] == s.reqs[r]
  {
  }

  lemma OwnMove(s: System, step: Step)
    requires Enabled(s, step) && !step.Arrive? && !step.TakeHome? && !step.PickTry?
    ensures Next(s, step).reqs[step.r].pc == PcAfter(s.reqs[step.r], step, AtDepth(s, step))
    ensures Next(s, step).reqs[step.r].peersOn == s.reqs[step.r].peersOn
    ensures Next(s, step).reqs[step.r].log == s.reqs[step.r].log + Written(s.reqs[step.r], step, AtDepth(s, step))
    ensures Next(s, step).reqs[step.r].queued == QueuedAfter(s.reqs[step.r], step, AtDepth(s, step))
  {
  }

  lemma OwnTry(s: System, step: Step)
    requires Enabled(s, step) && (step.TakeHome? || step.PickTry?)
    ensures var q, q' := s.reqs[step.r], Next(s, step).reqs[step.r];
            && q'.peersOn == q.peersOn && q'.log == q.log
            && (step.TakeHome? ==> q'.pc == if q.pc.host in s.shared.busy then Listing else Proxying(q.pc.host))
            && (step.PickTry? ==> q'.pc == if NextRow(q).id in s.shared.busy then Picking(q.pc.left[1..])
                                          else Proxying(NextRow(q).id))
  {
  }

  // ---------------------------------------------------------------- peers before the queue

  ghost predicate WalkEnded(steps: seq<Step>, a: nat, k: nat, r: Req)
    requires k <= |steps|
  {
    exists e :: a < e < k && steps[e] == PickEnd(r)
  }

  /** After the walk ended, the peers were asked and did not say yes. */
  ghost predicate AskedAfterWalk(steps: seq<Step>, a: nat, k: nat, r: Req)
    requires k <= |steps|
  {
    exists e, i :: a < e < i < k && steps[e] == PickEnd(r) && SaidNo(steps[i], r)
  }

  ghost predicate PeersInv(steps: seq<Step>, a: nat, k: nat, r: Req, q: Request)
    requires k <= |steps|
  {
    q.peersOn ==> (q.pc.AskingPeer? ==> WalkEnded(steps, a, k, r)) && (AfterPeers(q) ==> AskedAfterWalk(steps, a, k, r))
  }

  lemma Later(steps: seq<Step>, a: nat, k: nat, r: Req)
    requires k < |steps|
    ensures WalkEnded(steps, a, k, r) ==> WalkEnded(steps, a, k + 1, r)
    ensures AskedAfterWalk(steps, a, k, r) ==> AskedAfterWalk(steps, a, k + 1, r)
  {
    if AskedAfterWalk(steps, a, k, r) {
      var e, i :| a < e < i < k && steps[e] == PickEnd(r) && SaidNo(steps[i], r);
      assert e < i < k + 1;
    }
  }

  lemma PeersOwnStep(s: System, steps: seq<Step>, a: nat, k: nat, r: Req)
    requires a < k < |steps| && steps[k].r == r && Enabled(s, steps[k]) && !steps[k].Arrive?
    requires PeersInv(steps, a, k, r, s.reqs[r])
    ensures PeersInv(steps, a, k + 1, r, Next(s, steps[k]).reqs[r])
  {
    var step := steps[k];
    Later(steps, a, k, r);
    if step.TakeHome? || step.PickTry? {
      OwnTry(s, step);
    } else {
      OwnMove(s, step);
      CameFrom(s.reqs[r], step, s.shared.closed, AtDepth(s, step));
      if s.reqs[r].peersOn && step.PeerReply? && !SaidYes(step.placed) && s.reqs[r].pc.AskingPeer? {
        var e :| a < e < k && steps[e] == PickEnd(r);
        assert e < k < k + 1 && SaidNo(steps[k], r);
      }
    }
  }

  lemma {:induction false} PeersInPass(states: seq<System>, steps: seq<Step>, a: nat, k: nat, r: Req)
    requires IsRun(states, steps) && a < k < |states| && OnePass(steps, a, k, r)
    ensures r in states[k].reqs && PeersInv(steps, a, k, r, states[k].reqs[r])
    decreases k
  {
    assert StepsTo(states[k - 1], steps[k - 1], states[k]);
    if k == a + 1 {
      OwnMove(states[a], steps[a]);
    } else {
      PeersInPass(states, steps, a, k - 1, r);
      Later(steps, a, k - 1, r);
      if steps[k - 1].r == r {
        PeersOwnStep(states[k - 1], steps, a, k - 1, r);
      } else {
        OthersDoNotMove(states[k - 1], steps[k - 1], r);
      }
    }
  }

  /** Peers get first refusal: a prompt that came in unmarked with the space joined
      goes to the queue, or is told that nothing holds its model, only when in
      this very pass, after the walk of the fleet had ended, the peers were asked
      and did not say yes. */
  lemma PeersBeforeQueue(states: seq<System>, steps: seq<Step>, b: nat, a: nat, k: nat, r: Req)
    requires IsRun(states, steps) && b < k && a < k < |states| && OnePass(steps, a, k, r)
    requires steps[b].Arrive? && steps[b].r == r && steps[b].joined && !steps[b].localOnly && IsPromptPath(steps[b].path)
    ensures r in states[k].reqs
    ensures AfterPeers(states[k].reqs[r]) ==> AskedAfterWalk(steps, a, k, r)
  {
    PeersOnIsFixed(states, steps, b, k);
    JobPathsArePrompts(steps[b].path);
    PeersInPass(states, steps, a, k, r);
  }

  // ---------------------------------------------------------------- the home before the fleet

  ghost predicate HomeIs(steps: seq<Step>, a: nat, k: nat, r: Req, home: Home)
    requires k <= |steps|
  {
    exists f :: a < f < k && steps[f] == FindHome(r, home)
  }

  predicate TriesHome(step: Step, r: Req) {
    step == TakeHome(r) || step == HomeUnavailable(r)
  }

  /** The home was looked up; a machine was tried, and a peer asked if peers may be. */
  ghost predicate HomeDone(steps: seq<Step>, a: nat, k: nat, r: Req, peersOn: bool)
    requires k <= |steps|
  {
    || HomeIs(steps, a, k, r, NoHome)
    || (!peersOn && HomeIs(steps, a, k, r, PeerHome))
    || (exists f, j, h :: a < f < j < k && steps[f] == FindHome(r, HostHome(h)) && TriesHome(steps[j], r))
    || (exists f, j :: a < f < j < k && steps[f] == FindHome(r, PeerHome) && SaidNo(steps[j], r))
  }

  ghost predicate HomeInv(steps: seq<Step>, a: nat, k: nat, r: Req, q: Request)
    requires k <= |steps|
  {
    && (q.pc.TakingHome? ==> HomeIs(steps, a, k, r, HostHome(q.pc.host)))
    && (q.pc.AskingHome? ==> HomeIs(steps, a, k, r, PeerHome))
    && (q.pc.Listing? ==> HomeDone(steps, a, k, r, q.peersOn))
  }

  lemma HomeLater(steps: seq<Step>, a: nat, k: nat, r: Req, home: Home)
    requires k < |steps|
    ensures HomeIs(steps, a, k, r, home) ==> HomeIs(steps, a, k + 1, r, home)
  {
  }

  lemma HomeDoneLater(steps: seq<Step>, a: nat, k: nat, r: Req, peersOn: bool)
    requires k < |steps| && HomeDone(steps, a, k, r, peersOn)
    ensures HomeDone(steps, a, k + 1, r, peersOn)
  {
    HomeLater(steps, a, k, r, NoHome);
    HomeLater(steps, a, k, r, PeerHome);
    if f, j, h :| a < f < j < k && steps[f] == FindHome(r, HostHome(h)) && TriesHome(steps[j], r) {
      assert j < k + 1;
    }
    if f, j :| a < f < j < k && steps[f] == FindHome(r, PeerHome) && SaidNo(steps[j], r) {
      assert j < k + 1;
    }
  }

  lemma HomeTried(steps: seq<Step>, a: nat, k: nat, r: Req, h: Host, peersOn: bool)
    requires k < |steps| && HomeIs(steps, a, k, r, HostHome(h)) && TriesHome(steps[k], r)
    ensures HomeDone(steps, a, k + 1, r, peersOn)
  {
    var f :| a < f < k && steps[f] == FindHome(r, HostHome(h));
    assert a < f < k < k + 1 && TriesHome(steps[k], r);
  }

  lemma HomeAsked(steps: seq<Step>, a: nat, k: nat, r: Req, peersOn: bool)
    requires k < |steps| && HomeIs(steps, a, k, r, PeerHome) && SaidNo(steps[k], r)
    ensures HomeDone(steps, a, k + 1, r, peersOn)
  {
    var f :| a < f < k && steps[f] == FindHome(r, PeerHome);
    assert a < f < k < k + 1 && SaidNo(steps[k], r);
  }

  lemma HomeFound(steps: seq<Step>, a: nat, k: nat, r: Req, home: Home)
    requires a < k < |steps| && steps[k] == FindHome(r, home)
    ensures HomeIs(steps, a, k + 1, r, home)
  {
    assert a < k < k + 1 && steps[k] == FindHome(r, home);
  }

  lemma HomeOwnStep(s: System, steps: seq<Step>, a: nat, k: nat, r: Req)
    requires a < k < |steps| && steps[k].r == r && Enabled(s, steps[k]) && !steps[k].Arrive?
    requires HomeInv(steps, a, k, r, s.reqs[r])
    ensures HomeInv(steps, a, k + 1, r, Next(s, steps[k]).reqs[r])
  {
    var step, q := steps[k], s.reqs[r];
    if step.TakeHome? {
      OwnTry(s, step);
      HomeTried(steps, a, k, r, q.pc.host, q.peersOn);
    } else if step.PickTry? {
      OwnTry(s, step);
    } else {
      OwnMove(s, step);
      HomeCameFrom(q, step, s.shared.closed, AtDepth(s, step));
      if step.FindHome? {
        HomeFound(steps, a, k, r, step.home);
      } else if step.HomeUnavailable? {
        HomeTried(steps, a, k, r, q.pc.host, q.peersOn);
      } else if SaidNo(step, r) && q.pc.AskingHome? {
        HomeAsked(steps, a, k, r, q.peersOn);
      }
    }
  }

  lemma {:induction false} HomeInPass(states: seq<System>, steps: seq<Step>, a: nat, k: nat, r: Req)
    requires IsRun(states, steps) && a < k < |states| && OnePass(steps, a, k, r)
    ensures r in states[k].reqs && HomeInv(steps, a, k, r, states[k].reqs[r])
    decreases k
  {
    assert StepsTo(states[k - 1], steps[k - 1], states[k]);
    if k == a + 1 {
      OwnMove(states[a], steps[a]);
    } else {
      HomeInPass(states, steps, a, k - 1, r);
      if steps[k - 1].r == r {
        HomeOwnStep(states[k - 1], steps, a, k - 1, r);
      } else {
        OthersDoNotMove(states[k - 1], steps[k - 1], r);
        var q := states[k].reqs[r];
        if q.pc.Listing? {
          HomeDoneLater(steps, a, k - 1, r, q.peersOn);
        } else if q.pc.TakingHome? {
          HomeLater(steps, a, k - 1, r, HostHome(q.pc.host));
        } else if q.pc.AskingHome? {
          HomeLater(steps, a, k - 1, r, PeerHome);
        }
      }
    }
  }

  /** The home comes first: the fleet is read only after the home was looked up in
      this pass, and, when it is a machine, that machine was tried, and when it is
      a peer and peers may be asked, that peer did not say yes. */
  lemma HomeBeforeFleet(states: seq<System>, steps: seq<Step>, b: nat, a: nat, k: nat, r: Req)
    requires IsRun(states, steps) && b < k && a < k < |steps| && OnePass(steps, a, k, r)
    requires steps[b].Arrive? && steps[b].r == r && steps[k].ListHosts? && steps[k].r == r
    ensures HomeDone(steps, a, k, r, steps[b].joined && !steps[b].localOnly && IsPromptPath(steps[b].path))
  {
    assert StepsTo(states[k], steps[k], states[k + 1]);
    PeersOnIsFixed(states, steps, b, k);
    JobPathsArePrompts(steps[b].path);
    HomeInPass(states, steps, a, k, r);
  }

  /** And the machine tried is the home: it is the request's when it was idle. */
  lemma HomeIsTheOneTried(states: seq<System>, steps: seq<Step>, a: nat, k: nat, r: Req) returns (h: Host)
    requires IsRun(states, steps) && a < k < |steps| && OnePass(steps, a, k, r) && steps[k] == TakeHome(r)
    ensures HomeIs(steps, a, k, r, HostHome(h))
    ensures r in states[k + 1].reqs && (h !in states[k].shared.busy <==> Holds(states[k + 1].reqs[r], h))
    ensures h in states[k].shared.busy ==> states[k + 1].holder == states[k].holder
  {
    assert StepsTo(states[k], steps[k], states[k + 1]);
    HomeInPass(states, steps, a, k, r);
    OwnTry(states[k], steps[k]);
    h := states[k].reqs[r].pc.host;
  }

  // ---------------------------------------------------------------- what follows what

  /** Steps i and j are r's, and none between them is. */
  ghost predicate NextOwn(steps: seq<Step>, i: nat, j: nat, r: Req) {
    i < j < |steps| && steps[i].r == r && steps[j].r == r && forall m :: i < m < j ==> steps[m].r != r
  }

  lemma {:induction false} UnmovedBetween(states: seq<System>, steps: seq<Step>, i: nat, k: nat, r: Req)
    requires IsRun(states, steps) && i < k < |states| && steps[i].r == r && forall m :: i < m < k ==> steps[m].r != r
    ensures r in states[i + 1].reqs && r in states[k].reqs && states[k].reqs[r] == states[i + 1].reqs[r]
    decreases k
  {
    assert StepsTo(states[k - 1], steps[k - 1], states[k]);
    if k > i + 1 {
      UnmovedBetween(states, steps, i, k - 1, r);
      OthersDoNotMove(states[k - 1], steps[k - 1], r);
    }
  }

  /** Some machine of the fleet may serve the model: Ollama is on it, it is online,
      not switched off, and holds the model. */
  ghost predicate AnyEligible(rows: seq<HostRow>) {
    exists i :: 0 <= i < |rows| && rows[i].installed && rows[i].online && !rows[i].disabled && rows[i].holdsModel
  }

  lemma StepOfRun(states: seq<System>, steps: seq<Step>, i: nat, j: nat, r: Req)
    requires IsRun(states, steps) && NextOwn(steps, i, j, r) && !steps[i].Arrive?
    ensures Enabled(states[i], steps[i]) && states[i + 1] == Next(states[i], steps[i])
    ensures r in states[i + 1].reqs && Ready(states[i + 1].reqs[r], steps[j], states[j].shared.closed)
    ensures RequestInv(states[i].reqs[r])
  {
    assert StepsTo(states[i], steps[i], states[i + 1]) && StepsTo(states[j], steps[j], states[j + 1]);
    UnmovedBetween(states, steps, i, j, r);
    Reached(states, steps, i);
  }

  /** A call begins by taking the channel. */
  lemma ArriveFollows(states: seq<System>, steps: seq<Step>, i: nat, j: nat, r: Req)
    requires IsRun(states, steps) && NextOwn(steps, i, j, r) && steps[i].Arrive?
    ensures steps[j].TakeChannel?
  {
    assert StepsTo(states[i], steps[i], states[i + 1]) && StepsTo(states[j], steps[j], states[j + 1]);
    UnmovedBetween(states, steps, i, j, r);
  }

  /** Before the fleet: the channel, the home, the home's machine or peer. */
  lemma HomeFollows(states: seq<System>, steps: seq<Step>, i: nat, j: nat, r: Req)
    requires IsRun(states, steps) && NextOwn(steps, i, j, r) && !steps[i].Arrive?
    ensures r in states[i].reqs && r in states[i + 1].reqs
    ensures steps[i].TakeChannel? ==> steps[j].FindHome?
    ensures steps[i].FindHome? && steps[i].home.NoHome? ==> steps[j].ListHosts?
    ensures steps[i].FindHome? && steps[i].home.HostHome? ==> TriesHome(steps[j], r)
    ensures steps[i].FindHome? && steps[i].home.PeerHome? ==>
              if states[i].reqs[r].peersOn then steps[j].PeerReply? else steps[j].ListHosts?
    ensures steps[i].HomeUnavailable? ==> steps[j].ListHosts?
  {
    StepOfRun(states, steps, i, j, r);
    if !steps[i].TakeHome? && !steps[i].PickTry? {
      OwnMove(states[i], steps[i]);
    }
  }

  /** The walk, and what comes after it: the peers when they may be asked, else the
      queue when a machine of the fleet may serve the model, else the 404. */
  lemma WalkFollows(states: seq<System>, steps: seq<Step>, i: nat, j: nat, r: Req)
    requires IsRun(states, steps) && NextOwn(steps, i, j, r) && !steps[i].Arrive?
    ensures r in states[i].reqs && r in states[i + 1].reqs
    ensures steps[i].ListHosts? || steps[i].PickSkip? ==> steps[j].PickTry? || steps[j].PickSkip? || steps[j].PickEnd?
    ensures steps[i].PickEnd? ==>
              var q := states[i].reqs[r];
              if q.peersOn then steps[j].PeerReply? else if AnyEligible(q.rows) then steps[j].Enqueue? else steps[j].AnswerUnplaced?
  {
    StepOfRun(states, steps, i, j, r);
    if !steps[i].TakeHome? && !steps[i].PickTry? {
      OwnMove(states[i], steps[i]);
    }
  }

  /** The walk is over the whole list, from the front: a row is tried exactly when it
      may serve the model, the machine is the request's exactly when it was idle at
      that turn, and else the next row is looked at.  It ends when none is left. */
  lemma WalkTakesEachRow(states: seq<System>, steps: seq<Step>, i: nat, r: Req)
    requires IsRun(states, steps) && i < |steps| && steps[i].r == r && !steps[i].Arrive?
    ensures r in states[i].reqs && r in states[i + 1].reqs
    ensures steps[i].ListHosts? ==>
              states[i + 1].reqs[r].pc == Picking(if steps[i].hosts.Some? then steps[i].hosts.value else [])
    ensures steps[i].PickTry? || steps[i].PickSkip? ==>
              states[i].reqs[r].pc.Picking? && states[i].reqs[r].pc.left != [] &&
              var left := states[i].reqs[r].pc.left;
              && (steps[i].PickTry? <==> left[0].installed && left[0].online && !left[0].disabled && left[0].holdsModel)
              && states[i + 1].reqs[r].pc == if steps[i].PickTry? && left[0].id !in states[i].shared.busy then Proxying(left[0].id)
                                             else Picking(left[1..])
    ensures steps[i].PickEnd? ==> states[i].reqs[r].pc == Picking([])
  {
    assert StepsTo(states[i], steps[i], states[i + 1]);
    if steps[i].PickTry? || steps[i].TakeHome? {
      OwnTry(states[i], steps[i]);
    } else {
      OwnMove(states[i], steps[i]);
    }
  }

  /** A peer that did not say yes: the fleet comes next when it was asked as the
      home, the queue or the 404 when it was asked after the walk. */
  lemma PeerNoFollows(states: seq<System>, steps: seq<Step>, h: nat, i: nat, j: nat, r: Req)
    requires IsRun(states, steps) && NextOwn(steps, h, i, r) && NextOwn(steps, i, j, r) && SaidNo(steps[i], r)
    requires !steps[h].Arrive?
    ensures r in states[i].reqs && (steps[h].FindHome? || steps[h].PickEnd?)
    ensures steps[h].FindHome? ==> steps[j].ListHosts?
    ensures steps[h].PickEnd? ==> if AnyEligible(states[i].reqs[r].rows) then steps[j].Enqueue? else steps[j].AnswerUnplaced?
  {
    StepOfRun(states, steps, i, j, r);
    OwnMove(states[i], steps[i]);
    PeerAskedFrom(states, steps, h, i, r);
  }

  lemma PeerAskedFrom(states: seq<System>, steps: seq<Step>, h: nat, i: nat, r: Req)
    requires IsRun(states, steps) && NextOwn(steps, h, i, r) && steps[i].PeerReply? && !steps[h].Arrive?
    ensures r in states[i].reqs
    ensures (steps[h].FindHome? && states[i].reqs[r].pc.AskingHome?) || (steps[h].PickEnd? && states[i].reqs[r].pc.AskingPeer?)
  {
    StepOfRun(states, steps, h, i, r);
    UnmovedBetween(states, steps, h, i, r);
    if steps[h].TakeHome? || steps[h].PickTry? {
      OwnTry(states[h], steps[h]);
    } else {
      OwnMove(states[h], steps[h]);
    }
  }

  /** The queue: who sleeps has enqueued and is not past the deadline, and who wakes
      looks again from the channel on. */
  lemma QueueFollows(states: seq<System>, steps: seq<Step>, i: nat, j: nat, r: Req)
    requires IsRun(states, steps) && NextOwn(steps, i, j, r) && !steps[i].Arrive?
    ensures r in states[i].reqs && r in states[i + 1].reqs
    ensures steps[i].Enqueue? ==>
              var q := states[i].reqs[r];
              if !q.queued && states[i].shared.waiting >= steps[i].depth then steps[j].Return? else steps[j].CheckDeadline?
    ensures steps[i].CheckDeadline? ==> if steps[i].passed then steps[j].Return? else steps[j].Wake?
    ensures steps[i].Wake? ==> if steps[i].cause.ClientGone? then steps[j].Return? else steps[j].TakeChannel?
  {
    StepOfRun(states, steps, i, j, r);
    if !steps[i].TakeHome? && !steps[i].PickTry? {
      OwnMove(states[i], steps[i]);
    }
  }

  /** What wakes a sleeper: the client leaving and the timer at any time, the channel
      exactly when a machine was released since the pass took it. */
  lemma WakesExactly(states: seq<System>, steps: seq<Step>, a: nat, k: nat, r: Req)
    requires IsRun(states, steps) && a < k < |states| && OnePass(steps, a, k, r)
    requires r in states[k].reqs && states[k].reqs[r].pc == Sleeping
    ensures Enabled(states[k], Wake(r, ClientGone)) && Enabled(states[k], Wake(r, Timer))
    ensures Enabled(states[k], Wake(r, Woken)) <==> exists i :: a < i < k && steps[i].Release?
  {
    SnapInPass(states, steps, a, k, r);
    Reached(states, steps, k);
    assert ChannelsValid(states[k].shared);
  }

  /** A machine that was idle at its turn is asked, and then released, and then the
      call is over; so it is after every other answer. */
  lemma AnswerFollows(states: seq<System>, steps: seq<Step>, i: nat, j: nat, r: Req)
    requires IsRun(states, steps) && NextOwn(steps, i, j, r) && !steps[i].Arrive?
    ensures r in states[i].reqs && r in states[i + 1].reqs
    ensures steps[i].TakeHome? || steps[i].PickTry? ==>
              (steps[j].AnswerProxied? <==> exists h :: h !in states[i].shared.busy && Holds(states[i + 1].reqs[r], h))
    ensures steps[i].TakeHome? ==> steps[j].AnswerProxied? || steps[j].ListHosts?
    ensures steps[i].PickTry? ==> steps[j].AnswerProxied? || steps[j].PickTry? || steps[j].PickSkip? || steps[j].PickEnd?
    ensures !steps[i].Return?
    ensures steps[i].AnswerProxied? ==> steps[j].Release?
    ensures steps[i].Release? || steps[i].AnswerUnplaced? ==> steps[j].Return?
    ensures steps[i].PeerReply? && SaidYes(steps[i].placed) ==> steps[j].Return?
  {
    StepOfRun(states, steps, i, j, r);
    if steps[i].TakeHome? || steps[i].PickTry? {
      OwnTry(states[i], steps[i]);
    } else {
      OwnMove(states[i], steps[i]);
    }
  }

  // ---------------------------------------------------------------- endings

  predicate Over(q: Request) {
    q.pc.Returning? || q.pc.Done?
  }

  lemma OverStays(s: System, step: Step, r: Req)
    requires Enabled(s, step) && r in s.reqs && Over(s.reqs[r])
    ensures r in Next(s, step).reqs && Over(Next(s, step).reqs[r]) && Next(s, step).reqs[r].log == s.reqs[r].log
  {
    if step.r == r {
      OwnMove(s, step);
      assert s.reqs[r].log + [] == s.reqs[r].log;
    } else {
      OthersDoNotMove(s, step, r);
    }
  }

  lemma {:induction false} OverForGood(states: seq<System>, steps: seq<Step>, i: nat, k: nat, r: Req)
    requires IsRun(states, steps) && i <= k < |states| && r in states[i].reqs && Over(states[i].reqs[r])
    ensures r in states[k].reqs && Over(states[k].reqs[r]) && states[k].reqs[r].log == states[i].reqs[r].log
    decreases k
  {
    if i < k {
      OverForGood(states, steps, i, k - 1, r);
      assert StepsTo(states[k - 1], steps[k - 1], states[k]);
      OverStays(states[k - 1], steps[k - 1], r);
    }
  }

  /** The status a client is sent. */
  ghost predicate Status(q: Request, code: int) {
    q.log != [] && q.log[0] == Head(code)
  }

  lemma WrittenFirst(states: seq<System>, steps: seq<Step>, i: nat, r: Req)
    requires IsRun(states, steps) && i < |steps| && steps[i].r == r
    requires steps[i].Enqueue? || steps[i].CheckDeadline? || steps[i].AnswerUnplaced? || steps[i].AnswerProxied? || steps[i].PeerReply?
    ensures Enabled(states[i], steps[i]) && states[i + 1] == Next(states[i], steps[i])
    ensures states[i].reqs[r].log == []
    ensures states[i + 1].reqs[r].log == Written(states[i].reqs[r], steps[i], AtDepth(states[i], steps[i]))
  {
    assert StepsTo(states[i], steps[i], states[i + 1]);
    Reached(states, steps, i);
    assert RequestInv(states[i].reqs[r]);
    OwnMove(states[i], steps[i]);
    assert [] + Written(states[i].reqs[r], steps[i], AtDepth(states[i], steps[i]))
        == Written(states[i].reqs[r], steps[i], AtDepth(states[i], steps[i]));
  }

  /** A passed deadline ends the call with a 503, and a full queue does, for a call
      that is not in it yet; with room the call is in it. */
  lemma QueueEndings(states: seq<System>, steps: seq<Step>, i: nat, k: nat, r: Req)
    requires IsRun(states, steps) && i < k < |states| && steps[i].r == r
    ensures r in states[i].reqs || steps[i].Arrive?
    ensures r in states[k].reqs && r in states[i + 1].reqs
    ensures steps[i] == CheckDeadline(r, true) ==>
              Over(states[k].reqs[r]) && states[k].reqs[r].log == [Head(503), Body("the pool stayed busy for the whole wait")]
    ensures steps[i].Enqueue? && !states[i].reqs[r].queued ==>
              if states[i].shared.waiting >= steps[i].depth
              then Over(states[k].reqs[r]) && states[k].reqs[r].log == [Head(503), Body("the pool is busy and the queue is full")]
              else states[i + 1].reqs[r].queued
  {
    assert StepsTo(states[i], steps[i], states[i + 1]);
    StillThere(states, steps, i, k, r);
    if steps[i] == CheckDeadline(r, true) || (steps[i].Enqueue? && !states[i].reqs[r].queued) {
      WrittenFirst(states, steps, i, r);
      OwnMove(states[i], steps[i]);
      if Over(states[i + 1].reqs[r]) {
        OverForGood(states, steps, i + 1, k, r);
      }
    }
  }

  lemma {:induction false} StillThere(states: seq<System>, steps: seq<Step>, i: nat, k: nat, r: Req)
    requires IsRun(states, steps) && i < k < |states| && steps[i].r == r
    ensures r in states[i + 1].reqs && r in states[k].reqs
    decreases k
  {
    assert StepsTo(states[k - 1], steps[k - 1], states[k]);
    OnlyItsOwnRequest(states[k - 1], steps[k - 1]);
    if k > i + 1 {
      StillThere(states, steps, i, k - 1, r);
    }
  }

  /** The other statuses: 404 when nothing holds the model, the machine's own or a
      502 from a machine, 200 from a peer that said yes. */
  lemma AnswerStatuses(states: seq<System>, steps: seq<Step>, i: nat, r: Req)
    requires IsRun(states, steps) && i < |steps| && steps[i].r == r
    ensures r in states[i + 1].reqs
    ensures steps[i].AnswerUnplaced? ==> Status(states[i + 1].reqs[r], 404)
    ensures steps[i].AnswerProxied? ==>
              Status(states[i + 1].reqs[r], if steps[i].reply.Replied? then steps[i].reply.code else 502)
    ensures steps[i].PeerReply? && SaidYes(steps[i].placed) ==> Status(states[i + 1].reqs[r], 200)
  {
    StillThere(states, steps, i, i + 1, r);
    if steps[i].AnswerUnplaced? || steps[i].AnswerProxied? || steps[i].PeerReply? {
      WrittenFirst(states, steps, i, r);
    }
  }
}
