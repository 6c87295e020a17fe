/** The price of add-then-check (hub/internal/peers/services.go, handleTCP): for
    every ceiling a run in which a connection is refused while none is let
    through. */
module Refusals {
  import opened Ceilings

  /** Peers enough: no two numbers have the same. */
  function Nth(i: nat): Peer {
    Peer(seq(i, k => 'x'))
  }

  lemma NthDiffers(i: nat, j: nat)
    requires i != j
    ensures Nth(i) != Nth(j)
  {
    assert |Nth(i).id| == i && |Nth(j).id| == j;
  }

  /** Connections 0 to a - 1 were let through, one a peer, and the first g of them
      have been served and are gone; connections a to a + b - 1 were refused and
      have not subtracted yet. */
  datatype Spot = Spot(a: nat, b: nat, g: nat)

  ghost predicate At(d: Door, s: Spot) {
    && s.g <= s.a && d.counts.joined && d.counts.conns == s.a - s.g + s.b
    && (forall i: nat :: i in d.live <==> i < s.a + s.b)
    && (forall i: nat :: i < s.g ==> d.live[i].pc == Gone)
    && (forall i: nat :: s.g <= i < s.a ==> d.live[i] == Conn(Nth(i), Serving))
    && (forall i: nat :: s.a <= i < s.a + s.b ==> d.live[i].pc == Over)
    && (forall i: nat :: i >= s.a ==> Nth(i) !in d.counts.perPeer)
  }

  ghost predicate RunTo(s: Settings, d: Door) {
    exists states, steps :: IsRun(s, states, steps) && states[|steps|] == d
  }

  lemma RunSnoc(s: Settings, states: seq<Door>, steps: seq<Step>, step: Step, d: Door)
    requires IsRun(s, states, steps) && StepsTo(s, states[|steps|], step, d)
    ensures IsRun(s, states + [d], steps + [step])
  {
    var ss, ts := states + [d], steps + [step];
    forall i | 0 <= i < |ts|
      ensures StepsTo(s, ss[i], ts[i], ss[i + 1])
    {
      if i < |steps| {
        assert StepsTo(s, states[i], steps[i], states[i + 1]);
      }
    }
  }

  lemma RunsOn(s: Settings, d: Door, step: Step)
    requires RunTo(s, d) && Enabled(d, step)
    ensures RunTo(s, Next(s, d, step))
  {
    var states, steps :| IsRun(s, states, steps) && states[|steps|] == d;
    RunSnoc(s, states, steps, step, Next(s, d, step));
    assert (states + [Next(s, d, step)])[|steps + [step]|] == Next(s, d, step);
  }

  ghost predicate Reach(s: Settings, spot: Spot) {
    exists d :: RunTo(s, d) && At(d, spot)
  }

  lemma Start(s: Settings)
    ensures Reach(s, Spot(0, 0, 0))
  {
    var states: seq<Door>, steps: seq<Step> := [CLOSED], [];
    assert IsRun(s, states, steps) && states[|steps|] == CLOSED;
    assert RunTo(s, CLOSED) && At(CLOSED, Spot(0, 0, 0));
  }

  lemma ShareEffect(s: Settings, d: Door, c: Id, p: Peer)
    requires c in d.live && d.live[c] == Conn(p, Passed) && d.counts.joined && p !in d.counts.perPeer && s.share >= 1
    ensures Enabled(d, Share(c))
    ensures var t := Next(s, d, Share(c));
            t.counts == d.counts.(perPeer := d.counts.perPeer[p := 1]) && t.live == d.live[c := Conn(p, Serving)]
  {
  }

  lemma AddEffect(s: Settings, d: Door, c: Id, p: Peer)
    requires c !in d.live
    ensures Enabled(d, Add(c, p))
    ensures var t := Next(s, d, Add(c, p));
            && t.counts == d.counts.(conns := d.counts.conns + 1)
            && t.live == d.live[c := Conn(p, if d.counts.conns + 1 > s.ceiling then Over else Passed)]
  {
  }

  lemma AtOneServed(d: Door, t: Door, a: nat)
    requires At(d, Spot(a, 0, 0)) && t.live == d.live[a := Conn(Nth(a), Serving)]
    requires t.counts == Counts(d.counts.conns + 1, true, d.counts.perPeer[Nth(a) := 1])
    ensures At(t, Spot(a + 1, 0, 0))
  {
    forall i: nat | i >= a + 1
      ensures Nth(i) !in t.counts.perPeer
    {
      NthDiffers(i, a);
    }
  }

  /** One more is let through and served. */
  lemma ServeOne(s: Settings, d: Door, a: nat) returns (t: Door)
    requires RunTo(s, d) && At(d, Spot(a, 0, 0)) && a < s.ceiling && s.share >= 1
    ensures RunTo(s, t) && At(t, Spot(a + 1, 0, 0))
  {
    AddEffect(s, d, a, Nth(a));
    var one := Next(s, d, Add(a, Nth(a)));
    RunsOn(s, d, Add(a, Nth(a)));
    ShareEffect(s, one, a, Nth(a));
    RunsOn(s, one, Share(a));
    t := Next(s, one, Share(a));
    assert t.live == d.live[a := Conn(Nth(a), Serving)];
    AtOneServed(d, t, a);
  }

  lemma AtOneMore(d: Door, t: Door, a: nat, b: nat, p: Peer)
    requires At(d, Spot(a, b, 0)) && t.live == d.live[a + b := Conn(p, Over)]
    requires t.counts == d.counts.(conns := d.counts.conns + 1)
    ensures At(t, Spot(a, b + 1, 0))
  {
  }

  /** With the ceiling full, one more is refused. */
  lemma RefuseOne(s: Settings, d: Door, b: nat, p: Peer) returns (t: Door)
    requires RunTo(s, d) && At(d, Spot(s.ceiling, b, 0))
    ensures RunTo(s, t) && At(t, Spot(s.ceiling, b + 1, 0))
  {
    AddEffect(s, d, s.ceiling + b, p);
    RunsOn(s, d, Add(s.ceiling + b, p));
    t := Next(s, d, Add(s.ceiling + b, p));
    AtOneMore(d, t, s.ceiling, b, p);
  }

  /** One that was served is done. */
  lemma FinishOne(s: Settings, d: Door, a: nat, b: nat, g: nat) returns (t: Door)
    requires RunTo(s, d) && At(d, Spot(a, b, g)) && g < a
    ensures RunTo(s, t) && At(t, Spot(a, b, g + 1))
  {
    RunsOn(s, d, Finish(g));
    var one := Next(s, d, Finish(g));
    assert one.live[g].pc == Leaving;
    forall i: nat | i >= a
      ensures Nth(i) !in one.counts.perPeer
    {
      NthDiffers(i, g);
    }
    RunsOn(s, one, Leave(g));
    t := Next(s, one, Leave(g));
  }

  lemma {:induction false} AllServed(s: Settings, a: nat)
    requires a <= s.ceiling && s.share >= 1
    ensures Reach(s, Spot(a, 0, 0))
  {
    if a == 0 {
      Start(s);
    } else {
      AllServed(s, a - 1);
      ServedNext(s, a - 1);
    }
  }

  lemma ServedNext(s: Settings, a: nat)
    requires Reach(s, Spot(a, 0, 0)) && a < s.ceiling && s.share >= 1
    ensures Reach(s, Spot(a + 1, 0, 0))
  {
    var d :| RunTo(s, d) && At(d, Spot(a, 0, 0));
    var t := ServeOne(s, d, a);
  }

  lemma {:induction false} AllRefused(s: Settings, b: nat)
    requires Reach(s, Spot(s.ceiling, 0, 0))
    ensures Reach(s, Spot(s.ceiling, b, 0))
  {
    if b > 0 {
      AllRefused(s, b - 1);
      RefusedNext(s, b - 1);
    }
  }

  lemma RefusedNext(s: Settings, b: nat)
    requires Reach(s, Spot(s.ceiling, b, 0))
    ensures Reach(s, Spot(s.ceiling, b + 1, 0))
  {
    var d :| RunTo(s, d) && At(d, Spot(s.ceiling, b, 0));
    var t := RefuseOne(s, d, b, Nth(0));
  }

  lemma {:induction false} AllDone(s: Settings, b: nat, g: nat)
    requires Reach(s, Spot(s.ceiling, b, 0)) && g <= s.ceiling
    ensures Reach(s, Spot(s.ceiling, b, g))
  {
    if g > 0 {
      AllDone(s, b, g - 1);
      DoneNext(s, b, g - 1);
    }
  }

  lemma DoneNext(s: Settings, b: nat, g: nat)
    requires Reach(s, Spot(s.ceiling, b, g)) && g < s.ceiling
    ensures Reach(s, Spot(s.ceiling, b, g + 1))
  {
    var d :| RunTo(s, d) && At(d, Spot(s.ceiling, b, g));
    var t := FinishOne(s, d, s.ceiling, b, g);
  }

  /** For every ceiling and every share that serves anyone at all: a run in which
      as many connections as the ceiling allows are let through and served while
      the counter goes to twice the ceiling, and one that, when all of those are
      gone and none is let through, refuses the next. */
  lemma SpuriousRefusal(s: Settings, p: Peer) returns (full: Door, drained: Door, c: Id)
    requires s.ceiling >= 1 && s.share >= 1
    ensures RunTo(s, full) && full.counts.conns == 2 * s.ceiling
    ensures forall i: nat :: i < s.ceiling ==> i in full.live && full.live[i].pc == Serving
    ensures RunTo(s, drained) && Admitted(drained) == {} && Enabled(drained, Add(c, p))
    ensures Next(s, drained, Add(c, p)).live[c].pc == Over
  {
    AllServed(s, s.ceiling);
    AllRefused(s, s.ceiling);
    full :| RunTo(s, full) && At(full, Spot(s.ceiling, s.ceiling, 0));
    AllDone(s, s.ceiling, s.ceiling);
    drained :| RunTo(s, drained) && At(drained, Spot(s.ceiling, s.ceiling, s.ceiling));
    c := 2 * s.ceiling;
  }
}
