/** The terminal replay buffer of hub/internal/agent/window.go: a browser that
    attaches gets the last output back and then everything after it.

    A Go channel is a number; `chans` holds what is in each. */
module Window {
  import opened Lines
  import opened Sequences

  /** 64 << 10, and the capacity Attach makes a channel with. */
  const REPLAY: nat := 65536
  const CAPACITY: nat := 256

  type Chan = nat

  /** One subscriber's channel.  `replay`, `start` and `late` record what Attach
      returned, where in the output that began, and whether the window had ended
      by then; `taken` is what the reader has received. */
  datatype Sub = Sub(start: int, replay: string, late: bool, queue: seq<string>, taken: seq<string>, closed: bool)

  /** `output` is everything the process has printed; `panicked` is set by a send
      on a closed channel and by a second close. */
  datatype State = State(
    output: string, recent: string, subs: set<Chan>, chans: map<Chan, Sub>, ended: bool, panicked: bool)

  const STARTED := State("", "", {}, map[], false, false)

  function Tail(s: string, n: nat): string {
    if |s| > n then s[|s| - n..] else s
  }

  /** Cutting after every chunk keeps what cutting once would. */
  lemma TailOfTail(s: string, chunk: string, n: nat)
    ensures Tail(Tail(s, n) + chunk, n) == Tail(s + chunk, n)
  {
  }

  function Close(sub: Sub): Sub {
    sub.(closed := true)
  }

  predicate HasRoom(sub: Sub) {
    |sub.queue| < CAPACITY
  }

  /** A chunk is sent to an open channel with room; a full one is closed. */
  function Deliver(sub: Sub, chunk: string): Sub {
    if HasRoom(sub) then sub.(queue := sub.queue + [chunk]) else Close(sub)
  }

  /** Everything a subscriber has been given so far. */
  function Given(sub: Sub): string {
    sub.replay + Concat(sub.taken + sub.queue)
  }

  /** No gap and no repeat: what a subscriber was given is one stretch of the
      output, up to the present while it is subscribed. */
  ghost predicate Contiguous(w: State, ch: Chan)
    requires ch in w.chans
  {
    var sub := w.chans[ch];
    var end := sub.start + |Given(sub)|;
    && 0 <= sub.start && end <= |w.output| && Given(sub) == w.output[sub.start..end]
    && (ch in w.subs ==> end == |w.output|)
  }

  ghost predicate Valid(w: State) {
    && !w.panicked
    && w.recent == (if w.ended then "" else Tail(w.output, REPLAY))
    && w.subs <= w.chans.Keys
    && (forall ch :: ch in w.chans ==>
          && Contiguous(w, ch)
          && (w.chans[ch].closed <==> ch !in w.subs)
          && |w.chans[ch].queue| <= CAPACITY
          && (w.ended && ch in w.subs ==> w.chans[ch].late))
  }

  /** Every subscriber's channel is open: a send or a close on it cannot panic. */
  ghost predicate Open(subs: set<Chan>, chans: map<Chan, Sub>) {
    subs <= chans.Keys && forall ch :: ch in subs ==> !chans[ch].closed
  }

  function Delivered(subs: set<Chan>, chans: map<Chan, Sub>, chunk: string): map<Chan, Sub> {
    map ch | ch in chans :: if ch in subs then Deliver(chans[ch], chunk) else chans[ch]
  }

  function StillIn(subs: set<Chan>, chans: map<Chan, Sub>): set<Chan> {
    set ch | ch in subs && ch in chans && HasRoom(chans[ch])
  }

  function AllClosed(subs: set<Chan>, chans: map<Chan, Sub>): map<Chan, Sub> {
    map ch | ch in chans :: if ch in subs then Close(chans[ch]) else chans[ch]
  }

  ghost function Pumped(w: State, chunk: string): State {
    State(
      w.output + chunk,
      Tail(w.recent + chunk, REPLAY),
      StillIn(w.subs, w.chans),
      Delivered(w.subs, w.chans, chunk),
      w.ended,
      !Open(w.subs, w.chans))
  }

  ghost function Attached(w: State, ch: Chan): State {
    w.(subs := w.subs + {ch}, chans := w.chans[ch := Sub(|w.output| - |w.recent|, w.recent, w.ended, [], [], false)])
  }

  ghost function Detached(w: State, ch: Chan): State {
    if ch !in w.subs then w
    else if !Open({ch}, w.chans) then w.(panicked := true)
    else w.(subs := w.subs - {ch}, chans := w.chans[ch := Close(w.chans[ch])])
  }

  /** The reader receives the oldest chunk. */
  function Received(w: State, ch: Chan): State
    requires ch in w.chans && w.chans[ch].queue != []
  {
    var sub := w.chans[ch];
    w.(chans := w.chans[ch := sub.(queue := sub.queue[1..], taken := sub.taken + [sub.queue[0]])])
  }

  /** The process is gone: every channel is closed and the buffer handed on. */
  ghost function Finished(w: State): State {
    w.(recent := "", subs := {}, ended := true, chans := AllClosed(w.subs, w.chans), panicked := !Open(w.subs, w.chans))
  }

  // ---------------------------------------------------------------- each operation keeps it

  lemma DeliveredIsContiguous(w: State, chunk: string, ch: Chan)
    requires Valid(w) && ch in w.subs && HasRoom(w.chans[ch])
    ensures Given(Deliver(w.chans[ch], chunk)) == Given(w.chans[ch]) + chunk
  {
    var sub := w.chans[ch];
    var sent := sub.taken + sub.queue;
    assert sub.taken + (sub.queue + [chunk]) == sent + [chunk];
    assert Init(sent + [chunk]) == sent;
    assert sub.replay + (Concat(sent) + chunk) == sub.replay + Concat(sent) + chunk;
  }

  lemma StretchStays(output: string, chunk: string, start: nat, end: nat)
    requires start <= end <= |output|
    ensures (output + chunk)[start..end] == output[start..end]
    ensures end == |output| ==> (output + chunk)[start..end + |chunk|] == output[start..end] + chunk
  {
  }

  lemma PumpKeepsOne(w: State, chunk: string, ch: Chan)
    requires Valid(w) && !w.ended && ch in w.chans
    ensures Contiguous(Pumped(w, chunk), ch)
  {
    var sub := w.chans[ch];
    StretchStays(w.output, chunk, sub.start, sub.start + |Given(sub)|);
    if ch in w.subs && HasRoom(sub) {
      DeliveredIsContiguous(w, chunk, ch);
    }
  }

  lemma PumpKeeps(w: State, chunk: string)
    requires Valid(w) && !w.ended
    ensures Valid(Pumped(w, chunk))
  {
    TailOfTail(w.output, chunk, REPLAY);
    forall ch | ch in w.chans
      ensures Contiguous(Pumped(w, chunk), ch)
    {
      PumpKeepsOne(w, chunk, ch);
    }
  }

  lemma AttachKeeps(w: State, ch: Chan)
    requires Valid(w) && ch !in w.chans
    ensures Valid(Attached(w, ch))
  {
    var a := Attached(w, ch);
    assert Contiguous(a, ch) by {
      assert Given(a.chans[ch]) == w.recent;
    }
    forall c | c in w.chans
      ensures Contiguous(a, c)
    {
      assert Contiguous(w, c);
    }
  }

  /** Contiguity is about the output and what was given, not about the rest. */
  lemma StaysContiguous(w: State, w': State, ch: Chan)
    requires ch in w.chans && ch in w'.chans && Contiguous(w, ch) && w'.output == w.output
    requires w'.chans[ch].start == w.chans[ch].start && Given(w'.chans[ch]) == Given(w.chans[ch])
    requires ch in w'.subs ==> ch in w.subs
    ensures Contiguous(w', ch)
  {
  }

  lemma DetachKeeps(w: State, ch: Chan)
    requires Valid(w)
    ensures Valid(Detached(w, ch))
  {
    forall c | c in w.chans
      ensures Contiguous(Detached(w, ch), c)
    {
      StaysContiguous(w, Detached(w, ch), c);
    }
  }

  lemma TakenIsGiven(sub: Sub)
    requires sub.queue != []
    ensures Given(sub.(queue := sub.queue[1..], taken := sub.taken + [sub.queue[0]])) == Given(sub)
  {
    assert sub.taken + [sub.queue[0]] + sub.queue[1..] == sub.taken + sub.queue;
  }

  lemma ReceiveKeeps(w: State, ch: Chan)
    requires Valid(w) && ch in w.chans && w.chans[ch].queue != []
    ensures Valid(Received(w, ch))
  {
    TakenIsGiven(w.chans[ch]);
    forall c | c in w.chans
      ensures Contiguous(Received(w, ch), c)
    {
      StaysContiguous(w, Received(w, ch), c);
    }
  }

  lemma FinishKeeps(w: State)
    requires Valid(w)
    ensures Valid(Finished(w))
  {
    forall c | c in w.chans
      ensures Contiguous(Finished(w), c)
    {
      StaysContiguous(w, Finished(w), c);
    }
  }

  // ---------------------------------------------------------------- the window's own loops

  lemma NoneDelivered(chans: map<Chan, Sub>, chunk: string)
    ensures Delivered({}, chans, chunk) == chans && StillIn({}, chans) == {}
  {
  }

  lemma DeliverOne(chans: map<Chan, Sub>, done: set<Chan>, ch: Chan, chunk: string)
    requires ch in chans && ch !in done
    ensures Delivered(done, chans, chunk)[ch] == chans[ch]
    ensures Delivered(done + {ch}, chans, chunk) == Delivered(done, chans, chunk)[ch := Deliver(chans[ch], chunk)]
    ensures StillIn(done + {ch}, chans) == StillIn(done, chans) + if HasRoom(chans[ch]) then {ch} else {}
    ensures ch !in StillIn(done, chans)
  {
  }

  /** Two sets with nothing in common that make up a third. */
  ghost predicate Part(a: set<Chan>, b: set<Chan>, all: set<Chan>) {
    forall ch :: (ch in all <==> ch in a || ch in b) && !(ch in a && ch in b)
  }

  class Window {
    var recent: string
    var subs: set<Chan>
    var chans: map<Chan, Sub>
    var ended: bool
    /** Everything printed so far, kept for the specification. */
    var output: string

    function Contents(): State
      reads this
    {
      State(output, recent, subs, chans, ended, false)
    }

    constructor ()
      ensures Contents() == STARTED && Valid(Contents())
    {
      recent, subs, chans, ended, output := "", {}, map[], false, "";
    }

    /** `for ch := range w.subs`, with a send that does not block. */
    method Broadcast(chunk: string)
      requires Open(subs, chans)
      modifies this`subs, this`chans
      ensures subs == StillIn(old(subs), old(chans)) && chans == Delivered(old(subs), old(chans), chunk)
    {
      var left := subs;
      ghost var done, was := {}, chans;
      NoneDelivered(chans, chunk);
      while left != {}
        invariant Part(left, done, old(subs)) && left <= was.Keys
        invariant chans == Delivered(done, was, chunk)
        invariant Part(left, StillIn(done, was), subs)
        decreases |left|
      {
        var ch :| ch in left;
        DeliverOne(was, done, ch, chunk);
        SendOrDrop(ch, chunk);
        left, done := left - {ch}, done + {ch};
      }
      assert done == old(subs);
    }

    method SendOrDrop(ch: Chan, chunk: string)
      requires ch in chans
      modifies this`subs, this`chans
      ensures chans == old(chans)[ch := Deliver(old(chans)[ch], chunk)]
      ensures subs == if HasRoom(old(chans)[ch]) then old(subs) else old(subs) - {ch}
    {
      if HasRoom(chans[ch]) {
        chans := chans[ch := chans[ch].(queue := chans[ch].queue + [chunk])];
      } else {
        subs := subs - {ch};
        chans := chans[ch := Close(chans[ch])];
      }
    }

    method CloseAll()
      requires Open(subs, chans)
      modifies this`subs, this`chans
      ensures subs == {} && chans == AllClosed(old(subs), old(chans))
    {
      while subs != {}
        invariant subs <= old(subs) && chans.Keys == old(chans).Keys
        invariant forall ch :: ch in chans ==>
                    chans[ch] == if ch in old(subs) && ch !in subs then Close(old(chans)[ch]) else old(chans)[ch]
        decreases |subs|
      {
        var ch :| ch in subs;
        subs := subs - {ch};
        chans := chans[ch := Close(chans[ch])];
      }
      assert chans == AllClosed(old(subs), old(chans));
    }

    /** One chunk from the PTY, to the buffer and to every subscriber.  Sending
        on a closed channel or closing one twice would panic. */
    method PumpChunk(chunk: string)
      requires Valid(Contents()) && !ended
      modifies this
      ensures Contents() == Pumped(old(Contents()), chunk) && Valid(Contents())
    {
      PumpKeeps(Contents(), chunk);
      output := output + chunk;
      recent := recent + chunk;
      if |recent| > REPLAY {
        recent := recent[|recent| - REPLAY..];
      }
      Broadcast(chunk);
    }

    /** The process is gone; the buffer becomes the window's scrollback. */
    method Finish() returns (scrollback: string)
      requires Valid(Contents())
      modifies this
      ensures Contents() == Finished(old(Contents())) && Valid(Contents())
      ensures !old(ended) ==> scrollback == Tail(old(output), REPLAY)
    {
      FinishKeeps(Contents());
      CloseAll();
      scrollback := recent;
      recent := "";
      ended := true;
    }

    method Attach(ch: Chan) returns (replay: string)
      requires Valid(Contents()) && ch !in chans
      modifies this
      ensures Contents() == Attached(old(Contents()), ch) && Valid(Contents())
      ensures replay == old(recent)
    {
      AttachKeeps(Contents(), ch);
      subs := subs + {ch};
      chans := chans[ch := Sub(|output| - |recent|, recent, ended, [], [], false)];
      replay := recent;
    }

    method Detach(ch: Chan)
      requires Valid(Contents())
      modifies this
      ensures Contents() == Detached(old(Contents()), ch) && Valid(Contents())
    {
      DetachKeeps(Contents(), ch);
      if ch in subs {
        subs := subs - {ch};
        chans := chans[ch := Close(chans[ch])];
      }
    }
  }

  // ---------------------------------------------------------------- every interleaving

  datatype Step = Print(chunk: string) | Subscribe(ch: Chan) | Unsubscribe(ch: Chan) | Receive(ch: Chan) | Exit

  /** A subscriber's channel is newly made; after its end the window prints no
      more.  Nothing is asked of the channels: a step on a closed one panics. */
  ghost predicate StepsTo(w: State, step: Step, w': State) {
    !w.panicked &&
    match step
    case Print(chunk) => !w.ended && w' == Pumped(w, chunk)
    case Subscribe(ch) => ch !in w.chans && w' == Attached(w, ch)
    case Unsubscribe(ch) => w' == Detached(w, ch)
    case Receive(ch) => ch in w.chans && w.chans[ch].queue != [] && w' == Received(w, ch)
    case Exit => !w.ended && w' == Finished(w)
  }

  lemma StepKeeps(w: State, step: Step, w': State)
    requires Valid(w) && StepsTo(w, step, w')
    ensures Valid(w')
  {
    match step
    case Print(chunk) => PumpKeeps(w, chunk);
    case Subscribe(ch) => AttachKeeps(w, ch);
    case Unsubscribe(ch) => DetachKeeps(w, ch);
    case Receive(ch) => ReceiveKeeps(w, ch);
    case Exit => FinishKeeps(w);
  }

  ghost predicate IsRun(states: seq<State>, steps: seq<Step>) {
    && |states| == |steps| + 1 && states[0] == STARTED
    && forall i :: 0 <= i < |steps| ==> StepsTo(states[i], steps[i], states[i + 1])
  }

  lemma {:induction false} Reached(states: seq<State>, steps: seq<Step>, k: nat)
    requires IsRun(states, steps) && k < |states|
    ensures Valid(states[k])
  {
    if k > 0 {
      Reached(states, steps, k - 1);
      assert StepsTo(states[k - 1], steps[k - 1], states[k]);
      StepKeeps(states[k - 1], steps[k - 1], states[k]);
    }
  }

  /** No run ever sends on a closed channel or closes one twice: every channel
      the window may still send on or close is open. */
  lemma NeverPanics(states: seq<State>, steps: seq<Step>, k: nat)
    requires IsRun(states, steps) && k < |states|
    ensures !states[k].panicked && Open(states[k].subs, states[k].chans)
  {
    Reached(states, steps, k);
  }

  lemma {:induction false} ConcatIsPrefix(a: seq<string>, b: seq<string>)
    ensures Concat(a) <= Concat(a + b)
  {
    ConcatAppend(a, b);
  }

  /** Whoever reads, whenever: what a subscriber has in hand, its replay and the
      chunks it received, is one stretch of the output with no gap and no
      repeat, and with what waits in its channel it reaches the present for as
      long as it is subscribed. */
  lemma NoGapNoRepeat(states: seq<State>, steps: seq<Step>, k: nat, ch: Chan)
    requires IsRun(states, steps) && k < |states| && ch in states[k].chans
    ensures var w := states[k];
            var sub := w.chans[ch];
            var got := sub.replay + Concat(sub.taken);
            && 0 <= sub.start && sub.start + |got| <= |w.output| && got == w.output[sub.start..sub.start + |got|]
            && (ch in w.subs ==> Given(sub) == w.output[sub.start..])
  {
    Reached(states, steps, k);
    var w := states[k];
    var sub := w.chans[ch];
    assert Contiguous(w, ch);
    ConcatIsPrefix(sub.taken, sub.queue);
    PartOfStretch(w.output, sub.start, Given(sub), sub.replay + Concat(sub.taken));
  }

  lemma PartOfStretch(output: string, start: nat, all: string, part: string)
    requires part <= all && start + |all| <= |output| && all == output[start..start + |all|]
    ensures part == output[start..start + |part|]
  {
    assert part == all[..|part|];
  }

  /** All of it when it is no longer than 64 KiB, else its last 64 KiB. */
  ghost predicate LastOf(output: string, recent: string) {
    |recent| <= |output| && output[|output| - |recent|..] == recent
    && (|recent| == |output| || |recent| == 65536) && |recent| <= 65536
  }

  /** The buffer is always the last 64 KiB of the output, and so is what a
      subscriber is given back when it attaches, until the window has ended. */
  lemma ReplayIsTheLast(states: seq<State>, steps: seq<Step>, k: nat)
    requires IsRun(states, steps) && k < |states|
    ensures !states[k].ended ==> LastOf(states[k].output, states[k].recent)
    ensures k < |steps| && steps[k].Subscribe? ==>
              && steps[k].ch in states[k + 1].subs && steps[k].ch in states[k + 1].chans
              && (if states[k].ended then states[k + 1].chans[steps[k].ch].replay == ""
                  else LastOf(states[k].output, states[k + 1].chans[steps[k].ch].replay))
  {
    Reached(states, steps, k);
    if k < |steps| {
      assert StepsTo(states[k], steps[k], states[k + 1]);
    }
  }

  /** A subscriber is dropped by the pump exactly when it is a full channel behind. */
  lemma DroppedWhenFull(states: seq<State>, steps: seq<Step>, k: nat, ch: Chan)
    requires IsRun(states, steps) && k < |steps| && steps[k].Print? && ch in states[k].subs
    ensures ch in states[k].chans && (ch !in states[k + 1].subs <==> |states[k].chans[ch].queue| == 256)
  {
    Reached(states, steps, k);
    assert StepsTo(states[k], steps[k], states[k + 1]);
  }

  /** When the window has ended every channel is closed but those of the
      subscribers that attached after the end. */
  lemma ClosedAtTheEnd(states: seq<State>, steps: seq<Step>, k: nat, ch: Chan)
    requires IsRun(states, steps) && k < |states| && states[k].ended && ch in states[k].chans
    ensures !states[k].chans[ch].late ==> states[k].chans[ch].closed
  {
    Reached(states, steps, k);
  }

  ghost predicate Waiting(w: State, ch: Chan) {
    w.ended && ch in w.subs && ch in w.chans && !w.chans[ch].closed && Given(w.chans[ch]) == ""
  }

  lemma StepKeepsWaiting(w: State, step: Step, w': State, ch: Chan)
    requires Valid(w) && StepsTo(w, step, w') && Waiting(w, ch) && step != Unsubscribe(ch)
    ensures Waiting(w', ch)
  {
    if step.Receive? {
      TakenIsGiven(w.chans[step.ch]);
    }
  }

  /** Attach promises that its channel closes when the window ends.  A browser
      that attaches after that gets an empty replay and a channel on which
      nothing ever comes and that nothing but its own Detach closes. */
  lemma {:induction false} LateSubscriberWaits(states: seq<State>, steps: seq<Step>, a: nat, k: nat, ch: Chan)
    requires IsRun(states, steps) && a < k < |states| && steps[a] == Subscribe(ch) && states[a].ended
    requires forall i :: a < i < k ==> steps[i] != Unsubscribe(ch)
    ensures Waiting(states[k], ch)
    decreases k
  {
    Reached(states, steps, k - 1);
    assert StepsTo(states[k - 1], steps[k - 1], states[k]);
    if k > a + 1 {
      LateSubscriberWaits(states, steps, a, k - 1, ch);
      StepKeepsWaiting(states[k - 1], steps[k - 1], states[k], ch);
    }
  }
}
