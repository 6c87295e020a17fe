/** What a request writes to its client: `tryPeer` and `proxy` of
    hub/internal/pool/pool.go over a response writer.

    What a peer or a machine sends is a sequence of reads, each with the bytes it
    returned, whether it ended the stream, and whether writing it on works. */
module Answers {
  import opened Lines
  import opened Sequences

  /** A status line, or bytes of the body. */
  datatype Event = Head(code: int) | Body(bytes: seq<Byte>)

  datatype Read = Read(bytes: seq<Byte>, ended: bool, accepted: bool)

  /** A status and then the body: one response. */
  ghost predicate IsResponse(log: seq<Event>) {
    log != [] && log[0].Head? && forall i :: 0 < i < |log| ==> log[i].Body?
  }

  function Content(log: seq<Event>): seq<Byte> {
    if log == [] then [] else Content(Init(log)) + if Last(log).Body? then Last(log).bytes else []
  }

  ghost predicate OnlyBody(log: seq<Event>) {
    forall i :: 0 <= i < |log| ==> log[i].Body?
  }

  /** What the copy loop writes of these reads. */
  function Copied(parts: seq<Read>): seq<Event> {
    if parts == [] || (parts[0].bytes != [] && !parts[0].accepted) then []
    else
      (if parts[0].bytes != [] then [Body(parts[0].bytes)] else [])
      + if parts[0].ended then [] else Copied(parts[1..])
  }

  /** http.Error */
  function ErrorEvents(code: int, text: seq<Byte>): seq<Event> {
    [Head(code), Body(text)]
  }

  /** What asking the peers came to: nobody was asked, the last one asked said
      no, or one said yes and this is its stream. */
  datatype Placed = NotAsked | Refused(name: string) | Granted(name: string, parts: seq<Read>)

  /** A yes whose stream broke before anything arrived is no answer. */
  predicate SaidYes(placed: Placed) {
    placed.Granted? && placed.parts != [] && !(placed.parts[0].bytes == [] && placed.parts[0].ended)
  }

  function PeerEvents(placed: Placed): seq<Event> {
    if SaidYes(placed) then [Head(200)] + Copied(placed.parts) else []
  }

  /** What asking a machine came to: the request could not be made, the machine
      could not be reached, or it answered. */
  datatype Reply = BadRequest(text: seq<Byte>) | Unreachable(text: seq<Byte>) | Replied(code: int, parts: seq<Read>)

  function ProxyEvents(reply: Reply): seq<Event> {
    match reply
    case BadRequest(text) => ErrorEvents(502, text)
    case Unreachable(text) => ErrorEvents(502, text)
    case Replied(code, parts) => [Head(code)] + Copied(parts)
  }

  lemma JoinThree<T>(a: seq<T>, b: seq<T>, c: seq<T>)
    ensures a + b + c == a + (b + c)
  {
  }

  lemma FirstPart(before: seq<Event>, parts: seq<Read>, after: seq<Event>)
    requires parts != [] && (parts[0].bytes != [] ==> parts[0].accepted)
    requires after == before + if parts[0].bytes != [] then [Body(parts[0].bytes)] else []
    ensures before + Copied(parts) == after + if parts[0].ended then [] else Copied(parts[1..])
  {
    JoinThree(before, if parts[0].bytes != [] then [Body(parts[0].bytes)] else [],
              if parts[0].ended then [] else Copied(parts[1..]));
  }

  /** What the client is sent. */
  class Writer {
    var log: seq<Event>

    constructor ()
      ensures log == []
    {
      log := [];
    }

    method WriteHeader(code: int)
      modifies this
      ensures log == old(log) + [Head(code)]
    {
      log := log + [Head(code)];
    }

    /** Without a status yet the first write sends 200. */
    method Write(bytes: seq<Byte>, accepted: bool) returns (failed: bool)
      modifies this
      ensures failed == !accepted
      ensures log == if !accepted then old(log) else if old(log) == [] then [Head(200), Body(bytes)] else old(log) + [Body(bytes)]
    {
      if !accepted {
        return true;
      }
      if log == [] {
        log := [Head(200)];
      }
      log := log + [Body(bytes)];
      return false;
    }

    method Error(code: int, text: seq<Byte>)
      modifies this
      ensures log == old(log) + ErrorEvents(code, text)
    {
      WriteHeader(code);
      var failed := Write(text, true);
    }

    /** `stream`: read, write what came, until a write fails or the stream ends. */
    method Stream(parts: seq<Read>)
      requires log != []
      modifies this
      ensures log == old(log) + Copied(parts)
    {
      var left := parts;
      while left != []
        invariant log != [] && log + Copied(left) == old(log) + Copied(parts)
        decreases |left|
      {
        var read := left[0];
        ghost var before := log;
        if read.bytes != [] {
          var failed := Write(read.bytes, read.accepted);
          if failed {
            assert before + [] == before;
            return;
          }
        }
        FirstPart(before, left, log);
        if read.ended {
          assert log + [] == log;
          return;
        }
        left := left[1..];
      }
      assert log + [] == log;
    }

    /** `tryPeer`: the status is held back until the first read is in hand.  A no,
        or a stream that broke before that, leaves the client untouched; `named`
        is the peer the caller's decision reports, and a conversation's home
        and the served tokens are kept exactly on a yes. */
    method TryPeer(placed: Placed, key: string) returns (ok: bool, named: Option<string>, remembered: bool, recorded: bool)
      modifies this
      ensures ok == SaidYes(placed)
      ensures !ok ==> log == old(log)
      ensures log == old(log) + PeerEvents(placed)
      ensures named == if ok || placed.NotAsked? then None else Some(placed.name)
      ensures remembered == (ok && key != "") && recorded == ok
    {
      remembered, recorded := false, false;
      match placed
      case NotAsked => return false, None, remembered, recorded;
      case Refused(name) => return false, Some(name), remembered, recorded;
      case Granted(name, parts) =>
        if parts == [] {
          return false, Some(name), remembered, recorded;
        }
        var first := parts[0];
        if first.bytes == [] && first.ended {
          return false, Some(name), remembered, recorded;
        }
        Relay(parts);
        JoinThree(old(log), [Head(200)], Copied(parts));
        return true, None, key != "", true;
    }

    /** The rest of it: the status, what the first read brought, the stream. */
    method Relay(parts: seq<Read>)
      requires parts != []
      modifies this
      ensures log == old(log) + [Head(200)] + Copied(parts)
    {
      WriteHeader(200);
      var first := parts[0];
      ghost var before := log;
      if first.bytes != [] {
        var failed := Write(first.bytes, first.accepted);
        if failed {
          assert before + [] == before;
          return;
        }
      }
      FirstPart(before, parts, log);
      if !first.ended {
        Stream(parts[1..]);
      }
    }

    /** `proxy`, all but the release: each of its three ways out writes one
        response, and the home is remembered only once the machine has answered. */
    method Proxy(reply: Reply, key: string) returns (remembered: bool, recorded: bool)
      modifies this
      ensures log == old(log) + ProxyEvents(reply)
      ensures remembered == (reply.Replied? && key != "")
      ensures recorded == (reply.Replied? && reply.code < 400)
    {
      remembered, recorded := false, false;
      match reply
      case BadRequest(text) => Error(502, text);
      case Unreachable(text) => Error(502, text);
      case Replied(code, parts) =>
        remembered := key != "";
        WriteHeader(code);
        Stream(parts);
        recorded := code < 400;
    }
  }

  // ---------------------------------------------------------------- what that comes to

  lemma {:induction false} CopiesAreBody(parts: seq<Read>)
    ensures OnlyBody(Copied(parts))
    decreases |parts|
  {
    if parts != [] {
      CopiesAreBody(parts[1..]);
    }
  }

  lemma HeadThenBody(code: int, body: seq<Event>)
    requires OnlyBody(body)
    ensures IsResponse([Head(code)] + body)
  {
  }

  /** Everything the reads brought up to the end of the stream. */
  function Brought(parts: seq<Read>): seq<Byte> {
    if parts == [] then [] else parts[0].bytes + if parts[0].ended then [] else Brought(parts[1..])
  }

  lemma {:induction false} ContentAppend(a: seq<Event>, b: seq<Event>)
    ensures Content(a + b) == Content(a) + Content(b)
    decreases |b|
  {
    if b == [] {
      assert a + b == a;
    } else {
      assert Init(a + b) == a + Init(b) && Last(a + b) == Last(b);
      ContentAppend(a, Init(b));
      JoinThree(Content(a), Content(Init(b)), if Last(b).Body? then Last(b).bytes else []);
    }
  }

  lemma ContentOfOne(e: Event)
    ensures Content([e]) == if e.Body? then e.bytes else []
  {
    assert Init([e]) == [];
  }

  /** What the client gets is a prefix of what was read, and all of it when no
      write failed. */
  lemma {:induction false} CopyIsFaithful(parts: seq<Read>)
    ensures Content(Copied(parts)) <= Brought(parts)
    ensures (forall i :: 0 <= i < |parts| ==> parts[i].accepted) ==> Content(Copied(parts)) == Brought(parts)
    decreases |parts|
  {
    if parts != [] && (parts[0].bytes == [] || parts[0].accepted) {
      CopyIsFaithful(parts[1..]);
      OneMorePart(parts[0].bytes, if parts[0].ended then [] else Copied(parts[1..]));
    }
  }

  lemma OneMorePart(bytes: seq<Byte>, rest: seq<Event>)
    ensures Content((if bytes != [] then [Body(bytes)] else []) + rest) == bytes + Content(rest)
  {
    ContentAppend(if bytes != [] then [Body(bytes)] else [], rest);
    ContentOfOne(Body(bytes));
  }

  /** These reads are written on: none of them ends the stream or fails. */
  ghost predicate GoThrough(parts: seq<Read>) {
    forall i :: 0 <= i < |parts| ==> !parts[i].ended && (parts[i].bytes == [] || parts[i].accepted)
  }

  /** The copy goes as far as the first write that fails, and no further. */
  lemma {:induction false} CopyStopsAtFailure(parts: seq<Read>, n: nat)
    requires n < |parts| && GoThrough(parts[..n]) && parts[n].bytes != [] && !parts[n].accepted
    ensures Content(Copied(parts)) == Brought(parts[..n])
    decreases n
  {
    if n > 0 {
      assert parts[..n][0] == parts[0] && parts[..n][1..] == parts[1..][..n - 1];
      CopyStopsAtFailure(parts[1..], n - 1);
      OneMorePart(parts[0].bytes, Copied(parts[1..]));
    }
  }

  lemma ResponseWith(code: int, parts: seq<Read>)
    ensures IsResponse([Head(code)] + Copied(parts))
    ensures Content([Head(code)] + Copied(parts)) == Content(Copied(parts))
  {
    CopiesAreBody(parts);
    HeadThenBody(code, Copied(parts));
    ContentAppend([Head(code)], Copied(parts));
    ContentOfOne(Head(code));
    assert [] + Content(Copied(parts)) == Content(Copied(parts));
  }

  lemma ErrorIs(code: int, text: seq<Byte>)
    ensures Content(ErrorEvents(code, text)) == text
  {
    ContentAppend([Head(code)], [Body(text)]);
    ContentOfOne(Head(code));
    ContentOfOne(Body(text));
    assert [Head(code)] + [Body(text)] == ErrorEvents(code, text);
  }

  /** Every way out of `proxy` is exactly one response: the machine's status and
      what it sent, or a 502 with the error. */
  lemma ProxyAnswersOnce(reply: Reply)
    ensures IsResponse(ProxyEvents(reply))
    ensures ProxyEvents(reply)[0] == Head(if reply.Replied? then reply.code else 502)
    ensures !reply.Replied? ==> Content(ProxyEvents(reply)) == reply.text
    ensures reply.Replied? ==> Content(ProxyEvents(reply)) == Content(Copied(reply.parts)) <= Brought(reply.parts)
  {
    match reply
    case Replied(code, parts) =>
      ResponseWith(code, parts);
      CopyIsFaithful(parts);
    case BadRequest(text) => ErrorIs(502, text);
    case Unreachable(text) => ErrorIs(502, text);
  }

  /** A peer's answer is exactly one response, a 200 before any byte, exactly when
      a yes came with a first byte or an open stream; anything else is nothing at
      all. */
  lemma PeerAnswersOnce(placed: Placed)
    ensures if placed.Granted? && placed.parts != [] && (placed.parts[0].bytes != [] || !placed.parts[0].ended)
            then && IsResponse(PeerEvents(placed)) && PeerEvents(placed)[0] == Head(200)
                 && Content(PeerEvents(placed)) == Content(Copied(placed.parts)) <= Brought(placed.parts)
            else PeerEvents(placed) == []
  {
    if SaidYes(placed) {
      ResponseWith(200, placed.parts);
      CopyIsFaithful(placed.parts);
    }
  }
}
