/** Header and body on one stream: `header`, `send` and `handleJob` of
    hub/internal/peers/peers.go.

    A JSON value, the newline its encoder writes, then raw bytes.  The decoder
    reads ahead by an amount nobody controls; what is proved is that no byte of
    what follows is lost or gained by it.  A byte is written as the character
    with its value. */
module Framing {
  import opened Sequences

  /** 64 << 10 and 64 << 20. */
  const HEADER_MAX: nat := 65536
  const BODY_MAX: nat := 67108864

  const NEWLINE := '\n'

  /** What a streaming decoder says of the bytes so far: go on, not a value, or
      a value that ended after `used` of them. */
  datatype Parsed<V> = More | Bad | Value(v: V, used: nat)

  /** A self-delimiting code such as the JSON of an object. */
  datatype Code<!V> = Code(enc: V -> string, dec: string -> Parsed<V>)

  /** More bytes change neither a value nor a failure, and a value is decided on
      its own last byte and no sooner. */
  ghost predicate SelfDelimiting<V(!new)>(code: Code<V>) {
    && (forall s :: code.dec(s).Value? ==> code.dec(s).used <= |s|)
    && (forall s, t :: s <= t && code.dec(s) != More ==> code.dec(t) == code.dec(s))
    && (forall v :: code.dec(code.enc(v)) == Value(v, |code.enc(v)|))
    && (forall v, k :: 0 <= k < |code.enc(v)| ==> code.dec(code.enc(v)[..k]) == More)
  }

  function Upto(s: string, n: nat): string {
    if n <= |s| then s[..n] else s
  }

  function SkipNewline(s: string): string {
    if s != "" && s[0] == NEWLINE then s[1..] else s
  }

  /** What decoding from a whole stream, `limit` bytes of it at most, comes to:
      the value and every byte after it. */
  function Decoded<V>(code: Code<V>, limit: nat, all: string): Option<(V, string)> {
    match code.dec(Upto(all, limit))
    case Value(v, used) => if used <= |all| then Some((v, all[used..])) else None
    case _ => None
  }

  /** What reading a header comes to: the same, less the encoder's newline. */
  function AfterHeader<V>(code: Code<V>, limit: nat, all: string): Option<(V, string)> {
    match Decoded(code, limit, all)
    case Some((v, rest)) => Some((v, SkipNewline(rest)))
    case None => None
  }

  /** A network stream: a read returns some of what is left, at least a byte
      unless there is nothing left, and never more than was asked for. */
  class Stream {
    var rest: string

    constructor (content: string)
      ensures rest == content
    {
      rest := content;
    }

    method Read(max: nat) returns (b: string)
      modifies this
      ensures old(rest) == b + rest && |b| <= max
      ensures b == "" <==> old(rest) == "" || max == 0
    {
      if rest == "" || max == 0 {
        return "";
      }
      var n :| 1 <= n <= |rest| && n <= max;
      b := rest[..n];
      rest := rest[n..];
    }
  }

  /** Read on, `limit` bytes at most, until the decoder decides or the bytes run out. */
  method Fill<V>(code: Code<V>, s: Stream, limit: nat) returns (buf: string)
    modifies s
    ensures old(s.rest) == buf + s.rest && |buf| <= limit
    ensures code.dec(buf) == More ==> buf == Upto(old(s.rest), limit)
  {
    buf := "";
    while code.dec(buf).More?
      invariant old(s.rest) == buf + s.rest && |buf| <= limit
      decreases |s.rest|
    {
      var b := s.Read(limit - |buf|);
      if b == "" {
        return;
      }
      buf := buf + b;
    }
  }

  /** The decoder on a reader limited to `limit` bytes, with what it read past
      the value.  Whatever the reads return, the result is that of Decoded. */
  method Decode<V(!new)>(code: Code<V>, s: Stream, limit: nat) returns (v: Option<V>, buffered: string)
    requires SelfDelimiting(code)
    modifies s
    ensures v.None? ==> Decoded(code, limit, old(s.rest)) == None
    ensures v.Some? ==> Decoded(code, limit, old(s.rest)) == Some((v.value, buffered + s.rest))
  {
    var buf := Fill(code, s, limit);
    BufferDecides(code, buf, limit, old(s.rest), s.rest);
    var parsed := code.dec(buf);
    if !parsed.Value? {
      return None, "";
    }
    return Some(parsed.v), buf[parsed.used..];
  }

  lemma BufferDecides<V(!new)>(code: Code<V>, buf: string, limit: nat, all: string, rest: string)
    requires SelfDelimiting(code) && all == buf + rest && |buf| <= limit
    requires code.dec(buf) == More ==> buf == Upto(all, limit)
    ensures !code.dec(buf).Value? ==> Decoded(code, limit, all) == None
    ensures code.dec(buf).Value? ==> code.dec(buf).used <= |buf|
    ensures code.dec(buf).Value? ==> Decoded(code, limit, all) == Some((code.dec(buf).v, buf[code.dec(buf).used..] + rest))
  {
    if code.dec(buf) != More {
      DecidedEarly(code, buf, limit, all);
      if code.dec(buf).Value? {
        assert all[code.dec(buf).used..] == buf[code.dec(buf).used..] + rest;
      }
    }
  }

  /** Skip the encoder's newline if it is there, reading on for it when the
      decoder read no further than the value. */
  method SkipOne(s: Stream, ahead: string) returns (buffered: string)
    modifies s
    ensures buffered + s.rest == SkipNewline(ahead + old(s.rest))
  {
    buffered := ahead;
    if buffered == "" {
      buffered := s.Read(4096);
    }
    assert buffered + s.rest == ahead + old(s.rest);
    if buffered != "" && buffered[0] == NEWLINE {
      buffered := buffered[1..];
    }
  }

  method Header<V(!new)>(code: Code<V>, s: Stream, limit: nat) returns (v: Option<V>, buffered: string)
    requires SelfDelimiting(code)
    modifies s
    ensures v.None? ==> AfterHeader(code, limit, old(s.rest)) == None
    ensures v.Some? ==> AfterHeader(code, limit, old(s.rest)) == Some((v.value, buffered + s.rest))
  {
    var ahead;
    v, ahead := Decode(code, s, limit);
    if v.None? {
      return None, "";
    }
    buffered := SkipOne(s, ahead);
  }

  /** Once a prefix within the limit decides, the limited stream decides the same. */
  lemma DecidedEarly<V(!new)>(code: Code<V>, buf: string, limit: nat, all: string)
    requires SelfDelimiting(code) && buf <= all && |buf| <= limit && code.dec(buf) != More
    ensures code.dec(Upto(all, limit)) == code.dec(buf)
  {
    var upto := Upto(all, limit);
    assert upto == buf + upto[|buf|..];
  }

  /** The round trip: a header of at most `limit` bytes and whatever body follows
      it, even one that starts with a newline, come back exactly; a longer header
      never does. */
  lemma HeaderRoundTrip<V(!new)>(code: Code<V>, limit: nat, v: V, body: string)
    requires SelfDelimiting(code)
    ensures AfterHeader(code, limit, code.enc(v) + [NEWLINE] + body)
         == if |code.enc(v)| <= limit then Some((v, body)) else None
  {
    var e := code.enc(v);
    var all := e + [NEWLINE] + body;
    if |e| <= limit {
      DecidedEarly(code, e, limit, all);
      assert all[|e|..] == [NEWLINE] + body;
    } else {
      assert Upto(all, limit) == e[..limit];
    }
  }

  // ---------------------------------------------------------------- one job

  datatype JobHeader = JobHeader(model: string, path: string, size: int)
  datatype JobReply = JobReply(ok: bool, reason: string)

  /** What `send` writes for a job that is accepted. */
  function Sent(code: Code<JobHeader>, model: string, path: string, body: string): string {
    code.enc(JobHeader(model, path, |body|)) + [NEWLINE] + body
  }

  /** The prompt handleJob serves: the header must parse, the size must be in
      range, and that many bytes must follow. */
  function Prompt(code: Code<JobHeader>, all: string): Option<string> {
    match AfterHeader(code, HEADER_MAX, all)
    case None => None
    case Some((hdr, rest)) =>
      if hdr.size < 0 || hdr.size > BODY_MAX || hdr.size > |rest| then None else Some(rest[..hdr.size])
  }

  /** The stream begins with this header, decided within 64 KiB, and this is what
      follows it, less one newline. */
  ghost predicate Begins(code: Code<JobHeader>, all: string, hdr: JobHeader, used: nat, rest: string) {
    && code.dec(if |all| <= 65536 then all else all[..65536]) == Value(hdr, used) && used <= |all|
    && (all[used..] == ['\n'] + rest || (all[used..] == rest && (rest == "" || rest[0] != '\n')))
  }

  /** What is served is exactly as many bytes as the header says, at most 64 MiB,
      from right after it; a body cut short is not served at all. */
  lemma PromptExactly(code: Code<JobHeader>, all: string, p: string)
    ensures Prompt(code, all) == Some(p)
       <==> exists hdr, used, rest :: Begins(code, all, hdr, used, rest)
                                      && 0 <= hdr.size <= 67_108_864 && |p| == hdr.size && p <= rest
  {
    assert Upto(all, HEADER_MAX) == if |all| <= 65536 then all else all[..65536];
    match AfterHeader(code, HEADER_MAX, all)
    case None =>
    case Some((hdr, rest)) =>
      var used := code.dec(Upto(all, HEADER_MAX)).used;
      var after := all[used..];
      assert after != "" && after[0] == NEWLINE ==> after == [NEWLINE] + after[1..];
      assert Begins(code, all, hdr, used, rest);
      forall hdr', used', rest' | Begins(code, all, hdr', used', rest')
        ensures hdr' == hdr && rest' == rest
      {
        assert ([NEWLINE] + rest')[1..] == rest';
      }
      if 0 <= hdr.size <= 67_108_864 && |p| == hdr.size && p <= rest {
        assert rest[..hdr.size] == p;
      }
      if Prompt(code, all) == Some(p) {
        assert p == rest[..hdr.size] <= rest;
      }
  }

  /** Both sides agree on the prompt, exactly when the header and the body are
      within their limits. */
  lemma PromptArrives(code: Code<JobHeader>, model: string, path: string, body: string)
    requires SelfDelimiting(code)
    ensures Prompt(code, Sent(code, model, path, body)) == Some(body)
       <==> |code.enc(JobHeader(model, path, |body|))| <= HEADER_MAX && |body| <= BODY_MAX
    ensures Prompt(code, Sent(code, model, path, body)).Some? ==> Prompt(code, Sent(code, model, path, body)) == Some(body)
  {
    HeaderRoundTrip(code, HEADER_MAX, JobHeader(model, path, |body|), body);
    assert body[..|body|] == body;
  }

  /** And on the answer: what the peer's router wrote is what the sender reads. */
  lemma AnswerArrives(code: Code<JobReply>, answer: string)
    requires SelfDelimiting(code) && |code.enc(JobReply(true, ""))| <= HEADER_MAX
    ensures AfterHeader(code, HEADER_MAX, code.enc(JobReply(true, "")) + [NEWLINE] + answer)
         == Some((JobReply(true, ""), answer))
  {
    HeaderRoundTrip(code, HEADER_MAX, JobReply(true, ""), answer);
  }

  /** How handleJob ends: a reset stream, a refusal with its reason, or a prompt. */
  datatype Handled = Reset | TurnedAway(reason: string) | Accepted(prompt: string)

  /** handleJob as far as the prompt; `refusal` is the reason of any of its other
      checks. */
  method HandleJob(code: Code<JobHeader>, s: Stream, refusal: Option<string>) returns (h: Handled)
    requires SelfDelimiting(code)
    modifies s
    ensures h.Accepted? <==> refusal.None? && Prompt(code, old(s.rest)).Some?
    ensures h.Accepted? ==> Prompt(code, old(s.rest)) == Some(h.prompt)
    ensures AfterHeader(code, HEADER_MAX, old(s.rest)).None? ==> h.Reset?
    ensures h.TurnedAway? && refusal.Some? ==> h.reason == refusal.value
  {
    var hdr, buffered := Header(code, s, HEADER_MAX);
    if hdr.None? {
      return Reset;
    }
    if refusal.Some? {
      return TurnedAway(refusal.value);
    }
    var size := hdr.value.size;
    if size < 0 || size > BODY_MAX {
      return TurnedAway("request too large");
    }
    if size > |buffered + s.rest| {
      return Reset;
    }
    return Accepted((buffered + s.rest)[..size]);
  }

  /** What comes back on the stream: the reply, and after a yes the answer. */
  function Returned(code: Code<JobReply>, h: Handled, answer: string): string {
    match h
    case Reset => ""
    case TurnedAway(reason) => code.enc(JobReply(false, reason)) + [NEWLINE]
    case Accepted(_) => code.enc(JobReply(true, "")) + [NEWLINE] + answer
  }

  /** `send`, after it has written the job: the answer, or an error. */
  method ReadAnswer(code: Code<JobReply>, s: Stream, h: Handled, ghost answer: string) returns (received: Option<string>)
    requires SelfDelimiting(code) && |code.enc(JobReply(true, ""))| <= HEADER_MAX
    requires s.rest == Returned(code, h, answer)
    modifies s
    ensures received == if h.Accepted? then Some(answer) else None
  {
    if h.Reset? {
      return None;
    }
    RepliesArrive(code, h, answer);
    var reply, ahead := Header(code, s, HEADER_MAX);
    if reply.None? || !reply.value.ok {
      return None;
    }
    return Some(ahead + s.rest);
  }

  lemma RepliesArrive(code: Code<JobReply>, h: Handled, answer: string)
    requires SelfDelimiting(code) && |code.enc(JobReply(true, ""))| <= HEADER_MAX
    ensures h.Accepted? ==> AfterHeader(code, HEADER_MAX, Returned(code, h, answer)) == Some((JobReply(true, ""), answer))
    ensures h.TurnedAway? ==> var got := AfterHeader(code, HEADER_MAX, Returned(code, h, answer)); got.None? || !got.value.0.ok
  {
    if h.Accepted? {
      AnswerArrives(code, answer);
    } else if h.TurnedAway? {
      HeaderRoundTrip(code, HEADER_MAX, JobReply(false, h.reason), "");
      assert code.enc(JobReply(false, h.reason)) + [NEWLINE] + "" == Returned(code, h, answer);
    }
  }

  /** One job over a pair of streams, however either side's reads fall: the prompt
      served is the one sent and the answer read is the one written, exactly when
      no check refuses, the header fits and the body is within its limit; and
      otherwise neither side has anything. */
  method Exchange(headers: Code<JobHeader>, replies: Code<JobReply>, model: string, path: string, body: string,
                  refusal: Option<string>, answer: string)
    returns (prompt: Option<string>, received: Option<string>)
    requires SelfDelimiting(headers) && SelfDelimiting(replies) && |replies.enc(JobReply(true, ""))| <= HEADER_MAX
    ensures prompt == if && refusal.None? && |body| <= BODY_MAX
                         && |headers.enc(JobHeader(model, path, |body|))| <= HEADER_MAX
                      then Some(body) else None
    ensures received == if prompt.Some? then Some(answer) else None
  {
    var up := new Stream(Sent(headers, model, path, body));
    PromptArrives(headers, model, path, body);
    var h := HandleJob(headers, up, refusal);
    prompt := if h.Accepted? then Some(h.prompt) else None;
    var down := new Stream(Returned(replies, h, answer));
    received := ReadAnswer(replies, down, h, answer);
  }

  // ---------------------------------------------------------------- such codes exist

  /** Text with a mark before each character and another at the end, as a JSON
      string is delimited by its quotes. */
  function Marked(s: string): string {
    if s == "" then "." else ['-', s[0]] + Marked(s[1..])
  }

  function Unmarked(s: string): Parsed<string> {
    if s == "" then More
    else if s[0] == '.' then Value("", 1)
    else if s[0] != '-' then Bad
    else if |s| == 1 then More
    else
      match Unmarked(s[2..])
      case Value(v, used) => Value([s[1]] + v, used + 2)
      case other => other
  }

  const TEXT: Code<string> := Code((s: string) => Marked(s), (s: string) => Unmarked(s))

  lemma {:induction false} UnmarkedFits(s: string)
    ensures Unmarked(s).Value? ==> Unmarked(s).used <= |s|
    decreases |s|
  {
    if |s| > 1 {
      UnmarkedFits(s[2..]);
    }
  }

  lemma {:induction false} UnmarkedDecides(s: string, t: string)
    requires s <= t && Unmarked(s) != More
    ensures Unmarked(t) == Unmarked(s)
    decreases |s|
  {
    if |s| > 1 && s[0] == '-' {
      assert s[2..] <= t[2..];
      UnmarkedDecides(s[2..], t[2..]);
    }
  }

  lemma {:induction false} MarkedReadsBack(s: string)
    ensures Unmarked(Marked(s)) == Value(s, |Marked(s)|)
    decreases |s|
  {
    if s != "" {
      MarkedReadsBack(s[1..]);
      assert Marked(s)[2..] == Marked(s[1..]);
      assert [s[0]] + s[1..] == s;
    }
  }

  lemma {:induction false} MarkedNotSooner(s: string, k: nat)
    requires k < |Marked(s)|
    ensures Unmarked(Marked(s)[..k]) == More
    decreases |s|
  {
    if s != "" && k >= 2 {
      MarkedNotSooner(s[1..], k - 2);
      assert Marked(s)[..k][2..] == Marked(s[1..])[..k - 2];
    }
  }

  lemma MarkedIsSelfDelimiting()
    ensures SelfDelimiting(TEXT)
  {
    forall s
      ensures TEXT.dec(s).Value? ==> TEXT.dec(s).used <= |s|
    {
      UnmarkedFits(s);
    }
    forall s, t | s <= t && TEXT.dec(s) != More
      ensures TEXT.dec(t) == TEXT.dec(s)
    {
      UnmarkedDecides(s, t);
    }
    forall v
      ensures TEXT.dec(TEXT.enc(v)) == Value(v, |TEXT.enc(v)|)
    {
      MarkedReadsBack(v);
    }
    forall v, k | 0 <= k < |TEXT.enc(v)|
      ensures TEXT.dec(TEXT.enc(v)[..k]) == More
    {
      MarkedNotSooner(v, k);
    }
  }

  function ReadAs<V>(parsed: Parsed<string>, back: string -> Option<V>): Parsed<V> {
    match parsed
    case More => More
    case Bad => Bad
    case Value(text, used) => match back(text) case Some(v) => Value(v, used) case None => Bad
  }

  /** Values written as such a text. */
  function Through<V>(text: V -> string, back: string -> Option<V>): Code<V> {
    Code((v: V) => Marked(text(v)), (s: string) => ReadAs(Unmarked(s), back))
  }

  lemma ThroughIsSelfDelimiting<V(!new)>(text: V -> string, back: string -> Option<V>)
    requires forall v :: back(text(v)) == Some(v)
    ensures SelfDelimiting(Through(text, back))
  {
    MarkedIsSelfDelimiting();
    var code := Through(text, back);
    forall s
      ensures code.dec(s).Value? ==> code.dec(s).used <= |s|
    {
      UnmarkedFits(s);
    }
    forall s, t | s <= t && code.dec(s) != More
      ensures code.dec(t) == code.dec(s)
    {
      UnmarkedDecides(s, t);
    }
    forall v
      ensures code.dec(code.enc(v)) == Value(v, |code.enc(v)|)
    {
      MarkedReadsBack(text(v));
    }
    forall v, k | 0 <= k < |code.enc(v)|
      ensures code.dec(code.enc(v)[..k]) == More
    {
      MarkedNotSooner(text(v), k);
    }
  }

  /** A number in unary, with its sign. */
  function Unary(n: int): string {
    if n >= 0 then seq(n, i => '+') else seq(-n, i => '-')
  }

  function FromUnary(s: string): int {
    if s == "" then 0 else if s[0] == '+' then |s| else -|s|
  }

  function HeaderText(h: JobHeader): string {
    Marked(h.model) + Marked(h.path) + Unary(h.size)
  }

  function HeaderBack(s: string): Option<JobHeader> {
    match Unmarked(s)
    case Value(model, used) =>
      if used > |s| then None
      else
        (match Unmarked(s[used..])
         case Value(path, more) =>
           if more > |s[used..]| then None else Some(JobHeader(model, path, FromUnary(s[used..][more..])))
         case _ => None)
    case _ => None
  }

  lemma MarkedThen(v: string, rest: string)
    ensures Unmarked(Marked(v) + rest) == Value(v, |Marked(v)|) && (Marked(v) + rest)[|Marked(v)|..] == rest
  {
    MarkedReadsBack(v);
    UnmarkedDecides(Marked(v), Marked(v) + rest);
  }

  lemma HeaderReadsBack(h: JobHeader)
    ensures HeaderBack(HeaderText(h)) == Some(h)
  {
    var rest := Marked(h.path) + Unary(h.size);
    assert HeaderText(h) == Marked(h.model) + rest;
    MarkedThen(h.model, rest);
    MarkedThen(h.path, Unary(h.size));
  }

  function ReplyText(r: JobReply): string {
    [if r.ok then '+' else '-'] + r.reason
  }

  function ReplyBack(s: string): Option<JobReply> {
    if s == "" then None else Some(JobReply(s[0] == '+', s[1..]))
  }

  lemma ReplyReadsBack(r: JobReply)
    ensures ReplyBack(ReplyText(r)) == Some(r)
  {
    assert ReplyText(r)[1..] == r.reason;
  }

  function HeaderCode(): Code<JobHeader> {
    Through((h: JobHeader) => HeaderText(h), (s: string) => HeaderBack(s))
  }

  function ReplyCode(): Code<JobReply> {
    Through((r: JobReply) => ReplyText(r), (s: string) => ReplyBack(s))
  }

  /** What is assumed of the codes of job headers and replies is met by some, and
      their yes fits well within the limit. */
  lemma CodesExist()
    ensures SelfDelimiting(HeaderCode()) && SelfDelimiting(ReplyCode())
    ensures |ReplyCode().enc(JobReply(true, ""))| <= HEADER_MAX
  {
    forall h: JobHeader
      ensures HeaderBack(HeaderText(h)) == Some(h)
    {
      HeaderReadsBack(h);
    }
    forall r: JobReply
      ensures ReplyBack(ReplyText(r)) == Some(r)
    {
      ReplyReadsBack(r);
    }
    ThroughIsSelfDelimiting((h: JobHeader) => HeaderText(h), (s: string) => HeaderBack(s));
    ThroughIsSelfDelimiting((r: JobReply) => ReplyText(r), (s: string) => ReplyBack(s));
    YesIsShort();
  }

  lemma YesIsShort()
    ensures |Marked(ReplyText(JobReply(true, "")))| == 3
  {
    assert ReplyText(JobReply(true, "")) == "+" && "+"[1..] == "";
  }
}
