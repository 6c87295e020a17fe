/** The token meter of hub/internal/pool/meter.go: an answer streams past, in
    whatever pieces the reader cuts, and the last counts in it are kept. */
module Meter {
  import opened Lines
  import opened Sequences

  /** The longest line read for counts: 1 << 20. */
  const MAX_LINE := 1048576

  /** What json.Unmarshal finds in a line, as far as the meter looks. */
  datatype Answer = Answer(promptEval: int, eval: int, usage: Option<Tokens>)
  datatype Tokens = Tokens(prompt: int, completion: int)

  /** bytes.TrimSpace and json.Unmarshal, uninterpreted. */
  datatype Codec = Codec(trim: seq<Byte> -> seq<Byte>, json: seq<Byte> -> Option<Answer>)

  predicate TrimsNothingToNothing(codec: Codec) {
    codec.trim([]) == []
  }

  const DATA := "data:"
  const COUNT := "_count"
  const USAGE := "\"usage\""

  /** int64 addition wraps. */
  function Add64(x: int, y: int): int {
    (x + y + 0x8000_0000_0000_0000) % 0x1_0000_0000_0000_0000 - 0x8000_0000_0000_0000
  }

  /** Those of the usage, or those beside it, when they are positive. */
  function Chosen(v: Answer): Option<Tokens> {
    if v.usage.Some? && Add64(v.usage.value.prompt, v.usage.value.completion) > 0 then v.usage
    else if Add64(v.promptEval, v.eval) > 0 then Some(Tokens(v.promptEval, v.eval))
    else None
  }

  /** The counts one line carries, when they are positive. */
  function LineCounts(codec: Codec, line: seq<Byte>): Option<Tokens> {
    var body := TrimPrefix(codec.trim(line), DATA);
    if !Contains(body, COUNT) && !Contains(body, USAGE) then None
    else
      match codec.json(codec.trim(body))
      case None => None
      case Some(v) => Chosen(v)
  }

  /** A line of more than MAX_LINE bytes goes by unread. */
  function Counts(codec: Codec, line: seq<Byte>): Option<Tokens> {
    if |line| <= MAX_LINE then LineCounts(codec, line) else None
  }

  /** The batch form: the counts of the last line that carries any. */
  function LastCounts(codec: Codec, lines: seq<seq<Byte>>): Tokens {
    if lines == [] then Tokens(0, 0)
    else match Counts(codec, Last(lines))
         case Some(t) => t
         case None => LastCounts(codec, Init(lines))
  }

  /** What LastCounts means: if line i carries counts and no later line does,
      they are the result... */
  lemma {:induction false} LastCountsIsLast(codec: Codec, lines: seq<seq<Byte>>, i: nat)
    requires i < |lines| && Counts(codec, lines[i]).Some?
    requires forall j :: i < j < |lines| ==> Counts(codec, lines[j]) == None
    ensures LastCounts(codec, lines) == Counts(codec, lines[i]).value
    decreases |lines|
  {
    if i < |lines| - 1 {
      assert Counts(codec, lines[|lines| - 1]) == None;
      LastCountsIsLast(codec, Init(lines), i);
    }
  }

  /** ...and if no line does, the result is zero. */
  lemma {:induction false} NoCountsIsZero(codec: Codec, lines: seq<seq<Byte>>)
    requires forall j :: 0 <= j < |lines| ==> Counts(codec, lines[j]) == None
    ensures LastCounts(codec, lines) == Tokens(0, 0)
    decreases |lines|
  {
    if lines != [] {
      assert Counts(codec, lines[|lines| - 1]) == None;
      NoCountsIsZero(codec, Init(lines));
    }
  }

  // ---------------------------------------------------------------- what the counts are

  /** A trimmed line without the prefix of an event stream. */
  ghost predicate Payload(trimmed: seq<Byte>, body: seq<Byte>) {
    trimmed == "data:" + body || (trimmed == body && !("data:" <= trimmed))
  }

  ghost predicate Names(body: seq<Byte>, word: seq<Byte>) {
    exists i, j :: 0 <= i <= j <= |body| && body[i..j] == word
  }

  /** This payload names counts and decodes to v. */
  ghost predicate Decodes(codec: Codec, line: seq<Byte>, body: seq<Byte>, v: Answer) {
    && Payload(codec.trim(line), body)
    && (Names(body, "_count") || Names(body, "\"usage\""))
    && codec.json(codec.trim(body)) == Some(v)
  }

  /** The sum as a 64-bit number is more than zero. */
  ghost predicate Positive(x: int, y: int) {
    0 < (x + y) % 0x1_0000_0000_0000_0000 < 0x8000_0000_0000_0000
  }

  /** The line is short enough to be read, names counts, and decodes to these:
      those of its usage if they are more than zero, else those beside it, if
      they are. */
  ghost predicate Reports(codec: Codec, line: seq<Byte>, input: int, output: int) {
    |line| <= 1048576 && exists body, v ::
      && Decodes(codec, line, body, v)
      && if v.usage.Some? && Positive(v.usage.value.prompt, v.usage.value.completion)
         then input == v.usage.value.prompt && output == v.usage.value.completion
         else Positive(v.promptEval, v.eval) && input == v.promptEval && output == v.eval
  }

  ghost predicate Silent(codec: Codec, line: seq<Byte>) {
    forall input, output :: !Reports(codec, line, input, output)
  }

  /** The counts of the last line that reports any, or none. */
  ghost predicate LastReport(codec: Codec, lines: seq<seq<Byte>>, input: int, output: int) {
    || (exists i :: 0 <= i < |lines| && Reports(codec, lines[i], input, output)
                    && forall j :: i < j < |lines| ==> Silent(codec, lines[j]))
    || (input == 0 && output == 0 && forall j :: 0 <= j < |lines| ==> Silent(codec, lines[j]))
  }

  lemma PositiveIsAdd64(x: int, y: int)
    ensures Positive(x, y) <==> Add64(x, y) > 0
  {
  }

  lemma NamesIsContains(body: seq<Byte>, word: seq<Byte>)
    ensures Names(body, word) <==> Contains(body, word)
  {
    if Names(body, word) {
      var i, j :| 0 <= i <= j <= |body| && body[i..j] == word;
      assert body[i..][..|word|] == body[i..j];
    }
    if Contains(body, word) {
      var i :| 0 <= i <= |body| - |word| && body[i..][..|word|] == word;
      assert body[i..i + |word|] == body[i..][..|word|];
    }
  }

  lemma PayloadIsTrimmed(trimmed: seq<Byte>, body: seq<Byte>)
    ensures Payload(trimmed, body) <==> body == TrimPrefix(trimmed, DATA)
  {
    if DATA <= trimmed {
      assert trimmed == DATA + trimmed[|DATA|..];
    }
    if trimmed == "data:" + body {
      assert trimmed[|DATA|..] == body;
    }
  }

  lemma DecodesIs(codec: Codec, line: seq<Byte>, body: seq<Byte>, v: Answer)
    ensures Decodes(codec, line, body, v)
       <==> && body == TrimPrefix(codec.trim(line), DATA)
            && (Contains(body, COUNT) || Contains(body, USAGE)) && codec.json(codec.trim(body)) == Some(v)
  {
    PayloadIsTrimmed(codec.trim(line), body);
    NamesIsContains(body, COUNT);
    NamesIsContains(body, USAGE);
  }

  lemma ReportsIsCounts(codec: Codec, line: seq<Byte>, input: int, output: int)
    ensures Reports(codec, line, input, output) <==> Counts(codec, line) == Some(Tokens(input, output))
  {
    var body := TrimPrefix(codec.trim(line), DATA);
    forall b, v
      ensures Decodes(codec, line, b, v)
         <==> b == body && (Contains(body, COUNT) || Contains(body, USAGE)) && codec.json(codec.trim(body)) == Some(v)
    {
      DecodesIs(codec, line, b, v);
    }
    var found := codec.json(codec.trim(body));
    if found.Some? {
      var v := found.value;
      assert Decodes(codec, line, body, v) <==> Contains(body, COUNT) || Contains(body, USAGE);
      PositiveIsAdd64(v.promptEval, v.eval);
      if v.usage.Some? {
        PositiveIsAdd64(v.usage.value.prompt, v.usage.value.completion);
      }
    }
  }

  lemma SilentIsNone(codec: Codec, line: seq<Byte>)
    ensures Silent(codec, line) <==> Counts(codec, line) == None
  {
    match Counts(codec, line)
    case Some(t) => ReportsIsCounts(codec, line, t.prompt, t.completion);
    case None =>
      forall input, output
        ensures !Reports(codec, line, input, output)
      {
        ReportsIsCounts(codec, line, input, output);
      }
  }

  lemma LastLineReports(codec: Codec, lines: seq<seq<Byte>>, input: int, output: int)
    requires lines != [] && Reports(codec, lines[|lines| - 1], input, output)
    ensures LastReport(codec, lines, input, output)
  {
  }

  lemma SilentLineKeeps(codec: Codec, lines: seq<seq<Byte>>, input: int, output: int)
    requires lines != [] && Silent(codec, lines[|lines| - 1]) && LastReport(codec, Init(lines), input, output)
    ensures LastReport(codec, lines, input, output)
  {
    var front := Init(lines);
    assert forall j :: 0 <= j < |front| ==> front[j] == lines[j];
    if i :| 0 <= i < |front| && Reports(codec, front[i], input, output) && forall j :: i < j < |front| ==> Silent(codec, front[j]) {
      assert Reports(codec, lines[i], input, output);
      forall j | i < j < |lines|
        ensures Silent(codec, lines[j])
      {
        assert j < |front| ==> Silent(codec, front[j]);
      }
    } else {
      forall j | 0 <= j < |lines|
        ensures Silent(codec, lines[j])
      {
        assert j < |front| ==> Silent(codec, front[j]);
      }
    }
  }

  /** The batch form finds the counts of the last line that reports any. */
  lemma {:induction false} LastCountsAreReported(codec: Codec, lines: seq<seq<Byte>>)
    ensures LastReport(codec, lines, LastCounts(codec, lines).prompt, LastCounts(codec, lines).completion)
    decreases |lines|
  {
    if lines != [] {
      var t := LastCounts(codec, lines);
      SilentIsNone(codec, Last(lines));
      if Counts(codec, Last(lines)) == None {
        LastCountsAreReported(codec, Init(lines));
        SilentLineKeeps(codec, lines, t.prompt, t.completion);
      } else {
        ReportsIsCounts(codec, Last(lines), t.prompt, t.completion);
        LastLineReports(codec, lines, t.prompt, t.completion);
      }
    }
  }

  lemma NothingInAnEmptyLine(codec: Codec)
    requires TrimsNothingToNothing(codec)
    ensures LineCounts(codec, []) == None
  {
    assert TrimPrefix([], DATA) == [];
  }

  /** The buffer holds the unfinished line, or nothing when that is too long; the
      counts are those of the finished lines. */
  ghost predicate Midway(codec: Codec, lines: seq<seq<Byte>>, line: seq<Byte>, skip: bool, t: Tokens) {
    && lines != []
    && line == (if |Last(lines)| <= MAX_LINE then Last(lines) else [])
    && (skip <==> |Last(lines)| > MAX_LINE)
    && t == LastCounts(codec, Init(lines))
  }

  function Flushed(codec: Codec, line: seq<Byte>, t: Tokens): Tokens {
    match LineCounts(codec, line)
    case Some(found) => found
    case None => t
  }

  lemma FlushCounts(codec: Codec, lines: seq<seq<Byte>>, line: seq<Byte>, skip: bool, t: Tokens)
    requires TrimsNothingToNothing(codec) && Midway(codec, lines, line, skip, t)
    ensures Flushed(codec, line, t) == LastCounts(codec, lines)
  {
    NothingInAnEmptyLine(codec);
  }

  lemma NewlineKeeps(codec: Codec, lines: seq<seq<Byte>>, line: seq<Byte>, skip: bool, t: Tokens)
    requires TrimsNothingToNothing(codec) && Midway(codec, lines, line, skip, t)
    ensures Midway(codec, Grown(lines, NEWLINE), [], false, Flushed(codec, line, t))
  {
    FlushCounts(codec, lines, line, skip, t);
    assert Init(lines + [[]]) == lines;
  }

  lemma ByteKeeps(codec: Codec, lines: seq<seq<Byte>>, line: seq<Byte>, skip: bool, t: Tokens, c: Byte)
    requires c != NEWLINE && Midway(codec, lines, line, skip, t)
    ensures skip ==> Midway(codec, Grown(lines, c), line, true, t)
    ensures !skip && |line| >= MAX_LINE ==> Midway(codec, Grown(lines, c), [], true, t)
    ensures !skip && |line| < MAX_LINE ==> Midway(codec, Grown(lines, c), line + [c], false, t)
  {
    assert Init(Grown(lines, c)) == Init(lines);
  }

  class Meter {
    const codec: Codec
    var line: seq<Byte>
    var skip: bool
    var input: int
    var output: int
    /** Every byte that has gone by, and whether the stream has ended. */
    ghost var seen: seq<Byte>
    ghost var ended: bool

    ghost predicate Valid()
      reads this
    {
      && TrimsNothingToNothing(codec)
      && |line| <= MAX_LINE
      && (!ended ==> Midway(codec, Split(seen), line, skip, Tokens(input, output)))
      && (ended ==> Tokens(input, output) == LastCounts(codec, Split(seen)))
    }

    constructor (codec: Codec)
      requires TrimsNothingToNothing(codec)
      ensures Valid() && seen == [] && !ended && this.codec == codec
    {
      this.codec := codec;
      line, skip, input, output := [], false, 0, 0;
      seen, ended := [], false;
    }

    method Flush()
      modifies this`line, this`skip, this`input, this`output
      ensures line == [] && !skip
      ensures Tokens(input, output) == Flushed(codec, old(line), old(Tokens(input, output)))
      ensures old(|line|) <= 1048576 ==>
                if Silent(codec, old(line)) then input == old(input) && output == old(output)
                else Reports(codec, old(line), input, output)
    {
      SilentIsNone(codec, line);
      ghost var carried := Counts(codec, line);
      if carried.Some? {
        ReportsIsCounts(codec, line, carried.value.prompt, carried.value.completion);
      }
      var body := codec.trim(line);
      line, skip := [], false;
      body := TrimPrefix(body, DATA);
      if !Contains(body, COUNT) && !Contains(body, USAGE) {
        return;
      }
      var v := codec.json(codec.trim(body));
      if v.None? {
        return;
      }
      var a := v.value;
      if a.usage.Some? && Add64(a.usage.value.prompt, a.usage.value.completion) > 0 {
        input, output := a.usage.value.prompt, a.usage.value.completion;
      } else if Add64(a.promptEval, a.eval) > 0 {
        input, output := a.promptEval, a.eval;
      }
    }

    /** One byte: the line buffer and the skip flag. */
    method Push(c: Byte)
      requires Valid() && !ended
      modifies this
      ensures Valid() && !ended && seen == old(seen) + [c]
    {
      SplitSnoc(seen, c);
      if c == NEWLINE {
        NewlineKeeps(codec, Split(seen), line, skip, Tokens(input, output));
        Flush();
      } else {
        ByteKeeps(codec, Split(seen), line, skip, Tokens(input, output), c);
        if skip {
        } else if |line| >= MAX_LINE {
          line, skip := [], true;
        } else {
          line := line + [c];
        }
      }
      seen := seen + [c];
    }

    /** One read: `chunk` and `failed` are what the reader underneath returned. */
    method Read(chunk: seq<Byte>, failed: bool) returns (p: seq<Byte>, err: bool)
      requires Valid() && !ended
      modifies this
      ensures Valid()
      ensures p == chunk && err == failed
      ensures seen == old(seen) + chunk && ended == failed
    {
      var i := 0;
      while i < |chunk|
        invariant 0 <= i <= |chunk|
        invariant Valid() && !ended
        invariant seen == old(seen) + chunk[..i]
      {
        OneMore(old(seen), chunk, i);
        Push(chunk[i]);
        i := i + 1;
      }
      assert chunk[..|chunk|] == chunk;
      if failed {
        FlushCounts(codec, Split(seen), line, skip, Tokens(input, output));
        Flush();
        ended := true;
      }
      return chunk, failed;
    }

    /** What has been counted when the stream has ended. */
    lemma EndedWithLastReport()
      requires Valid() && ended
      ensures LastReport(codec, Split(seen), input, output)
    {
      LastCountsAreReported(codec, Split(seen));
    }

    /** The router's copy loop: each chunk is written on as it is read, until
        the reader ends or a write fails (`accepted` says which do).  What was
        written is a prefix of the answer; if nothing failed it is all of it, and
        the counts are those of the batch form. */
    method Stream(chunks: seq<seq<Byte>>, accepted: seq<bool>) returns (out: seq<Byte>)
      requires Valid() && !ended && seen == [] && chunks != [] && |accepted| == |chunks|
      modifies this
      ensures Valid() && out <= Concat(chunks)
      ensures (forall i :: 0 <= i < |accepted| ==> accepted[i]) ==>
                && out == Concat(chunks)
                && Tokens(input, output) == LastCounts(codec, Split(out))
                && LastReport(codec, Split(out), input, output)
    {
      ghost var done;
      out, done := Copy(chunks, accepted);
      LastCountsAreReported(codec, Split(out));
      BeginningIsPrefix(chunks, done);
    }

    method Copy(chunks: seq<seq<Byte>>, accepted: seq<bool>) returns (out: seq<Byte>, ghost done: nat)
      requires Valid() && !ended && seen == [] && chunks != [] && |accepted| == |chunks|
      modifies this
      ensures Valid() && done <= |chunks| && out == Beginning(chunks, done)
      ensures (forall i :: 0 <= i < |accepted| ==> accepted[i]) ==> done == |chunks| && ended && seen == out
    {
      out := [];
      var i := 0;
      while true
        invariant 0 <= i < |chunks|
        invariant Valid() && !ended
        invariant seen == out == Beginning(chunks, i)
        decreases |chunks| - i
      {
        var p, err := Read(chunks[i], i == |chunks| - 1);
        if |p| > 0 {
          if !accepted[i] {
            return out, i;
          }
          out := out + p;
        }
        i := i + 1;
        if err {
          return out, i;
        }
      }
    }
  }

  lemma OneMore(front: seq<Byte>, chunk: seq<Byte>, i: nat)
    requires i < |chunk|
    ensures front + chunk[..i] + [chunk[i]] == front + chunk[..i + 1]
  {
  }

  /** The first n chunks in one. */
  function Beginning(chunks: seq<seq<Byte>>, n: nat): seq<Byte>
    requires n <= |chunks|
  {
    if n == 0 then [] else Beginning(chunks, n - 1) + chunks[n - 1]
  }

  lemma {:induction false} BeginningIs(chunks: seq<seq<Byte>>, n: nat)
    requires n <= |chunks|
    ensures Beginning(chunks, n) == Concat(chunks[..n])
  {
    if n > 0 {
      BeginningIs(chunks, n - 1);
      assert Init(chunks[..n]) == chunks[..n - 1];
    }
  }

  lemma BeginningIsPrefix(chunks: seq<seq<Byte>>, n: nat)
    requires n <= |chunks|
    ensures Beginning(chunks, n) <= Concat(chunks) && (n == |chunks| ==> Beginning(chunks, n) == Concat(chunks))
  {
    BeginningIs(chunks, n);
    assert chunks == chunks[..n] + chunks[n..];
    ConcatAppend(chunks[..n], chunks[n..]);
  }
}
