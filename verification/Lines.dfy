/** Byte streams cut at newlines, as bytes.Split(b, "\n") cuts them.  A byte is
    written as the character with its value. */
module Lines {
  import opened Sequences

  type Byte = char

  const NEWLINE: Byte := '\n'

  /** The pieces between newlines: one more than there are newlines. */
  function Split(s: seq<Byte>): (lines: seq<seq<Byte>>)
    ensures lines != []
  {
    if s == [] then [[]]
    else
      var before := Split(Init(s));
      if Last(s) == NEWLINE then before + [[]] else Init(before) + [Last(before) + [Last(s)]]
  }

  predicate OneLine(s: seq<Byte>) {
    forall i :: 0 <= i < |s| ==> s[i] != NEWLINE
  }

  /** Pieces joined by newlines, the inverse of Split. */
  function Join(lines: seq<seq<Byte>>): seq<Byte>
    requires lines != []
  {
    if |lines| == 1 then lines[0] else Join(Init(lines)) + [NEWLINE] + Last(lines)
  }

  /** Splitting leaves no newline inside a line... */
  lemma {:induction false} SplitIntoLines(s: seq<Byte>)
    ensures forall i :: 0 <= i < |Split(s)| ==> OneLine(Split(s)[i])
  {
    if s != [] {
      SplitIntoLines(Init(s));
    }
  }

  /** ...and loses nothing. */
  lemma {:induction false} SplitJoins(s: seq<Byte>)
    ensures Join(Split(s)) == s
  {
    if s != [] {
      SplitJoins(Init(s));
      var before := Split(Init(s));
      assert s == Join(before) + [Last(s)];
      if Last(s) == NEWLINE {
        assert Init(before + [[]]) == before;
      } else {
        JoinExtended(before, Last(s));
      }
    }
  }

  lemma JoinExtended(lines: seq<seq<Byte>>, c: Byte)
    requires lines != []
    ensures Join(Init(lines) + [Last(lines) + [c]]) == Join(lines) + [c]
  {
    var after := Init(lines) + [Last(lines) + [c]];
    assert Init(after) == Init(lines) && Last(after) == Last(lines) + [c];
  }

  /** What one more byte does to the lines. */
  function Grown(lines: seq<seq<Byte>>, c: Byte): seq<seq<Byte>>
    requires lines != []
  {
    if c == NEWLINE then lines + [[]] else Init(lines) + [Last(lines) + [c]]
  }

  lemma SplitSnoc(s: seq<Byte>, c: Byte)
    ensures Split(s + [c]) == Grown(Split(s), c)
  {
    assert Init(s + [c]) == s;
  }

  lemma GrownAtTheEnd(front: seq<seq<Byte>>, lines: seq<seq<Byte>>, c: Byte)
    requires lines != []
    ensures Grown(front + lines, c) == front + Grown(lines, c)
  {
    assert Init(front + lines) == front + Init(lines) && Last(front + lines) == Last(lines);
  }

  /** A newline is a clean cut: what is before it and what is after it split on
      their own. */
  lemma {:induction false} SplitAtNewline(a: seq<Byte>, b: seq<Byte>)
    ensures Split(a + [NEWLINE] + b) == Split(a) + Split(b)
    decreases |b|
  {
    if b == [] {
      assert a + [NEWLINE] + b == a + [NEWLINE];
      SplitSnoc(a, NEWLINE);
    } else {
      var front, c := Init(b), Last(b);
      SplitAtNewline(a, front);
      assert a + [NEWLINE] + b == (a + [NEWLINE] + front) + [c] && b == front + [c];
      SplitSnoc(a + [NEWLINE] + front, c);
      SplitSnoc(front, c);
      GrownAtTheEnd(Split(a), Split(front), c);
    }
  }

  function Concat(chunks: seq<seq<Byte>>): seq<Byte> {
    if chunks == [] then [] else Concat(Init(chunks)) + Last(chunks)
  }

  lemma {:induction false} ConcatAppend(a: seq<seq<Byte>>, b: seq<seq<Byte>>)
    ensures Concat(a + b) == Concat(a) + Concat(b)
    decreases |b|
  {
    if b == [] {
      assert a + b == a;
    } else {
      assert Init(a + b) == a + Init(b) && Last(a + b) == Last(b);
      ConcatAppend(a, Init(b));
      assert Concat(a) + Concat(Init(b)) + Last(b) == Concat(a) + (Concat(Init(b)) + Last(b));
    }
  }

  predicate Contains(s: seq<Byte>, sub: seq<Byte>) {
    exists i :: 0 <= i <= |s| - |sub| && s[i..][..|sub|] == sub
  }

  function TrimPrefix(s: seq<Byte>, prefix: seq<Byte>): seq<Byte> {
    if prefix <= s then s[|prefix|..] else s
  }
}
