/** The printer of hub/internal/remote/remote.go and its inverse: what a shell
    reads back from a line Quote printed is the argument list it was given. */
module Quote {
  import opened Sequences
  import opened Shell

  predicate NulFree(w: string) {
    forall i :: 0 <= i < |w| ==> w[i] != NUL
  }

  predicate AllNulFree(argv: seq<string>) {
    forall i :: 0 <= i < |argv| ==> NulFree(argv[i])
  }

  /** strings.ReplaceAll(w, "'", `'\''`) */
  function Escaped(w: string): string {
    if w == "" then "" else Escaped(Init(w)) + EscapedChar(Last(w))
  }

  function EscapedChar(c: char): string {
    if c == '\'' then "'\\''" else [c]
  }

  function QuoteWord(w: string): string {
    "'" + Escaped(w) + "'"
  }

  /** The quoted words, a space between two. */
  function Joined(parts: seq<string>): string {
    if parts == [] then "" else if |parts| == 1 then parts[0] else Joined(Init(parts)) + " " + Last(parts)
  }

  function QuotedWords(argv: seq<string>): seq<string> {
    seq(|argv|, i requires 0 <= i < |argv| => QuoteWord(argv[i]))
  }

  function Line(argv: seq<string>): string {
    Joined(QuotedWords(argv))
  }

  /** Literal words, one an argument. */
  function Words(argv: seq<string>): seq<Token> {
    seq(|argv|, i requires 0 <= i < |argv| => Word(argv[i], true))
  }

  lemma RunSnoc(l: Lexer, s: string, c: char)
    ensures Run(l, s + [c]) == Feed(Run(l, s), c)
  {
    assert Init(s + [c]) == s;
  }

  lemma RunOne(l: Lexer, c: char)
    ensures Run(l, [c]) == Feed(l, c)
  {
    RunSnoc(l, [], c);
    assert [] + [c] == [c];
  }

  /** Delimits the word in hand. */
  lemma RunSpace(l: Lexer)
    requires l.mode == Plain && l.op == ""
    ensures Run(l, " ") == EndWord(l)
  {
    RunOne(l, ' ');
  }

  lemma RunFour(l: Lexer, a: char, b: char, c: char, d: char)
    ensures Run(l, [a, b, c, d]) == Feed(Feed(Feed(Feed(l, a), b), c), d)
  {
    assert Run(l, [a]) == Feed(l, a) by { RunSnoc(l, [], a); assert [] + [a] == [a]; }
    assert Run(l, [a, b]) == Feed(Run(l, [a]), b) by { RunSnoc(l, [a], b); assert [a] + [b] == [a, b]; }
    assert Run(l, [a, b, c]) == Feed(Run(l, [a, b]), c) by { RunSnoc(l, [a, b], c); assert [a, b] + [c] == [a, b, c]; }
    assert Run(l, [a, b, c, d]) == Feed(Run(l, [a, b, c]), d) by {
      RunSnoc(l, [a, b, c], d);
      assert [a, b, c] + [d] == [a, b, c, d];
    }
  }

  /** A quote closes the quoting, is escaped, and opens it again. */
  lemma RunEscapedChar(l: Lexer, c: char)
    requires l.mode == Single && l.op == "" && l.inWord && c != NUL
    ensures Run(l, EscapedChar(c)) == l.(word := l.word + [c])
  {
    if c == '\'' {
      RunFour(l, '\'', '\\', '\'', '\'');
    } else {
      RunSnoc(l, [], c);
      assert [] + [c] == [c];
    }
  }

  lemma RunThrough(l: Lexer, s: string, m: Lexer, t: string, n: Lexer)
    requires Run(l, s) == m && Run(m, t) == n
    ensures Run(l, s + t) == n
  {
    RunAppend(l, s, t);
  }

  lemma RunOneMore(l: Lexer, w: string, before: string)
    requires l.mode == Single && l.op == "" && l.inWord && w != "" && Last(w) != NUL
    requires Run(l, before) == l.(word := l.word + Init(w))
    ensures Run(l, before + EscapedChar(Last(w))) == l.(word := l.word + w)
  {
    var m := l.(word := l.word + Init(w));
    RunEscapedChar(m, Last(w));
    assert l.word + Init(w) + [Last(w)] == l.word + w;
    RunThrough(l, before, m, EscapedChar(Last(w)), l.(word := l.word + w));
  }

  /** Inside single quotes an escaped word reads as the word. */
  lemma {:induction false} RunEscaped(l: Lexer, w: string)
    requires l.mode == Single && l.op == "" && l.inWord && NulFree(w)
    ensures Run(l, Escaped(w)) == l.(word := l.word + w)
    decreases |w|
  {
    if w == "" {
      assert l.word + w == l.word;
    } else {
      RunEscaped(l, Init(w));
      RunOneMore(l, w, Escaped(Init(w)));
    }
  }

  predicate BetweenWords(l: Lexer) {
    l.mode == Plain && l.op == "" && !l.inWord && l.word == "" && l.literal && !l.bad
  }

  lemma RunQuoted(l: Lexer, w: string)
    requires BetweenWords(l) && NulFree(w)
    ensures Run(l, QuoteWord(w)) == l.(inWord := true, word := w)
  {
    var inside := l.(mode := Single, inWord := true);
    RunOne(l, '\'');
    assert Run(l, "'") == inside;
    RunAppend(l, "'", Escaped(w));
    RunEscaped(inside, w);
    assert "" + w == w;
    RunAppend(l, "'" + Escaped(w), "'");
  }

  /** One more word: a space delimits the word in hand, and the next is collected. */
  lemma RunNextWord(l: Lexer, m: Lexer, w: string)
    requires l.mode == Plain && l.op == "" && l.inWord && !l.bad && NulFree(w)
    requires m == l.(inWord := true, word := w, literal := true, tokens := l.tokens + [Word(l.word, l.literal)])
    ensures Run(l, " " + QuoteWord(w)) == m
  {
    var e := EndWord(l);
    RunSpace(l);
    RunQuoted(e, w);
    RunThrough(l, " ", e, QuoteWord(w), m);
  }

  lemma WordsSnoc(argv: seq<string>)
    requires argv != []
    ensures Words(argv) == Words(Init(argv)) + [Word(Last(argv), true)]
  {
  }

  /** Where the shell stands after a line: all words but the last are delimited
      and the last is being collected. */
  function AfterLine(l: Lexer, argv: seq<string>): Lexer
    requires argv != []
  {
    l.(inWord := true, word := Last(argv), tokens := l.tokens + Words(Init(argv)))
  }

  lemma AfterNextWord(l: Lexer, argv: seq<string>)
    requires BetweenWords(l) && |argv| > 1
    ensures var m := AfterLine(l, Init(argv));
            AfterLine(l, argv) == m.(word := Last(argv), literal := true, tokens := m.tokens + [Word(m.word, m.literal)])
  {
    WordsSnoc(Init(argv));
    assert l.tokens + Words(Init(Init(argv))) + [Word(Last(Init(argv)), true)] == l.tokens + Words(Init(argv));
  }

  lemma LineSnoc(argv: seq<string>)
    requires |argv| > 1
    ensures Line(argv) == Line(Init(argv)) + (" " + QuoteWord(Last(argv)))
  {
    assert Init(QuotedWords(argv)) == QuotedWords(Init(argv));
  }

  lemma {:induction false} RunLine(l: Lexer, argv: seq<string>)
    requires BetweenWords(l) && argv != [] && AllNulFree(argv)
    ensures Run(l, Line(argv)) == AfterLine(l, argv)
    decreases |argv|
  {
    if |argv| == 1 {
      RunQuoted(l, argv[0]);
      assert l.tokens + Words(Init(argv)) == l.tokens;
    } else {
      var m := AfterLine(l, Init(argv));
      RunLine(l, Init(argv));
      AfterNextWord(l, argv);
      RunNextWord(m, AfterLine(l, argv), Last(argv));
      LineSnoc(argv);
      RunThrough(l, Line(Init(argv)), m, " " + QuoteWord(Last(argv)), AfterLine(l, argv));
    }
  }

  /** Running a quoted line from between two words adds its words. */
  lemma FinishLine(l: Lexer, argv: seq<string>)
    requires BetweenWords(l) && AllNulFree(argv)
    ensures var m := Run(l, Line(argv)); !m.bad && m.mode == Plain && EndWord(EndOp(m)).tokens == l.tokens + Words(argv)
  {
    if argv == [] {
      assert l.tokens + Words(argv) == l.tokens;
    } else {
      RunLine(l, argv);
      WordsSnoc(argv);
      assert l.tokens + Words(Init(argv)) + [Word(Last(argv), true)] == l.tokens + Words(argv);
    }
  }

  /** The round trip: for every list of NUL-free words, with quotes, newlines,
      operators, or nothing in them, the shell reads back exactly the list, each
      word literal. */
  lemma QuoteRoundTrip(argv: seq<string>)
    requires AllNulFree(argv)
    ensures Tokens(Line(argv)) == Some(Words(argv))
  {
    FinishLine(START, argv);
    assert START.tokens + Words(argv) == Words(argv);
  }

  lemma {:induction false} EscapedKeepsNul(w: string, i: nat) returns (j: nat)
    requires i < |w| && w[i] == NUL
    ensures j < |Escaped(w)| && Escaped(w)[j] == NUL
    decreases |w|
  {
    if i == |w| - 1 {
      j := |Escaped(Init(w))|;
    } else {
      j := EscapedKeepsNul(Init(w), i);
    }
  }

  lemma {:induction false} LineKeepsNul(argv: seq<string>, k: nat) returns (j: nat)
    requires k < |argv| && !NulFree(argv[k])
    ensures j < |Line(argv)| && Line(argv)[j] == NUL
    decreases |argv|
  {
    var parts := QuotedWords(argv);
    assert Init(parts) == QuotedWords(Init(argv));
    if k == |argv| - 1 {
      var i :| 0 <= i < |argv[k]| && argv[k][i] == NUL;
      j := EscapedKeepsNul(argv[k], i);
      assert QuoteWord(argv[k])[j + 1] == NUL;
      j := |Line(argv)| - |QuoteWord(argv[k])| + j + 1;
    } else {
      j := LineKeepsNul(Init(argv), k);
    }
  }

  /** Exactly the NUL-free lists survive: a word with a NUL in it cannot. */
  lemma RoundTripsExactly(argv: seq<string>)
    ensures Tokens(Line(argv)) == Some(Words(argv)) <==> AllNulFree(argv)
  {
    if AllNulFree(argv) {
      QuoteRoundTrip(argv);
    } else {
      var k :| 0 <= k < |argv| && !NulFree(argv[k]);
      var j := LineKeepsNul(argv, k);
      NulIsBad(START, Line(argv), j);
    }
  }

  method Quote(argv: seq<string>) returns (line: string)
    ensures line == Line(argv)
    ensures AllNulFree(argv) ==> Tokens(line) == Some(Words(argv))
  {
    var parts: seq<string> := [];
    var i := 0;
    while i < |argv|
      invariant 0 <= i <= |argv|
      invariant parts == QuotedWords(argv[..i])
    {
      parts := parts + [QuoteWord(argv[i])];
      i := i + 1;
    }
    assert argv[..i] == argv;
    RoundTripsExactly(argv);
    return Joined(parts);
  }

  // ---------------------------------------------------------------- the job's two levels

  /** The words of the last command of a `;` list. */
  function LastCommand(tokens: seq<Token>): seq<Token> {
    if tokens == [] || Last(tokens) == Op(";") then [] else LastCommand(Init(tokens)) + [Last(tokens)]
  }

  const HOME := "\"$HOME\""
  const MODELS := "/.omp/agent/models.db"
  /** The text of the word HOME + MODELS reads as. */
  const DB := "$HOME" + MODELS

  /** What a job's shell does before it runs omp, up to the quoted command:
      hub/internal/agent/jobs.go, `round`. */
  const PRIME: string :=
    "rm" + " " + ("-f" + " ") + (HOME + MODELS + " ") + (HOME + MODELS + "-*" + "; ")
    + ("omp" + " ") + ("models" + " ") + (">" + NULL_DEVICE + " ") + ("2" + ">&" + "1" + "; ")
    + ("exec" + " ")

  /** What the shell makes of PRIME. */
  const PRIME_TOKENS: seq<Token> :=
    [Word("rm", true)] + [Word("-f", true)] + [Word(DB, false)] + [Word(DB + "-*", false), Op(";")]
    + [Word("omp", true)] + [Word("models", true)] + [Op(">"), Word(NULL_DEVICE, true)]
    + [Word("2", true), Op(">&"), Word("1", true), Op(";")]
    + [Word("exec", true)]

  /** The script handed to `sh -c`. */
  function Inner(omp: seq<string>): string {
    PRIME + Line(omp)
  }

  lemma Regroup(x: string, o: string, m: string, n: string, d: string, e: string)
    ensures x + o + m + n + d + e == x + (o + m + n + d) + e
  {
  }

  lemma RemoveParts()
    ensures "rm" + " " + ("-f" + " ") == "rm -f "
    ensures HOME + MODELS + " " == "\"$HOME\"/.omp/agent/models.db "
    ensures HOME + MODELS + "-*" + "; " == "\"$HOME\"/.omp/agent/models.db-*; "
  {
  }

  lemma ListParts()
    ensures ("omp" + " ") + ("models" + " ") + (">" + NULL_DEVICE + " ") + ("2" + ">&" + "1" + "; ")
         == "omp models >/dev/null 2>&1; "
  {
  }

  lemma PrimeParts()
    ensures PRIME == "rm -f " + "\"$HOME\"/.omp/agent/models.db " + "\"$HOME\"/.omp/agent/models.db-*; "
                     + "omp models >/dev/null 2>&1; " + "exec "
  {
    RemoveParts();
    ListParts();
    Regroup("rm" + " " + ("-f" + " ") + (HOME + MODELS + " ") + (HOME + MODELS + "-*" + "; "),
            "omp" + " ", "models" + " ", ">" + NULL_DEVICE + " ", "2" + ">&" + "1" + "; ", "exec" + " ");
    assert "exec" + " " == "exec ";
  }

  /** The script, part by part. */
  lemma InnerIs(omp: seq<string>)
    ensures Inner(omp)
         == "rm -f " + "\"$HOME\"/.omp/agent/models.db " + "\"$HOME\"/.omp/agent/models.db-*; "
            + "omp models >/dev/null 2>&1; " + "exec " + Line(omp)
  {
    PrimeParts();
  }

  /** A piece that starts and ends between words, and the tokens it adds. */
  ghost predicate IsUnit(feed: (Lexer, char) -> Lexer, piece: string, tokens: seq<Token>) {
    forall l :: BetweenWords(l) ==> Fold(feed, l, piece) == Add(l, tokens)
  }

  function Add(l: Lexer, tokens: seq<Token>): Lexer {
    l.(tokens := l.tokens + tokens)
  }

  lemma AddTwice(l: Lexer, ta: seq<Token>, tb: seq<Token>)
    ensures Add(Add(l, ta), tb) == Add(l, ta + tb)
  {
    assert l.tokens + ta + tb == l.tokens + (ta + tb);
  }

  lemma UnitThen(feed: (Lexer, char) -> Lexer, a: string, ta: seq<Token>, b: string, tb: seq<Token>)
    requires IsUnit(feed, a, ta) && IsUnit(feed, b, tb)
    ensures IsUnit(feed, a + b, ta + tb)
  {
    forall l | BetweenWords(l)
      ensures Fold(feed, l, a + b) == Add(l, ta + tb)
    {
      FoldAppend(feed, l, a, b);
      AddTwice(l, ta, tb);
    }
  }

  predicate AllOrdinary(w: string) {
    w != "" && forall i :: 0 <= i < |w| ==> Ordinary(w[i])
  }

  /** `; ` delimits the word in hand and is an operator of its own. */
  lemma RunSemicolon(l: Lexer)
    requires l.mode == Plain && l.op == ""
    ensures Run(l, "; ") == EndWord(l).(tokens := EndWord(l).tokens + [Op(";")])
  {
    RunOne(l, ';');
    RunSnoc(l, ";", ' ');
    assert ";" + [' '] == "; ";
  }

  lemma WordUnit(w: string)
    requires AllOrdinary(w)
    ensures IsUnit(Feed, w + " ", [Word(w, true)])
  {
    forall l | BetweenWords(l)
      ensures Run(l, w + " ") == l.(tokens := l.tokens + [Word(w, true)])
    {
      RunOrdinary(l, w);
      assert "" + w == w;
      var m := l.(inWord := true, word := w);
      RunSpace(m);
      RunThrough(l, w, m, " ", EndWord(m));
    }
  }

  lemma RunHome(l: Lexer)
    requires BetweenWords(l)
    ensures Run(l, "\"$HOME\"") == l.(inWord := true, word := "$HOME", literal := false)
  {
    RunFour(l, '"', '$', 'H', 'O');
    var m := l.(mode := Double, inWord := true, word := "$HO", literal := false);
    assert Feed(Feed(Feed(Feed(l, '"'), '$'), 'H'), 'O') == m by {
      assert "" + ['$'] + ['H'] + ['O'] == "$HO";
    }
    RunThree(m, 'M', 'E', '"');
    assert "$HO" + ['M'] + ['E'] == "$HOME";
    RunThrough(l, "\"$HO", m, "ME\"", l.(inWord := true, word := "$HOME", literal := false));
    assert "\"$HO" + "ME\"" == "\"$HOME\"";
  }

  lemma RunThree(l: Lexer, a: char, b: char, c: char)
    ensures Run(l, [a, b, c]) == Feed(Feed(Feed(l, a), b), c)
  {
    RunOne(l, a);
    RunSnoc(l, [a], b);
    assert [a] + [b] == [a, b];
    RunSnoc(l, [a, b], c);
    assert [a, b] + [c] == [a, b, c];
  }

  lemma RunDb(l: Lexer)
    requires BetweenWords(l)
    ensures Run(l, HOME + MODELS) == l.(inWord := true, word := DB, literal := false)
  {
    RunHome(l);
    var m := l.(inWord := true, word := "$HOME", literal := false);
    RunOrdinary(m, MODELS);
    RunThrough(l, HOME, m, MODELS, m.(word := DB));
  }

  lemma DbUnit()
    ensures IsUnit(Feed, HOME + MODELS + " ", [Word(DB, false)])
  {
    forall l | BetweenWords(l)
      ensures Run(l, HOME + MODELS + " ") == l.(tokens := l.tokens + [Word(DB, false)])
    {
      RunDb(l);
      var m := l.(inWord := true, word := DB, literal := false);
      RunSpace(m);
      RunThrough(l, HOME + MODELS, m, " ", EndWord(m));
    }
  }

  lemma DbGlobUnit()
    ensures IsUnit(Feed, HOME + MODELS + "-*" + "; ", [Word(DB + "-*", false), Op(";")])
  {
    forall l | BetweenWords(l)
      ensures Run(l, HOME + MODELS + "-*" + "; ") == l.(tokens := l.tokens + [Word(DB + "-*", false), Op(";")])
    {
      RunDb(l);
      var m := l.(inWord := true, word := DB, literal := false);
      var n := m.(word := DB + "-*");
      RunOne(m, '-');
      RunSnoc(m, "-", '*');
      assert "-" + ['*'] == "-*" && DB + ['-'] + ['*'] == DB + "-*";
      RunThrough(l, HOME + MODELS, m, "-*", n);
      RunSemicolon(n);
      RunThrough(l, HOME + MODELS + "-*", n, "; ", EndWord(n).(tokens := EndWord(n).tokens + [Op(";")]));
      assert l.tokens + [Word(DB + "-*", false)] + [Op(";")] == l.tokens + [Word(DB + "-*", false), Op(";")];
    }
  }

  /** An ordinary character ends an operator and starts a word. */
  lemma {:induction false} RunAfterOp(l: Lexer, w: string)
    requires l.mode == Plain && l.op != "" && AllOrdinary(w) && !IsOperator(l.op + [w[0]])
    ensures Run(l, w) == Run(EndOp(l), w)
    decreases |w|
  {
    if |w| == 1 {
      assert w == [w[0]];
      RunOne(l, w[0]);
      RunOne(EndOp(l), w[0]);
    } else {
      RunAfterOp(l, Init(w));
    }
  }

  const NULL_DEVICE := "/dev/null"

  lemma RunNullDevice(l: Lexer)
    requires l.mode == Plain && l.op == ">" && !l.inWord && l.word == "" && l.literal && !l.bad
    ensures Run(l, NULL_DEVICE) == EndOp(l).(inWord := true, word := NULL_DEVICE)
  {
    assert ">" + [NULL_DEVICE[0]] == ">/";
    RunAfterOp(l, NULL_DEVICE);
    RunOrdinary(EndOp(l), NULL_DEVICE);
    assert "" + NULL_DEVICE == NULL_DEVICE;
  }

  lemma RunRedirect(l: Lexer)
    requires BetweenWords(l)
    ensures Run(l, ">" + NULL_DEVICE) == l.(inWord := true, word := NULL_DEVICE, tokens := l.tokens + [Op(">")])
  {
    var m := l.(op := ">");
    RunOne(l, '>');
    RunNullDevice(m);
    RunThrough(l, ">", m, NULL_DEVICE, l.(inWord := true, word := NULL_DEVICE, tokens := l.tokens + [Op(">")]));
  }

  lemma RedirectUnit()
    ensures IsUnit(Feed, ">" + NULL_DEVICE + " ", [Op(">"), Word(NULL_DEVICE, true)])
  {
    forall l | BetweenWords(l)
      ensures Run(l, ">" + NULL_DEVICE + " ") == Add(l, [Op(">"), Word(NULL_DEVICE, true)])
    {
      var n := l.(inWord := true, word := NULL_DEVICE, tokens := l.tokens + [Op(">")]);
      RunRedirect(l);
      RunSpace(n);
      RunThrough(l, ">" + NULL_DEVICE, n, " ", EndWord(n));
      assert l.tokens + [Op(">")] + [Word(NULL_DEVICE, true)] == l.tokens + [Op(">"), Word(NULL_DEVICE, true)];
    }
  }

  /** `2>&1`: a word, an operator that grows by a character, a word. */
  lemma RunDuplicate(l: Lexer)
    requires BetweenWords(l)
    ensures Run(l, "2" + ">&") == l.(op := ">&", tokens := l.tokens + [Word("2", true)])
  {
    RunOrdinary(l, "2");
    assert "" + "2" == "2";
    var m := l.(inWord := true, word := "2");
    RunOne(m, '>');
    RunSnoc(m, ">", '&');
    assert ">" + ['&'] == ">&";
    RunThrough(l, "2", m, ">&", EndWord(m).(op := ">&"));
  }

  lemma DuplicateUnit()
    ensures IsUnit(Feed, "2" + ">&" + "1" + "; ", [Word("2", true), Op(">&"), Word("1", true), Op(";")])
  {
    forall l | BetweenWords(l)
      ensures Run(l, "2" + ">&" + "1" + "; ") == Add(l, [Word("2", true), Op(">&"), Word("1", true), Op(";")])
    {
      RunDuplicate(l);
      var n := l.(op := ">&", tokens := l.tokens + [Word("2", true)]);
      assert ">&" + ['1'] == ">&1";
      RunAfterOp(n, "1");
      RunOrdinary(EndOp(n), "1");
      assert "" + "1" == "1";
      var o := EndOp(n).(inWord := true, word := "1");
      RunThrough(l, "2" + ">&", n, "1", o);
      RunSemicolon(o);
      var e := EndWord(o).(tokens := EndWord(o).tokens + [Op(";")]);
      RunThrough(l, "2" + ">&" + "1", o, "; ", e);
      assert e.tokens == l.tokens + [Word("2", true), Op(">&"), Word("1", true), Op(";")];
    }
  }

  lemma PrimeIsUnits()
    ensures IsUnit(Feed, PRIME, PRIME_TOKENS)
  {
    var p, t := "rm" + " ", [Word("rm", true)];
    WordUnit("rm");
    WordUnit("-f");
    UnitThen(Feed, p, t, "-f" + " ", [Word("-f", true)]);
    p, t := p + ("-f" + " "), t + [Word("-f", true)];
    DbUnit();
    UnitThen(Feed, p, t, HOME + MODELS + " ", [Word(DB, false)]);
    p, t := p + (HOME + MODELS + " "), t + [Word(DB, false)];
    DbGlobUnit();
    UnitThen(Feed, p, t, HOME + MODELS + "-*" + "; ", [Word(DB + "-*", false), Op(";")]);
    p, t := p + (HOME + MODELS + "-*" + "; "), t + [Word(DB + "-*", false), Op(";")];
    WordUnit("omp");
    UnitThen(Feed, p, t, "omp" + " ", [Word("omp", true)]);
    p, t := p + ("omp" + " "), t + [Word("omp", true)];
    WordUnit("models");
    UnitThen(Feed, p, t, "models" + " ", [Word("models", true)]);
    p, t := p + ("models" + " "), t + [Word("models", true)];
    RedirectUnit();
    UnitThen(Feed, p, t, ">" + NULL_DEVICE + " ", [Op(">"), Word(NULL_DEVICE, true)]);
    p, t := p + (">" + NULL_DEVICE + " "), t + [Op(">"), Word(NULL_DEVICE, true)];
    DuplicateUnit();
    UnitThen(Feed, p, t, "2" + ">&" + "1" + "; ", [Word("2", true), Op(">&"), Word("1", true), Op(";")]);
    p, t := p + ("2" + ">&" + "1" + "; "), t + [Word("2", true), Op(">&"), Word("1", true), Op(";")];
    WordUnit("exec");
    UnitThen(Feed, p, t, "exec" + " ", [Word("exec", true)]);
  }

  lemma {:induction false} LastCommandGrows(tokens: seq<Token>, argv: seq<string>)
    ensures LastCommand(tokens + Words(argv)) == LastCommand(tokens) + Words(argv)
    decreases |argv|
  {
    var all := tokens + Words(argv);
    if argv == [] {
      assert all == tokens;
    } else {
      assert Init(all) == tokens + Words(Init(argv)) && Last(all) == Word(Last(argv), true);
      LastCommandGrows(tokens, Init(argv));
      assert Words(argv) == Words(Init(argv)) + [Word(Last(argv), true)];
    }
  }

  lemma PrimeEndsInExec()
    ensures LastCommand(PRIME_TOKENS) == [Word("exec", true)]
  {
    var before := PRIME_TOKENS[..|PRIME_TOKENS| - 1];
    assert Last(before) == Op(";") && Last(PRIME_TOKENS) == Word("exec", true);
    assert LastCommand(before) == [];
  }

  lemma InnerTokens(omp: seq<string>)
    requires AllNulFree(omp)
    ensures Tokens(Inner(omp)) == Some(PRIME_TOKENS + Words(omp))
  {
    PrimeIsUnits();
    var prefix := PRIME_TOKENS;
    var l := START.(tokens := prefix);
    assert START.tokens + prefix == prefix;
    assert Run(START, PRIME) == l;
    RunAppend(START, PRIME, Line(omp));
    FinishLine(l, omp);
  }

  /** The inner split: the last command of the script is `exec` and omp's argv. */
  lemma InnerRoundTrip(omp: seq<string>)
    requires AllNulFree(omp)
    ensures Tokens(Inner(omp)).Some?
    ensures LastCommand(Tokens(Inner(omp)).value) == [Word("exec", true)] + Words(omp)
  {
    InnerTokens(omp);
    PrimeEndsInExec();
    LastCommandGrows(PRIME_TOKENS, omp);
  }

  lemma PrimeIsNulFree(omp: seq<string>)
    requires AllNulFree(omp)
    ensures NulFree(Inner(omp))
  {
    InnerRoundTrip(omp);
    if i :| 0 <= i < |Inner(omp)| && Inner(omp)[i] == NUL {
      NulIsBad(START, Inner(omp), i);
      assert false;
    }
  }

  /** Both levels: the remote shell reads the job's argument list back, the last
      of its words is the inner script, and the inner shell ends by running
      `exec` with omp's own arguments. */
  lemma NestedRoundTrip(argv: seq<string>, omp: seq<string>)
    requires AllNulFree(argv) && AllNulFree(omp)
    ensures var sent := argv + ["--", "sh", "-c", Inner(omp)];
            && Tokens(Line(sent)) == Some(Words(sent))
            && Last(Words(sent)) == Word(Inner(omp), true)
            && Tokens(Last(Words(sent)).text).Some?
            && LastCommand(Tokens(Last(Words(sent)).text).value) == [Word("exec", true)] + Words(omp)
  {
    PrimeIsNulFree(omp);
    InnerRoundTrip(omp);
    QuoteRoundTrip(argv + ["--", "sh", "-c", Inner(omp)]);
  }
}
