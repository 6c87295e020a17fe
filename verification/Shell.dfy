/** How a POSIX shell cuts a command line into tokens: sections 2.2 (Quoting)
    and 2.3 (Token Recognition) of the Shell Command Language in POSIX.1-2017,
    rule 5 of 2.3 apart: an unquoted or double-quoted `$` or backquote only marks
    its word as not literal, and what stands between `$(`, `${` or backquotes is
    not read as one piece.  No line the model quotes has such a character outside
    single quotes but the `$` of "$HOME".
    A line is bytes, each written as the character with its value. */
module Shell {
  import opened Sequences

  /** `literal` says that no unquoted character of the word asks for an
      expansion, so the word's text is what the command receives. */
  datatype Token = Word(text: string, literal: bool) | Op(text: string)

  datatype Mode = Plain | Single | Double | Escape | DoubleEscape | Comment

  /** Where tokenizing stands: an operator that may still grow, the word being
      collected, the tokens delimited so far, and whether a NUL was met. */
  datatype Lexer = Lexer(
    mode: Mode, op: string, inWord: bool, word: string, literal: bool, tokens: seq<Token>, bad: bool)

  const START := Lexer(Plain, "", false, "", true, [], false)

  const NUL := '\0'

  predicate IsOperator(s: string) {
    s in {"&", "&&", "(", ")", ";", ";;", "\n", "|", "||", "<", ">", ">|", "<<", ">>", "<&", ">&", "<<-", "<>"}
  }

  predicate StartsOperator(c: char) {
    c in {'&', '(', ')', ';', '\n', '|', '<', '>'}
  }

  predicate AsksExpansion(c: char) {
    c in {'$', '`', '*', '?', '[', '~'}
  }

  function EndOp(l: Lexer): Lexer {
    if l.op == "" then l else l.(op := "", tokens := l.tokens + [Op(l.op)])
  }

  function EndWord(l: Lexer): Lexer {
    if l.inWord then l.(inWord := false, word := "", literal := true, tokens := l.tokens + [Word(l.word, l.literal)])
    else l
  }

  function Append(l: Lexer, c: char): Lexer {
    l.(inWord := true, word := l.word + [c])
  }

  /** An unquoted character that does not extend an operator. */
  function FeedPlain(l: Lexer, c: char): Lexer {
    if c == '\\' then l.(mode := Escape)
    else
      var e := EndOp(l);
      if c == '\'' then e.(mode := Single, inWord := true)
      else if c == '"' then e.(mode := Double, inWord := true)
      else if StartsOperator(c) then EndWord(e).(op := [c])
      else if c == ' ' || c == '\t' then EndWord(e)
      else if c == '#' && !e.inWord then e.(mode := Comment)
      else Append(e, c).(literal := e.literal && !AsksExpansion(c))
  }

  function Feed(l: Lexer, c: char): Lexer {
    if c == NUL then l.(bad := true)
    else
      match l.mode
      case Single => if c == '\'' then l.(mode := Plain) else Append(l, c)
      case Double =>
        if c == '"' then l.(mode := Plain)
        else if c == '\\' then l.(mode := DoubleEscape)
        else Append(l, c).(literal := l.literal && c != '$' && c != '`')
      case DoubleEscape =>
        if c == '\n' then l.(mode := Double)
        else if c in {'$', '`', '"', '\\'} then Append(l, c).(mode := Double)
        else Append(Append(l, '\\'), c).(mode := Double)
      case Escape =>
        if c == '\n' then l.(mode := Plain) else Append(EndOp(l), c).(mode := Plain)
      case Comment => if c == '\n' then FeedPlain(l.(mode := Plain), c) else l
      case Plain => if l.op != "" && IsOperator(l.op + [c]) then l.(op := l.op + [c]) else FeedPlain(l, c)
  }

  /** A line fed to any such machine, character by character. */
  function Fold(feed: (Lexer, char) -> Lexer, l: Lexer, s: string): Lexer {
    if s == "" then l else feed(Fold(feed, l, Init(s)), Last(s))
  }

  function Run(l: Lexer, s: string): Lexer {
    Fold(Feed, l, s)
  }

  /** The tokens of a whole line; None when a quote is left open or there is a
      NUL, which no command line can hold. */
  function Tokens(s: string): Option<seq<Token>> {
    var l := Run(START, s);
    if l.bad || l.mode == Single || l.mode == Double || l.mode == Escape || l.mode == DoubleEscape then None
    else Some(EndWord(EndOp(l)).tokens)
  }

  lemma {:induction false} FoldAppend(feed: (Lexer, char) -> Lexer, l: Lexer, s: string, t: string)
    ensures Fold(feed, l, s + t) == Fold(feed, Fold(feed, l, s), t)
    decreases |t|
  {
    if t == "" {
      assert s + t == s;
    } else {
      assert Init(s + t) == s + Init(t);
      FoldAppend(feed, l, s, Init(t));
    }
  }

  lemma RunAppend(l: Lexer, s: string, t: string)
    ensures Run(l, s + t) == Run(Run(l, s), t)
  {
    FoldAppend(Feed, l, s, t);
  }

  lemma {:induction false} NulIsBad(l: Lexer, s: string, i: nat)
    requires i < |s| && s[i] == NUL
    ensures Run(l, s).bad
    decreases |s|
  {
    if i < |s| - 1 {
      NulIsBad(l, Init(s), i);
    }
  }

  /** A character with no meaning to the shell anywhere in a word. */
  predicate Ordinary(c: char) {
    c != NUL && c != '\\' && c != '\'' && c != '"' && !StartsOperator(c) && c != ' ' && c != '\t' && c != '#'
    && !AsksExpansion(c)
  }

  /** A run of ordinary characters extends the word. */
  lemma {:induction false} RunOrdinary(l: Lexer, w: string)
    requires l.mode == Plain && l.op == "" && w != ""
    requires forall i :: 0 <= i < |w| ==> Ordinary(w[i])
    ensures Run(l, w) == l.(inWord := true, word := l.word + w)
    decreases |w|
  {
    if |w| == 1 {
      assert Init(w) == "" && Run(l, "") == l;
      assert l.word + [Last(w)] == l.word + w;
    } else {
      RunOrdinary(l, Init(w));
      assert l.word + Init(w) + [Last(w)] == l.word + w;
    }
  }
}
