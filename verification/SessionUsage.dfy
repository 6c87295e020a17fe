/** The session-file usage scanner: hub/internal/agent/usage.go over the offsets
    and rows of hub/internal/store/usage.go.

    A session file grows, or is written from scratch; each scan reads what is past
    the stored offset, complete lines only, and commits the rows it found with
    the new offset. */
module SessionUsage {
  import opened Lines
  import opened Sequences

  datatype Path = Path(text: string)

  datatype Tokens = Tokens(input: int, output: int, cacheRead: int, cacheWrite: int, cost: real)
  datatype Message = Message(role: string, provider: string, model: string, usage: Option<Tokens>)
  /** One decoded line; `stamped` says whether the timestamp parses. */
  datatype Event = Event(kind: string, timestamp: string, stamped: bool, message: Option<Message>)

  /** AtScan stands for the clock's text when the line has no usable timestamp. */
  datatype Stamp = FromFile(text: string) | AtScan
  datatype Row = Row(at: Stamp, model: string, tokens: Tokens)

  /** json.Unmarshal on one line, uninterpreted. */
  type Json = seq<Byte> -> Option<Event>

  const USAGE := "\"usage\""

  /** The reply a line reports, if it is an assistant's with usage. */
  function Reply(json: Json, line: seq<Byte>): Option<Row> {
    if !Contains(line, USAGE) then None
    else
      var ev := json(line);
      if ev.None? || ev.value.kind != "message" || ev.value.message.None?
         || ev.value.message.value.role != "assistant" || ev.value.message.value.usage.None?
      then None
      else
        var m := ev.value.message.value;
        Some(Row(
          if ev.value.stamped then FromFile(ev.value.timestamp) else AtScan,
          if m.provider != "" then m.provider + "/" + m.model else m.model,
          m.usage.value))
  }

  /** What the scanner makes of one line.  The theorems hold for any reader;
      the program's is LineReader. */
  type Reader = seq<Byte> -> Option<Row>

  function LineReader(json: Json): Reader {
    line => Reply(json, line)
  }

  /** The batch form: the replies of these lines, in order. */
  function Replies(reader: Reader, lines: seq<seq<Byte>>): seq<Row> {
    if lines == [] then []
    else Replies(reader, Init(lines)) + match reader(Last(lines)) case Some(row) => [row] case None => []
  }

  lemma {:induction false} RepliesAppend(reader: Reader, a: seq<seq<Byte>>, b: seq<seq<Byte>>)
    ensures Replies(reader, a + b) == Replies(reader, a) + Replies(reader, b)
    decreases |b|
  {
    if b == [] {
      assert a + b == a;
    } else {
      assert Init(a + b) == a + Init(b) && Last(a + b) == Last(b);
      RepliesAppend(reader, a, Init(b));
    }
  }

  method ParseSessionUsage(reader: Reader, b: seq<Byte>) returns (out: seq<Row>)
    ensures out == Replies(reader, Split(b))
  {
    var lines := Split(b);
    out := [];
    var i := 0;
    while i < |lines|
      invariant 0 <= i <= |lines|
      invariant out == Replies(reader, lines[..i])
    {
      var line := lines[i];
      assert Init(lines[..i + 1]) == lines[..i] && Last(lines[..i + 1]) == line;
      var row := reader(line);
      if row.Some? {
        out := out + [row.value];
      }
      i := i + 1;
    }
    assert lines[..i] == lines;
  }

  /** The last newline of b, or -1. */
  function LastNewline(b: seq<Byte>): (end: int)
    ensures -1 <= end < |b|
    ensures end >= 0 ==> b[end] == NEWLINE
  {
    if b == [] then -1
    else if Last(b) == NEWLINE then |b| - 1
    else LastNewline(Init(b))
  }

  lemma {:induction false} NoneAfterLast(b: seq<Byte>)
    ensures OneLine(b[LastNewline(b) + 1..])
  {
    if b != [] && Last(b) != NEWLINE {
      NoneAfterLast(Init(b));
      var end := LastNewline(b);
      assert b[end + 1..] == Init(b)[end + 1..] + [Last(b)];
    }
  }

  /** The two tables: every row with the file it came from, and how far into
      each file has been counted. */
  datatype Tables = Tables(rows: seq<(Path, Row)>, pos: map<Path, nat>)

  function Offset(t: Tables, path: Path): nat {
    if path in t.pos then t.pos[path] else 0
  }

  function Tagged(path: Path, rows: seq<Row>): seq<(Path, Row)> {
    seq(|rows|, i requires 0 <= i < |rows| => (path, rows[i]))
  }

  /** Rows and offset in one commit. */
  function Recorded(t: Tables, path: Path, offset: nat, us: seq<Row>): Tables {
    Tables(t.rows + Tagged(path, us), t.pos[path := offset])
  }

  function From(content: seq<Byte>, off: nat): seq<Byte> {
    if off <= |content| then content[off..] else []
  }

  /** What one scan commits, given the size Stat reported and the bytes read. */
  function Scanned(reader: Reader, t: Tables, path: Path, size: nat, content: seq<Byte>): Tables {
    var off := if size < Offset(t, path) then 0 else Offset(t, path);
    if size == off then t else Counted(reader, t, path, off, From(content, off))
  }

  function Counted(reader: Reader, t: Tables, path: Path, off: nat, b: seq<Byte>): Tables {
    var end := LastNewline(b);
    if end < 0 then t else Recorded(t, path, off + end + 1, Replies(reader, Split(b[..end])))
  }

  class Store {
    var rows: seq<(Path, Row)>
    var pos: map<Path, nat>

    function Contents(): Tables
      reads this
    {
      Tables(rows, pos)
    }

    constructor ()
      ensures Contents() == Tables([], map[])
    {
      rows, pos := [], map[];
    }

    method HubUsageOffset(path: Path) returns (off: nat)
      ensures off == Offset(Contents(), path)
    {
      if path !in pos {
        return 0;
      }
      return pos[path];
    }

    method RecordHubUsage(path: Path, offset: nat, us: seq<Row>)
      modifies this
      ensures Contents() == Recorded(old(Contents()), path, offset, us)
    {
      var i := 0;
      while i < |us|
        invariant 0 <= i <= |us|
        invariant rows == old(rows) + Tagged(path, us[..i]) && pos == old(pos)
      {
        rows := rows + [(path, us[i])];
        assert Tagged(path, us[..i + 1]) == Tagged(path, us[..i]) + [(path, us[i])];
        i := i + 1;
      }
      assert us[..i] == us;
      pos := pos[path := offset];
    }

    method ScanSession(reader: Reader, path: Path, size: nat, content: seq<Byte>)
      modifies this
      ensures Contents() == Scanned(reader, old(Contents()), path, size, content)
    {
      var off := HubUsageOffset(path);
      if size < off {
        off := 0;
      }
      if size == off {
        return;
      }
      CountLines(reader, path, off, From(content, off));
    }

    method CountLines(reader: Reader, path: Path, off: nat, b: seq<Byte>)
      modifies this
      ensures Contents() == Counted(reader, old(Contents()), path, off, b)
    {
      var end := LastNewline(b);
      if end < 0 {
        return;
      }
      var us := ParseSessionUsage(reader, b[..end]);
      RecordHubUsage(path, off + end + 1, us);
    }
  }

  // ---------------------------------------------------------------- every interleaving

  /** For the specification: the rows of a file recorded before it was last
      counted from the top, and the files whose contents are no longer those the
      offset was set for. */
  datatype World = World(files: map<Path, seq<Byte>>, tables: Tables, kept: map<Path, seq<Row>>, stale: set<Path>)

  const STARTED := World(map[], Tables([], map[]), map[], {})

  function File(w: World, path: Path): seq<Byte> {
    if path in w.files then w.files[path] else []
  }

  function Kept(w: World, path: Path): seq<Row> {
    if path in w.kept then w.kept[path] else []
  }

  /** omp appends to a file, or writes it from scratch; a scan reads it, having
      seen some earlier size; a scan fails or the hub dies before the commit. */
  datatype Step =
    | Append(path: Path, bytes: seq<Byte>)
    | Rewrite(path: Path, content: seq<Byte>)
    | Scan(path: Path, size: nat)
    | Crash

  /** A file that only grew since its offset was stored is at least that long. */
  predicate Enabled(w: World, step: Step) {
    step.Scan? ==> && step.size <= |File(w, step.path)|
                   && (step.path !in w.stale ==> Offset(w.tables, step.path) <= step.size)
  }

  /** The scan starts over from the top, and finds a complete line there.  With
      none it commits nothing, and the old offset stays. */
  predicate StartsOver(w: World, path: Path, size: nat) {
    0 < size < Offset(w.tables, path) && LastNewline(File(w, path)) >= 0
  }

  function Next(reader: Reader, w: World, step: Step): World {
    match step
    case Append(path, bytes) => w.(files := w.files[path := File(w, path) + bytes])
    case Rewrite(path, content) =>
      w.(files := w.files[path := content], stale := if Offset(w.tables, path) > 0 then w.stale + {path} else w.stale)
    case Scan(path, size) =>
      var t := Scanned(reader, w.tables, path, size, File(w, path));
      if StartsOver(w, path, size) then
        World(w.files, t, w.kept[path := RowsOf(w.tables.rows, path)], w.stale - {path})
      else w.(tables := t)
    case Crash => w
  }

  ghost predicate StepsTo(reader: Reader, w: World, step: Step, w': World) {
    Enabled(w, step) && w' == Next(reader, w, step)
  }

  ghost predicate IsRun(reader: Reader, states: seq<World>, steps: seq<Step>) {
    && |states| == |steps| + 1 && states[0] == STARTED
    && forall i :: 0 <= i < |steps| ==> StepsTo(reader, states[i], steps[i], states[i + 1])
  }

  /** Every scan of a rewritten file finds it shorter than the stored offset,
      which is how the program tells. */
  predicate Notices(w: World, step: Step) {
    step.Scan? && step.path in w.stale ==> step.size < Offset(w.tables, step.path)
  }

  ghost predicate RewritesAreNoticed(states: seq<World>, steps: seq<Step>) {
    |states| == |steps| + 1 && forall i :: 0 <= i < |steps| ==> Notices(states[i], steps[i])
  }

  /** The rows that came from one file, in the order they were recorded. */
  function RowsOf(rows: seq<(Path, Row)>, path: Path): seq<Row> {
    if rows == [] then []
    else RowsOf(Init(rows), path) + if Last(rows).0 == path then [Last(rows).1] else []
  }

  lemma {:induction false} RowsOfTagged(rows: seq<(Path, Row)>, path: Path, us: seq<Row>, of: Path)
    ensures RowsOf(rows + Tagged(path, us), of) == RowsOf(rows, of) + if of == path then us else []
    decreases |us|
  {
    var all := rows + Tagged(path, us);
    if us == [] {
      assert all == rows;
    } else {
      assert Init(all) == rows + Tagged(path, Init(us)) && Last(all) == (path, Last(us));
      RowsOfTagged(rows, path, Init(us), of);
    }
  }

  /** The offset sits at the start or just after a newline, and what has been
      recorded from the file, past the rows kept from before, is what one pass
      over that stretch would find. */
  ghost predicate Exact(reader: Reader, kept: seq<Row>, file: seq<Byte>, off: nat, us: seq<Row>) {
    && off <= |file|
    && (off == 0 || file[off - 1] == NEWLINE)
    && us == kept + Replies(reader, Init(Split(file[..off])))
  }

  /** What the tables have of one file. */
  ghost predicate ExactFor(reader: Reader, kept: seq<Row>, t: Tables, path: Path, file: seq<Byte>) {
    Exact(reader, kept, file, Offset(t, path), RowsOf(t.rows, path))
  }

  ghost predicate CountedOnce(reader: Reader, w: World, path: Path) {
    && (path !in w.stale ==> ExactFor(reader, Kept(w, path), w.tables, path, File(w, path)))
    && (Offset(w.tables, path) == 0 ==> path !in w.stale && RowsOf(w.tables.rows, path) == Kept(w, path))
  }

  lemma NothingCounted(reader: Reader)
    ensures Replies(reader, Init(Split([]))) == []
  {
  }

  lemma AppendKeeps(reader: Reader, w: World, step: Step, path: Path)
    requires step.Append? && CountedOnce(reader, w, path)
    ensures CountedOnce(reader, Next(reader, w, step), path)
  {
    var off := Offset(w.tables, path);
    if path !in w.stale {
      assert File(Next(reader, w, step), path)[..off] == File(w, path)[..off];
    }
  }

  lemma RewriteKeeps(reader: Reader, w: World, step: Step, path: Path)
    requires step.Rewrite? && CountedOnce(reader, w, path)
    ensures CountedOnce(reader, Next(reader, w, step), path)
  {
    if step.path == path && Offset(w.tables, path) == 0 {
      NothingCounted(reader);
      assert File(w, path)[..0] == [] && step.content[..0] == [];
    }
  }

  /** Two stretches that each end in a newline are one stretch. */
  lemma StretchesJoin(reader: Reader, a: seq<Byte>, b: seq<Byte>)
    requires a == [] || Last(a) == NEWLINE
    ensures Replies(reader, Init(Split(a + b + [NEWLINE])))
         == Replies(reader, Init(Split(a))) + Replies(reader, Split(b))
  {
    assert Init(a + b + [NEWLINE]) == a + b;
    assert Init(Split(a + b + [NEWLINE])) == Split(a + b);
    if a == [] {
      assert a + b == b;
    } else {
      assert a + b == Init(a) + [NEWLINE] + b;
      SplitAtNewline(Init(a), b);
      assert Init(Split(a)) == Split(Init(a));
      RepliesAppend(reader, Split(Init(a)), Split(b));
    }
  }

  lemma CutAtNewline(file: seq<Byte>, off: nat, b: seq<Byte>, end: nat)
    requires off <= |file| && b == file[off..] && end < |b| && b[end] == NEWLINE
    ensures off + end < |file| && file[off + end] == NEWLINE
    ensures file[..off + end + 1] == file[..off] + b[..end] + [NEWLINE]
  {
  }

  lemma ExactGrows(
      reader: Reader, kept: seq<Row>, file: seq<Byte>, off: nat, us: seq<Row>, b: seq<Byte>, end: nat, more: seq<Row>)
    requires Exact(reader, kept, file, off, us) && b == file[off..]
    requires end < |b| && b[end] == NEWLINE && more == Replies(reader, Split(b[..end]))
    ensures Exact(reader, kept, file, off + end + 1, us + more)
  {
    CutAtNewline(file, off, b, end);
    StretchesJoin(reader, file[..off], b[..end]);
    Regroup(kept, Replies(reader, Init(Split(file[..off]))), more);
  }

  lemma Regroup(a: seq<Row>, b: seq<Row>, c: seq<Row>)
    ensures a + b + c == a + (b + c)
  {
  }

  lemma RecordedTables(t: Tables, path: Path, offset: nat, us: seq<Row>, of: Path)
    ensures Offset(Recorded(t, path, offset, us), of) == if of == path then offset else Offset(t, of)
    ensures RowsOf(Recorded(t, path, offset, us).rows, of) == RowsOf(t.rows, of) + if of == path then us else []
  {
    RowsOfTagged(t.rows, path, us, of);
  }

  lemma CountedTables(reader: Reader, t: Tables, path: Path, off: nat, b: seq<Byte>, end: nat, of: Path)
    requires end == LastNewline(b)
    ensures var c := Counted(reader, t, path, off, b);
            && Offset(c, of) == (if of == path then off + end + 1 else Offset(t, of))
            && RowsOf(c.rows, of) == RowsOf(t.rows, of) + if of == path then Replies(reader, Split(b[..end])) else []
  {
    RecordedTables(t, path, off + end + 1, Replies(reader, Split(b[..end])), of);
  }

  lemma NothingRecorded(reader: Reader, t: Tables, path: Path, off: nat, b: seq<Byte>)
    requires LastNewline(b) < 0
    ensures Counted(reader, t, path, off, b) == t
  {
  }

  /** Reading on from where a file was read to. */
  lemma CountKeeps(reader: Reader, kept: seq<Row>, t: Tables, path: Path, file: seq<Byte>, b: seq<Byte>)
    requires ExactFor(reader, kept, t, path, file) && b == file[Offset(t, path)..]
    ensures ExactFor(reader, kept, Counted(reader, t, path, Offset(t, path), b), path, file)
  {
    var off, end := Offset(t, path), LastNewline(b);
    if end >= 0 {
      CountedTables(reader, t, path, off, b, end, path);
      ExactGrows(reader, kept, file, off, RowsOf(t.rows, path), b, end, Replies(reader, Split(b[..end])));
    } else {
      NothingRecorded(reader, t, path, off, b);
    }
  }

  /** Starting over: everything recorded so far is kept, and the file counted
      from its first byte. */
  lemma StartOverKeeps(reader: Reader, t: Tables, path: Path, file: seq<Byte>, end: nat)
    requires end == LastNewline(file)
    ensures ExactFor(reader, RowsOf(t.rows, path), Counted(reader, t, path, 0, file), path, file)
  {
    var rows := RowsOf(t.rows, path);
    CountedTables(reader, t, path, 0, file, end, path);
    NothingCounted(reader);
    assert file[..0] == [] && file[0..] == file && rows + [] == rows;
    ExactGrows(reader, rows, file, 0, rows, file, end, Replies(reader, Split(file[..end])));
  }

  lemma OtherFile(reader: Reader, t: Tables, path: Path, off: nat, b: seq<Byte>, of: Path)
    requires of != path
    ensures Offset(Counted(reader, t, path, off, b), of) == Offset(t, of)
    ensures RowsOf(Counted(reader, t, path, off, b).rows, of) == RowsOf(t.rows, of)
  {
    if LastNewline(b) >= 0 {
      CountedTables(reader, t, path, off, b, LastNewline(b), of);
      assert RowsOf(t.rows, of) + [] == RowsOf(t.rows, of);
    }
  }

  lemma ScanKeepsOther(reader: Reader, w: World, scan: Step, path: Path)
    requires scan.Scan? && scan.path != path && CountedOnce(reader, w, path)
    ensures CountedOnce(reader, Next(reader, w, scan), path)
  {
    var off := if scan.size < Offset(w.tables, scan.path) then 0 else Offset(w.tables, scan.path);
    OtherFile(reader, w.tables, scan.path, off, From(File(w, scan.path), off), path);
  }

  lemma StartingOver(reader: Reader, w: World, scan: Step)
    requires scan.Scan? && StartsOver(w, scan.path, scan.size)
    ensures CountedOnce(reader, Next(reader, w, scan), scan.path)
  {
    var file := File(w, scan.path);
    assert From(file, 0) == file;
    StartOverKeeps(reader, w.tables, scan.path, file, LastNewline(file));
    CountedTables(reader, w.tables, scan.path, 0, file, LastNewline(file), scan.path);
  }

  /** A scan that finds the file shorter and no complete line commits nothing. */
  lemma NotStartingOver(reader: Reader, w: World, scan: Step)
    requires scan.Scan? && scan.size < Offset(w.tables, scan.path) && !StartsOver(w, scan.path, scan.size)
    ensures Next(reader, w, scan) == w
  {
    var file := File(w, scan.path);
    assert From(file, 0) == file;
    if scan.size > 0 {
      NothingRecorded(reader, w.tables, scan.path, 0, file);
    }
  }

  lemma ReadingOn(reader: Reader, w: World, scan: Step)
    requires scan.Scan? && Enabled(w, scan) && scan.path !in w.stale && CountedOnce(reader, w, scan.path)
    ensures CountedOnce(reader, Next(reader, w, scan), scan.path)
  {
    var off, file := Offset(w.tables, scan.path), File(w, scan.path);
    assert From(file, off) == file[off..];
    if scan.size != off {
      CountKeeps(reader, Kept(w, scan.path), w.tables, scan.path, file, file[off..]);
      CountStaysAtStart(reader, w.tables, scan.path, off, file[off..], Kept(w, scan.path));
    }
  }

  lemma CountStaysAtStart(reader: Reader, t: Tables, path: Path, off: nat, b: seq<Byte>, kept: seq<Row>)
    requires off == Offset(t, path) && (off == 0 ==> RowsOf(t.rows, path) == kept)
    ensures var c := Counted(reader, t, path, off, b); Offset(c, path) == 0 ==> RowsOf(c.rows, path) == kept
  {
    if LastNewline(b) >= 0 {
      CountedTables(reader, t, path, off, b, LastNewline(b), path);
    }
  }

  lemma ScanKeeps(reader: Reader, w: World, scan: Step, path: Path)
    requires scan.Scan? && Enabled(w, scan) && Notices(w, scan) && CountedOnce(reader, w, path)
    ensures CountedOnce(reader, Next(reader, w, scan), path)
  {
    if path != scan.path {
      ScanKeepsOther(reader, w, scan, path);
    } else if StartsOver(w, path, scan.size) {
      StartingOver(reader, w, scan);
    } else if scan.size < Offset(w.tables, path) {
      NotStartingOver(reader, w, scan);
    } else {
      ReadingOn(reader, w, scan);
    }
  }

  lemma StepKeeps(reader: Reader, w: World, step: Step, path: Path)
    requires Enabled(w, step) && Notices(w, step) && CountedOnce(reader, w, path)
    ensures CountedOnce(reader, Next(reader, w, step), path)
  {
    match step
    case Append(_, _) => AppendKeeps(reader, w, step, path);
    case Rewrite(_, _) => RewriteKeeps(reader, w, step, path);
    case Scan(_, _) => ScanKeeps(reader, w, step, path);
    case Crash =>
  }

  /** Incremental equals batch, whatever the appends, rewrites, scans and crashes:
      what was recorded from a file since it was last counted from the top is
      what one pass over it up to the offset finds. */
  lemma {:induction false} IncrementalIsBatch(reader: Reader, states: seq<World>, steps: seq<Step>, k: nat, path: Path)
    requires IsRun(reader, states, steps) && RewritesAreNoticed(states, steps) && k < |states|
    ensures CountedOnce(reader, states[k], path)
  {
    if k == 0 {
      NothingCounted(reader);
    } else {
      IncrementalIsBatch(reader, states, steps, k - 1, path);
      assert StepsTo(reader, states[k - 1], steps[k - 1], states[k]) && Notices(states[k - 1], steps[k - 1]);
      StepKeeps(reader, states[k - 1], steps[k - 1], path);
    }
  }

  ghost predicate NoRewrite(steps: seq<Step>) {
    forall i :: 0 <= i < |steps| ==> !steps[i].Rewrite?
  }

  /** While files only grow nothing has to be noticed and nothing is kept. */
  lemma {:induction false} OnlyGrowing(reader: Reader, states: seq<World>, steps: seq<Step>, k: nat)
    requires IsRun(reader, states, steps) && NoRewrite(steps) && k < |states|
    ensures states[k].stale == {} && states[k].kept == map[]
  {
    if k > 0 {
      OnlyGrowing(reader, states, steps, k - 1);
      assert StepsTo(reader, states[k - 1], steps[k - 1], states[k]);
    }
  }

  lemma NoNewLine(s: seq<Byte>, c: Byte)
    requires c != NEWLINE
    ensures Init(Split(s + [c])) == Init(Split(s))
  {
    SplitSnoc(s, c);
  }

  /** A file with no newline past the offset has every complete line counted. */
  lemma {:induction false} NothingLeft(a: seq<Byte>, b: seq<Byte>)
    requires OneLine(b)
    ensures Init(Split(a + b)) == Init(Split(a))
    decreases |b|
  {
    if b == [] {
      assert a + b == a;
    } else {
      var front, c := Init(b), Last(b);
      NothingLeft(a, front);
      NoNewLine(a + front, c);
      assert a + b == (a + front) + [c];
    }
  }

  lemma OpenLineLeft(file: seq<Byte>, off: nat, b: seq<Byte>, end: int)
    requires off <= |file| && b == file[off..] && end == LastNewline(b)
    ensures off + end + 1 <= |file| && OneLine(file[off + end + 1..])
  {
    NoneAfterLast(b);
    assert file[off + end + 1..] == b[end + 1..];
  }

  lemma CountedOffset(reader: Reader, t: Tables, path: Path, off: nat, b: seq<Byte>, end: int)
    requires end == LastNewline(b) && (end < 0 ==> off == Offset(t, path))
    ensures Offset(Counted(reader, t, path, off, b), path) == off + end + 1
  {
  }

  lemma ReadOnOffset(reader: Reader, t: Tables, path: Path, file: seq<Byte>)
    requires Offset(t, path) <= |file|
    ensures Offset(Scanned(reader, t, path, |file|, file), path) == Offset(t, path) + LastNewline(file[Offset(t, path)..]) + 1
  {
    var off := Offset(t, path);
    assert From(file, off) == file[off..];
    if |file| != off {
      CountedOffset(reader, t, path, off, file[off..], LastNewline(file[off..]));
    } else {
      assert file[off..] == [];
    }
  }

  lemma ScanLeavesNoLine(reader: Reader, w: World, scan: Step)
    requires scan.Scan? && Enabled(w, scan) && scan.path !in w.stale && scan.size == |File(w, scan.path)|
    ensures var off := Offset(Next(reader, w, scan).tables, scan.path);
            off <= |File(w, scan.path)| && OneLine(File(w, scan.path)[off..])
  {
    var off, file := Offset(w.tables, scan.path), File(w, scan.path);
    ReadOnOffset(reader, w.tables, scan.path, file);
    OpenLineLeft(file, off, file[off..], LastNewline(file[off..]));
  }

  lemma CaughtUp(reader: Reader, kept: seq<Row>, file: seq<Byte>, off: nat, us: seq<Row>)
    requires Exact(reader, kept, file, off, us) && OneLine(file[off..])
    ensures us == kept + Replies(reader, Init(Split(file)))
  {
    NothingLeft(file[..off], file[off..]);
    assert file[..off] + file[off..] == file;
  }

  /** A scan that saw the whole file leaves no complete line uncounted: the
      rows recorded are those of every complete line of the file, once each. */
  lemma ScanCatchesUp(reader: Reader, states: seq<World>, steps: seq<Step>, k: nat)
    requires IsRun(reader, states, steps) && RewritesAreNoticed(states, steps) && k < |steps|
    requires steps[k].Scan? && steps[k].path !in states[k].stale && steps[k].size == |File(states[k], steps[k].path)|
    ensures var path, w := steps[k].path, states[k + 1];
            RowsOf(w.tables.rows, path) == Kept(w, path) + Replies(reader, Init(Split(File(states[k], path))))
  {
    var path, w := steps[k].path, states[k + 1];
    assert StepsTo(reader, states[k], steps[k], w);
    IncrementalIsBatch(reader, states, steps, k + 1, path);
    ScanLeavesNoLine(reader, states[k], steps[k]);
    CaughtUp(reader, Kept(w, path), File(w, path), Offset(w.tables, path), RowsOf(w.tables.rows, path));
  }

  // ---------------------------------------------------------------- a rewrite that goes unnoticed

  lemma {:induction false} EndsInNewline(b: seq<Byte>)
    ensures LastNewline(b + [NEWLINE]) == |b|
  {
    assert Last(b + [NEWLINE]) == NEWLINE;
  }

  lemma {:induction false} OneLineSplits(x: seq<Byte>)
    requires OneLine(x)
    ensures Split(x) == [x]
    decreases |x|
  {
    if x != [] {
      OneLineSplits(Init(x));
      SplitSnoc(Init(x), Last(x));
      assert x == Init(x) + [Last(x)];
      assert Grown([Init(x)], Last(x)) == [x];
    }
  }

  /** A scan that finds one complete line past the offset records its reply. */
  lemma ScansOneLine(reader: Reader, t: Tables, path: Path, before: seq<Byte>, line: seq<Byte>)
    requires OneLine(line) && Offset(t, path) == |before|
    ensures var content := before + (line + [NEWLINE]);
            Scanned(reader, t, path, |content|, content) == Recorded(t, path, |content|, Replies(reader, [line]))
  {
    var content := before + (line + [NEWLINE]);
    assert From(content, |before|) == line + [NEWLINE];
    EndsInNewline(line);
    OneLineSplits(line);
    assert (line + [NEWLINE])[..|line|] == line;
  }

  /** The four steps of such a run: a line and a scan; then the file is written
      from scratch with another line of the same length and one more, and
      scanned. */
  function UnnoticedSteps(path: Path, x: seq<Byte>, y: seq<Byte>, z: seq<Byte>): seq<Step> {
    [Append(path, x + [NEWLINE]), Scan(path, |x| + 1),
     Rewrite(path, y + [NEWLINE] + (z + [NEWLINE])), Scan(path, |y| + |z| + 2)]
  }

  /** These steps lead from the start to w. */
  ghost predicate Leads(reader: Reader, steps: seq<Step>, w: World) {
    exists states :: IsRun(reader, states, steps) && states[|steps|] == w
  }

  lemma LeadsOn(reader: Reader, steps: seq<Step>, w: World, step: Step, w': World)
    requires Leads(reader, steps, w) && StepsTo(reader, w, step, w')
    ensures Leads(reader, steps + [step], w')
  {
    var states :| IsRun(reader, states, steps) && states[|steps|] == w;
    var more, all := steps + [step], states + [w'];
    forall i | 0 <= i < |more|
      ensures StepsTo(reader, all[i], more[i], all[i + 1])
    {
      if i < |steps| {
        assert StepsTo(reader, states[i], steps[i], states[i + 1]);
      }
    }
    assert IsRun(reader, all, more) && all[|more|] == w';
  }

  lemma RecordedTwice(path: Path, n: nat, m: nat, us: seq<Row>, vs: seq<Row>)
    ensures var t := Recorded(Recorded(Tables([], map[]), path, n, us), path, m, vs);
            RowsOf(t.rows, path) == us + vs && Offset(t, path) == m
  {
    RecordedTables(Tables([], map[]), path, n, us, path);
    RecordedTables(Recorded(Tables([], map[]), path, n, us), path, m, vs, path);
    assert [] + us == us;
  }

  lemma NothingLeads(reader: Reader)
    ensures Leads(reader, [], STARTED)
  {
    assert IsRun(reader, [STARTED], []);
    var states := [STARTED];
    assert states[0] == STARTED;
  }

  lemma FirstWritten(reader: Reader, path: Path, first: seq<Byte>) returns (one: World)
    ensures Leads(reader, [Append(path, first)], one)
    ensures File(one, path) == first && one.tables == STARTED.tables && one.stale == {}
  {
    NothingLeads(reader);
    one := Next(reader, STARTED, Append(path, first));
    LeadsOn(reader, [], STARTED, Append(path, first), one);
    assert [] + [Append(path, first)] == [Append(path, first)];
    assert [] + first == first;
  }

  lemma LineScanned(reader: Reader, w: World, path: Path, before: seq<Byte>, line: seq<Byte>, n: nat) returns (w': World)
    requires OneLine(line) && Offset(w.tables, path) == |before| && n == |before| + |line| + 1
    requires File(w, path) == before + (line + [NEWLINE])
    ensures StepsTo(reader, w, Scan(path, n), w') && w'.files == w.files && w'.stale == w.stale
    ensures w'.tables == Recorded(w.tables, path, n, Replies(reader, [line]))
  {
    ScansOneLine(reader, w.tables, path, before, line);
    w' := Next(reader, w, Scan(path, n));
  }

  lemma FirstScanned(reader: Reader, path: Path, x: seq<Byte>) returns (two: World)
    requires OneLine(x)
    ensures Leads(reader, [Append(path, x + [NEWLINE]), Scan(path, |x| + 1)], two)
    ensures two.tables == Recorded(Tables([], map[]), path, |x| + 1, Replies(reader, [x]))
  {
    var one := FirstWritten(reader, path, x + [NEWLINE]);
    assert [] + (x + [NEWLINE]) == x + [NEWLINE];
    two := LineScanned(reader, one, path, [], x, |x| + 1);
    LeadsOn(reader, [Append(path, x + [NEWLINE])], one, Scan(path, |x| + 1), two);
    assert [Append(path, x + [NEWLINE])] + [Scan(path, |x| + 1)] == [Append(path, x + [NEWLINE]), Scan(path, |x| + 1)];
  }

  lemma Rewritten(reader: Reader, steps: seq<Step>, w: World, path: Path, content: seq<Byte>) returns (w': World)
    requires Leads(reader, steps, w) && Offset(w.tables, path) > 0
    ensures Leads(reader, steps + [Rewrite(path, content)], w')
    ensures w'.tables == w.tables && File(w', path) == content && path in w'.stale
  {
    w' := Next(reader, w, Rewrite(path, content));
    LeadsOn(reader, steps, w, Rewrite(path, content), w');
  }

  lemma RegainsItsOffset(reader: Reader, path: Path, x: seq<Byte>, content: seq<Byte>) returns (w: World)
    requires OneLine(x)
    ensures Leads(reader, [Append(path, x + [NEWLINE]), Scan(path, |x| + 1), Rewrite(path, content)], w)
    ensures w.tables == Recorded(Tables([], map[]), path, |x| + 1, Replies(reader, [x]))
    ensures File(w, path) == content && path in w.stale
  {
    var two := FirstScanned(reader, path, x);
    RecordedTables(Tables([], map[]), path, |x| + 1, Replies(reader, [x]), path);
    var steps := [Append(path, x + [NEWLINE]), Scan(path, |x| + 1)];
    w := Rewritten(reader, steps, two, path, content);
    assert steps + [Rewrite(path, content)]
        == [Append(path, x + [NEWLINE]), Scan(path, |x| + 1), Rewrite(path, content)];
  }

  lemma UnnoticedEnd(path: Path, w: World, n: nat, y: seq<Byte>, z: seq<Byte>, us: seq<Row>, vs: seq<Row>)
    requires OneLine(y) && OneLine(z) && File(w, path) == y + [NEWLINE] + (z + [NEWLINE])
    requires w.tables == Recorded(Recorded(Tables([], map[]), path, n, us), path, |y| + |z| + 2, vs)
    ensures RowsOf(w.tables.rows, path) == us + vs
    ensures Init(Split(File(w, path))) == [y, z] && Offset(w.tables, path) == |File(w, path)|
  {
    RecordedTwice(path, n, |y| + |z| + 2, us, vs);
    TwoLines(y, z);
  }

  /** Noticing matters: when a rewritten file is as long as the stored offset again
      at its next scan, which is the last step here, the line that now stands
      before the offset is never counted, though the scan saw the whole file. */
  lemma UnnoticedRewrite(reader: Reader, path: Path, x: seq<Byte>, y: seq<Byte>, z: seq<Byte>) returns (before: World, w: World)
    requires OneLine(x) && OneLine(y) && OneLine(z) && |x| == |y|
    ensures Leads(reader, UnnoticedSteps(path, x, y, z), w)
    ensures StepsTo(reader, before, Scan(path, |y| + |z| + 2), w) && !Notices(before, Scan(path, |y| + |z| + 2))
    ensures Init(Split(File(w, path))) == [y, z] && Offset(w.tables, path) == |File(w, path)|
    ensures RowsOf(w.tables.rows, path) == Replies(reader, [x]) + Replies(reader, [z])
  {
    before := RegainsItsOffset(reader, path, x, y + [NEWLINE] + (z + [NEWLINE]));
    RecordedTables(Tables([], map[]), path, |x| + 1, Replies(reader, [x]), path);
    w := LineScanned(reader, before, path, y + [NEWLINE], z, |y| + |z| + 2);
    assert File(w, path) == File(before, path);
    UnnoticedLeads(reader, path, x, y, z, before, w);
    UnnoticedEnd(path, w, |x| + 1, y, z, Replies(reader, [x]), Replies(reader, [z]));
  }

  lemma UnnoticedLeads(reader: Reader, path: Path, x: seq<Byte>, y: seq<Byte>, z: seq<Byte>, before: World, w: World)
    requires Leads(reader, [Append(path, x + [NEWLINE]), Scan(path, |x| + 1), Rewrite(path, y + [NEWLINE] + (z + [NEWLINE]))], before)
    requires StepsTo(reader, before, Scan(path, |y| + |z| + 2), w)
    ensures Leads(reader, UnnoticedSteps(path, x, y, z), w)
  {
    var steps := [Append(path, x + [NEWLINE]), Scan(path, |x| + 1), Rewrite(path, y + [NEWLINE] + (z + [NEWLINE]))];
    LeadsOn(reader, steps, before, Scan(path, |y| + |z| + 2), w);
    assert steps + [Scan(path, |y| + |z| + 2)] == UnnoticedSteps(path, x, y, z);
  }

  lemma TwoLines(y: seq<Byte>, z: seq<Byte>)
    requires OneLine(y) && OneLine(z)
    ensures Init(Split(y + [NEWLINE] + (z + [NEWLINE]))) == [y, z]
  {
    SplitAtNewline(y, z + [NEWLINE]);
    SplitSnoc(z, NEWLINE);
    OneLineSplits(y);
    OneLineSplits(z);
    var rest := Split(z + [NEWLINE]);
    assert rest == [z] + [[]];
    assert Init([y] + rest) == [y, z];
  }

  // ---------------------------------------------------------------- what is a reply

  /** An assistant's message with usage, on a line of its own, and the row for it:
      the file's own time if it parses, the model with its provider before it if
      there is one, and the counts as they are. */
  ghost predicate IsReply(json: Json, line: seq<Byte>, row: Row) {
    Contains(line, "\"usage\"") && exists ev: Event :: json(line) == Some(ev) && Tells(ev, row)
  }

  ghost predicate Tells(ev: Event, row: Row) {
    && ev.kind == "message" && ev.message.Some? && ev.message.value.role == "assistant"
    && ev.message.value.usage == Some(row.tokens)
    && row.model == (if ev.message.value.provider == "" then ev.message.value.model
                     else ev.message.value.provider + "/" + ev.message.value.model)
    && row.at == (if ev.stamped then FromFile(ev.timestamp) else AtScan)
  }

  lemma ReplyIs(json: Json, line: seq<Byte>, row: Row)
    ensures IsReply(json, line, row) <==> Reply(json, line) == Some(row)
  {
    if IsReply(json, line, row) {
      var ev: Event :| json(line) == Some(ev) && Tells(ev, row);
    }
    if Reply(json, line) == Some(row) {
      var ev := json(line).value;
      assert json(line) == Some(ev) && Tells(ev, row);
    }
  }

  ghost predicate HasReply(json: Json, line: seq<Byte>) {
    exists row :: IsReply(json, line, row)
  }

  lemma HasReplyIs(json: Json, line: seq<Byte>)
    ensures HasReply(json, line) <==> Reply(json, line).Some?
  {
    if HasReply(json, line) {
      var row :| IsReply(json, line, row);
      ReplyIs(json, line, row);
    }
    if Reply(json, line).Some? {
      ReplyIs(json, line, Reply(json, line).value);
    }
  }

  /** Which of these lines are replies. */
  ghost function ReplyLines(json: Json, lines: seq<seq<Byte>>): set<int> {
    set i | 0 <= i < |lines| && HasReply(json, lines[i])
  }

  lemma ReplyLinesStep(json: Json, lines: seq<seq<Byte>>)
    requires lines != []
    ensures |ReplyLines(json, lines)| == |ReplyLines(json, Init(lines))| + if HasReply(json, Last(lines)) then 1 else 0
  {
    var n := |lines| - 1;
    var front := ReplyLines(json, Init(lines));
    assert ReplyLines(json, lines) == if HasReply(json, lines[n]) then front + {n} else front;
  }

  /** There is a row for each of them. */
  lemma {:induction false} RowForEach(json: Json, lines: seq<seq<Byte>>)
    ensures |Replies(LineReader(json), lines)| == |ReplyLines(json, lines)|
    decreases |lines|
  {
    if lines == [] {
      assert ReplyLines(json, lines) == {};
    } else {
      RowForEach(json, Init(lines));
      ReplyLinesStep(json, lines);
      HasReplyIs(json, Last(lines));
      assert LineReader(json)(Last(lines)) == Reply(json, Last(lines));
    }
  }

  /** Reply i of the lines is row number |Replies of the lines before it|. */
  lemma {:induction false} ReplyHasItsRow(reader: Reader, lines: seq<seq<Byte>>, i: nat)
    requires i < |lines| && reader(lines[i]).Some?
    ensures var n := |Replies(reader, lines[..i])|;
            n < |Replies(reader, lines)| && Replies(reader, lines)[n] == reader(lines[i]).value
    decreases |lines|
  {
    if i == |lines| - 1 {
      assert lines[..i] == Init(lines);
    } else {
      assert lines[..i] == Init(lines)[..i];
      ReplyHasItsRow(reader, Init(lines), i);
    }
  }

  lemma RowOfReply(json: Json, lines: seq<seq<Byte>>, i: nat, row: Row)
    requires i < |lines| && IsReply(json, lines[i], row)
    ensures var n := |ReplyLines(json, lines[..i])|;
            n < |Replies(LineReader(json), lines)| && Replies(LineReader(json), lines)[n] == row
  {
    ReplyIs(json, lines[i], row);
    RowForEach(json, lines[..i]);
    ReplyHasItsRow(LineReader(json), lines, i);
  }

  /** With the program's own reading of a line: after a scan that saw the whole
      of a file that only grew, there is one row for each complete line that is a
      reply, in the order of the lines, with what the line tells, and no other. */
  lemma EveryReplyOnce(json: Json, states: seq<World>, steps: seq<Step>, k: nat, i: nat, row: Row)
    requires IsRun(LineReader(json), states, steps) && NoRewrite(steps) && k < |steps|
    requires steps[k].Scan? && steps[k].size == |File(states[k], steps[k].path)|
    requires i < |Split(File(states[k], steps[k].path))| - 1
    ensures var path := steps[k].path;
            var lines, rows := Init(Split(File(states[k], path))), RowsOf(states[k + 1].tables.rows, path);
            && |rows| == |ReplyLines(json, lines)|
            && (IsReply(json, lines[i], row) ==>
                  var n := |ReplyLines(json, lines[..i])|; n < |rows| && rows[n] == row)
  {
    var reader, path := LineReader(json), steps[k].path;
    forall j | 0 <= j < |steps|
      ensures Notices(states[j], steps[j])
    {
      OnlyGrowing(reader, states, steps, j);
    }
    OnlyGrowing(reader, states, steps, k);
    OnlyGrowing(reader, states, steps, k + 1);
    ScanCatchesUp(reader, states, steps, k);
    var lines := Init(Split(File(states[k], path)));
    RowForEach(json, lines);
    assert [] + Replies(reader, lines) == Replies(reader, lines);
    if IsReply(json, lines[i], row) {
      RowOfReply(json, lines, i, row);
    }
  }
}
