/** The hourly rollups of hub/internal/store/hosts.go: raw rows are folded into
    one row a host and hour, and raw rows past two days are dropped.

    Times are milliseconds of a clock that does not run backwards.  A row's time
    is text with milliseconds and an hour's mark is text without, and the query
    compares the texts; what that does to the first second of an hour is part of
    the model.  RollupUsage and RollupMetrics differ in what they fold, so the
    fold is a parameter. */
module Rollup {
  import opened Sequences

  type Host = int

  /** How long raw rows are kept, in milliseconds: 48 hours. */
  const KEPT := 172_800_000

  function HourOf(at: int): int {
    at / 3600_000
  }

  function StartOf(hour: int): int {
    hour * 3600_000
  }

  /** The text of an instant is less than the mark of an hour: "05:00:00.999Z" is
      less than "05:00:00Z", since a full stop sorts before a Z. */
  predicate BeforeMark(at: int, hour: int) {
    at < StartOf(hour) + 1000
  }

  /** Within the first second of its hour. */
  predicate FirstSecond(at: int) {
    BeforeMark(at, HourOf(at))
  }

  /** Past the first second the texts compare as the instants do. */
  lemma MarksAreHours(at: int, hour: int)
    requires !FirstSecond(at)
    ensures BeforeMark(at, hour) <==> HourOf(at) < hour
  {
  }

  datatype Raw<R> = Raw(host: Host, at: int, data: R)

  /** A host and an hour. */
  datatype Key = Key(host: Host, hour: int)

  function KeyOf<R>(r: Raw<R>): Key {
    Key(r.host, HourOf(r.at))
  }

  /** What one table folds: an accumulator, a row into it, and the row it becomes. */
  datatype Shape<!R, !A, !B> = Shape(zero: A, add: (A, R) -> A, finish: A -> B)

  /** Two filters in a row are one. */
  lemma {:induction false} FilterFilter<T>(s: seq<T>, f: T -> bool, g: T -> bool, h: T -> bool)
    requires forall i :: 0 <= i < |s| ==> (h(s[i]) <==> f(s[i]) && g(s[i]))
    ensures Filter(Filter(s, f), g) == Filter(s, h)
  {
    if s != [] {
      FilterFilter(Init(s), f, g, h);
      var inner := Filter(Init(s), f);
      if f(Last(s)) {
        assert Init(inner + [Last(s)]) == inner;
      } else {
        assert inner + [] == inner;
      }
    }
  }

  /** Filters that agree on the elements give the same result. */
  lemma {:induction false} FilterSame<T>(s: seq<T>, f: T -> bool, g: T -> bool)
    requires forall i :: 0 <= i < |s| ==> f(s[i]) == g(s[i])
    ensures Filter(s, f) == Filter(s, g)
  {
    if s != [] {
      FilterSame(Init(s), f, g);
    }
  }

  lemma {:induction false} FilterNone<T>(s: seq<T>, f: T -> bool)
    requires forall i :: 0 <= i < |s| ==> !f(s[i])
    ensures Filter(s, f) == []
  {
    if s != [] {
      FilterNone(Init(s), f);
    }
  }

  function OfKey<R>(k: Key): Raw<R> -> bool {
    (r: Raw<R>) => KeyOf(r) == k
  }

  function Since<R>(cut: int): Raw<R> -> bool {
    (r: Raw<R>) => r.at >= cut
  }

  /** The rows of one host and hour, in the order they were recorded. */
  function Group<R>(rows: seq<Raw<R>>, k: Key): seq<Raw<R>> {
    Filter(rows, OfKey(k))
  }

  function Fold<R, A, B>(shape: Shape<R, A, B>, rows: seq<Raw<R>>): A {
    if rows == [] then shape.zero else shape.add(Fold(shape, Init(rows)), Last(rows).data)
  }

  /** The hourly row of one host and hour, out of these rows. */
  function HourRow<R, A, B>(shape: Shape<R, A, B>, rows: seq<Raw<R>>, k: Key): B {
    shape.finish(Fold(shape, Group(rows, k)))
  }

  // ---------------------------------------------------------------- the tables

  datatype Tables<R, B> = Tables(raw: seq<Raw<R>>, hourly: map<Key, B>)

  /** Before the mark of the present hour, and not before the one after the last
      hour rolled up for the host. */
  predicate ToRoll<R, B>(hourly: map<Key, B>, now: int, r: Raw<R>) {
    BeforeMark(r.at, HourOf(now)) && forall k :: k in hourly ==> k.host == r.host ==> !BeforeMark(r.at, k.hour + 1)
  }

  function RollNow<R, B>(hourly: map<Key, B>, now: int): Raw<R> -> bool {
    (r: Raw<R>) => ToRoll(hourly, now, r)
  }

  function Selected<R, B>(t: Tables<R, B>, now: int): seq<Raw<R>> {
    Filter(t.raw, RollNow(t.hourly, now))
  }

  function Keys<R>(rows: seq<Raw<R>>): set<Key> {
    set i | 0 <= i < |rows| :: KeyOf(rows[i])
  }

  function Committed<R, B>(t: Tables<R, B>, rolled: map<Key, B>, now: int): Tables<R, B> {
    Tables(Filter(t.raw, Since(now - KEPT)), t.hourly + rolled)
  }

  /** A commit drops exactly the raw rows of more than two days ago, puts in the
      rows rolled and leaves every other hourly row. */
  lemma CommitDropsTheOld<R, B>(t: Tables<R, B>, rolled: map<Key, B>, now: int, r: Raw<R>, k: Key)
    ensures r in Committed(t, rolled, now).raw <==> r in t.raw && r.at >= now - 172_800_000
    ensures k in Committed(t, rolled, now).hourly <==> k in rolled || k in t.hourly
    ensures k in rolled ==> Committed(t, rolled, now).hourly[k] == rolled[k]
    ensures k !in rolled && k in t.hourly ==> Committed(t, rolled, now).hourly[k] == t.hourly[k]
  {
    FilterPasses(t.raw, Since(now - KEPT), r);
  }

  /** The hourly rows of these accumulators. */
  function Finished<R, A, B>(shape: Shape<R, A, B>, accs: map<Key, A>, keys: set<Key>): map<Key, B>
    requires keys <= accs.Keys
  {
    map k | k in keys :: shape.finish(accs[k])
  }

  lemma FinishedStep<R, A, B>(shape: Shape<R, A, B>, hourly: map<Key, B>, accs: map<Key, A>, done: set<Key>, k: Key)
    requires done <= accs.Keys && k in accs
    ensures hourly + Finished(shape, accs, done + {k}) == (hourly + Finished(shape, accs, done))[k := shape.finish(accs[k])]
  {
  }

  lemma GroupSnoc<R>(rows: seq<Raw<R>>, r: Raw<R>, k: Key)
    ensures Group(rows + [r], k) == Group(rows, k) + if KeyOf(r) == k then [r] else []
  {
    assert Init(rows + [r]) == rows;
  }

  lemma FoldSnoc<R, A, B>(shape: Shape<R, A, B>, rows: seq<Raw<R>>, r: Raw<R>)
    ensures Fold(shape, rows + [r]) == shape.add(Fold(shape, rows), r.data)
  {
    assert Init(rows + [r]) == rows;
  }

  lemma {:induction false} GroupIsEmpty<R>(rows: seq<Raw<R>>, k: Key)
    ensures Group(rows, k) == [] <==> k !in Keys(rows)
  {
    if rows != [] {
      GroupIsEmpty(Init(rows), k);
      assert rows == Init(rows) + [Last(rows)];
      if k in Keys(Init(rows)) {
        var i :| 0 <= i < |Init(rows)| && KeyOf(Init(rows)[i]) == k;
        assert KeyOf(rows[i]) == k;
      }
      if k in Keys(rows) {
        var i :| 0 <= i < |rows| && KeyOf(rows[i]) == k;
        if i < |rows| - 1 {
          assert KeyOf(Init(rows)[i]) == k;
        }
      }
      if KeyOf(Last(rows)) == k {
        assert KeyOf(rows[|rows| - 1]) == k;
      }
    }
  }

  function Accs<R, A, B>(shape: Shape<R, A, B>, rows: seq<Raw<R>>): map<Key, A> {
    map k | k in Keys(rows) :: Fold(shape, Group(rows, k))
  }

  lemma KeysSnoc<R>(rows: seq<Raw<R>>, r: Raw<R>)
    ensures Keys(rows + [r]) == Keys(rows) + {KeyOf(r)}
  {
    var all := rows + [r];
    assert KeyOf(all[|rows|]) == KeyOf(r);
    assert forall i :: 0 <= i < |rows| ==> KeyOf(all[i]) == KeyOf(rows[i]);
  }

  function AddRow<R, A, B>(shape: Shape<R, A, B>, accs: map<Key, A>, r: Raw<R>): map<Key, A> {
    accs[KeyOf(r) := shape.add(if KeyOf(r) in accs then accs[KeyOf(r)] else shape.zero, r.data)]
  }

  /** One more row goes into the accumulator of its host and hour. */
  lemma AccsSnoc<R, A, B>(shape: Shape<R, A, B>, rows: seq<Raw<R>>, r: Raw<R>)
    ensures Accs(shape, rows + [r]) == AddRow(shape, Accs(shape, rows), r)
  {
    KeysSnoc(rows, r);
    GroupIsEmpty(rows, KeyOf(r));
    FoldSnoc(shape, Group(rows, KeyOf(r)), r);
    forall k | k in Keys(rows + [r])
      ensures k != KeyOf(r) ==> Group(rows + [r], k) == Group(rows, k)
      ensures k == KeyOf(r) ==> Group(rows + [r], k) == Group(rows, k) + [r]
    {
      GroupSnoc(rows, r, k);
    }
  }

  lemma AccsUpTo<R, A, B>(shape: Shape<R, A, B>, rows: seq<Raw<R>>, i: nat)
    requires i < |rows|
    ensures Accs(shape, rows[..i + 1]) == AddRow(shape, Accs(shape, rows[..i]), rows[i])
  {
    AccsSnoc(shape, rows[..i], rows[i]);
    assert rows[..i + 1] == rows[..i] + [rows[i]];
  }

  lemma AccsOfNothing<R, A, B>(shape: Shape<R, A, B>, rows: seq<Raw<R>>)
    ensures Accs(shape, rows[..0]) == map[] && Accs(shape, rows[..|rows|]) == Accs(shape, rows)
  {
    assert Keys(rows[..0]) == {};
    assert rows[..|rows|] == rows;
  }

  class Store<R, B> {
    var raw: seq<Raw<R>>
    var hourly: map<Key, B>

    function Contents(): Tables<R, B>
      reads this
    {
      Tables(raw, hourly)
    }

    constructor ()
      ensures Contents() == Tables([], map[])
    {
      raw, hourly := [], map[];
    }

    method Record(r: Raw<R>)
      modifies this
      ensures raw == old(raw) + [r] && hourly == old(hourly)
    {
      raw := raw + [r];
    }

    /** The query, and the loop that fills one accumulator a host and hour. */
    method ReadRows<A>(shape: Shape<R, A, B>, now: int) returns (accs: map<Key, A>)
      ensures accs == Accs(shape, Selected(Contents(), now))
    {
      var rows := Selected(Contents(), now);
      accs := map[];
      AccsOfNothing(shape, rows);
      var i := 0;
      while i < |rows|
        invariant 0 <= i <= |rows|
        invariant accs == Accs(shape, rows[..i])
      {
        var r := rows[i];
        AccsUpTo(shape, rows, i);
        if KeyOf(r) !in accs {
          accs := accs[KeyOf(r) := shape.add(shape.zero, r.data)];
        } else {
          accs := accs[KeyOf(r) := shape.add(accs[KeyOf(r)], r.data)];
        }
        i := i + 1;
      }
    }

    /** The transaction: one row an accumulator, inserted or replaced, and raw
        rows past two days deleted. */
    method Commit<A>(shape: Shape<R, A, B>, accs: map<Key, A>, now: int)
      modifies this
      ensures Contents() == Committed(old(Contents()), Finished(shape, accs, accs.Keys), now)
    {
      var left := accs.Keys;
      while left != {}
        invariant left <= accs.Keys && raw == old(raw)
        invariant hourly == old(hourly) + Finished(shape, accs, accs.Keys - left)
        decreases |left|
      {
        var k :| k in left;
        FinishedStep(shape, old(hourly), accs, accs.Keys - left, k);
        assert accs.Keys - left + {k} == accs.Keys - (left - {k});
        hourly := hourly[k := shape.finish(accs[k])];
        left := left - {k};
      }
      assert accs.Keys - left == accs.Keys;
      raw := Filter(raw, Since(now - KEPT));
    }
  }

  // ---------------------------------------------------------------- every run

  /** The store, every row ever recorded, what an unfinished rollup has read, the
      first hour not rolled up yet, and the instant before which raw rows are gone. */
  datatype World<R, A, B> = World(
    log: seq<Raw<R>>, tables: Tables<R, B>, reading: Option<Reading<A>>, clock: int, mark: int, cut: int)

  datatype Reading<A> = Reading(accs: map<Key, A>, hour: int)

  datatype Step<R> = Insert(r: Raw<R>) | Read(now: int) | Commit(now: int) | Abandon

  /** Rows are stamped with the clock when they are inserted.  A rollup commits
      before the hour it read up to is two days old. */
  predicate Enabled<R, A, B>(w: World<R, A, B>, step: Step<R>) {
    match step
    case Insert(r) => w.clock <= r.at
    case Read(now) => w.clock <= now && w.reading == None
    case Commit(now) => w.clock <= now && w.reading.Some? && now - KEPT <= StartOf(w.reading.value.hour)
    case Abandon => w.reading.Some?
  }

  function Next<R, A, B>(shape: Shape<R, A, B>, w: World<R, A, B>, step: Step<R>): World<R, A, B>
    requires Enabled(w, step)
  {
    match step
    case Insert(r) => w.(log := w.log + [r], tables := w.tables.(raw := w.tables.raw + [r]), clock := r.at)
    case Read(now) => w.(reading := Some(Reading(Accs(shape, Selected(w.tables, now)), HourOf(now))), clock := now)
    case Commit(now) =>
      var accs := w.reading.value.accs;
      w.(tables := Committed(w.tables, Finished(shape, accs, accs.Keys), now),
         reading := None, clock := now, mark := w.reading.value.hour,
         cut := if now - KEPT > w.cut then now - KEPT else w.cut)
    case Abandon => w.(reading := None)
  }

  function Empty<R, A, B>(clock: int): World<R, A, B> {
    World([], Tables([], map[]), None, clock, HourOf(clock), StartOf(HourOf(clock)))
  }

  /** The hours of the log a set of keys stands for. */
  ghost predicate Covers<R, T>(log: seq<Raw<R>>, m: map<Key, T>, from: int, upto: int) {
    forall k :: k in m <==> k in Keys(log) && from <= k.hour < upto
  }

  ghost predicate LogInv<R, A, B>(start: int, w: World<R, A, B>) {
    && (forall i :: 0 <= i < |w.log| ==>
          start <= HourOf(w.log[i].at) && w.log[i].at <= w.clock && !FirstSecond(w.log[i].at))
    && w.tables.raw == Filter(w.log, Since(w.cut))
    && start <= w.mark <= HourOf(w.clock) && w.cut <= StartOf(w.mark)
  }

  /** A rolled hour is the fold of all its rows, and all hours before the mark
      that have rows are rolled. */
  ghost predicate HourlyInv<R, A, B>(shape: Shape<R, A, B>, start: int, w: World<R, A, B>) {
    && Covers(w.log, w.tables.hourly, start, w.mark)
    && forall k :: k in w.tables.hourly ==> w.tables.hourly[k] == HourRow(shape, w.log, k)
  }

  ghost predicate ReadingInv<R, A, B>(shape: Shape<R, A, B>, w: World<R, A, B>) {
    w.reading.Some? ==>
      var reading := w.reading.value;
      && w.mark <= reading.hour <= HourOf(w.clock)
      && Covers(w.log, reading.accs, w.mark, reading.hour)
      && forall k :: k in reading.accs ==> reading.accs[k] == Fold(shape, Group(w.log, k))
  }

  ghost predicate Inv<R, A, B>(shape: Shape<R, A, B>, start: int, w: World<R, A, B>) {
    LogInv(start, w) && HourlyInv(shape, start, w) && ReadingInv(shape, w)
  }

  /** What a rollup reads for one host and hour: every row ever recorded in it
      when the hour is complete and not rolled yet, and none otherwise. */
  lemma SelectedGroup<R, A, B>(shape: Shape<R, A, B>, start: int, w: World<R, A, B>, now: int, k: Key)
    requires LogInv(start, w) && HourlyInv(shape, start, w)
    ensures Group(Selected(w.tables, now), k)
         == if w.mark <= k.hour < HourOf(now) then Group(w.log, k) else []
  {
    var both := (r: Raw<R>) => r.at >= w.cut && ToRoll(w.tables.hourly, now, r);
    var all := (r: Raw<R>) => KeyOf(r) == k && w.mark <= k.hour < HourOf(now);
    FilterFilter(w.log, Since(w.cut), RollNow(w.tables.hourly, now), both);
    forall i | 0 <= i < |w.log|
      ensures all(w.log[i]) <==> both(w.log[i]) && OfKey(k)(w.log[i])
    {
      SelectedRow(shape, start, w, now, i);
    }
    FilterFilter(w.log, both, OfKey(k), all);
    if w.mark <= k.hour < HourOf(now) {
      FilterSame(w.log, all, OfKey(k));
    } else {
      FilterNone(w.log, all);
    }
  }

  lemma SelectedRow<R, A, B>(shape: Shape<R, A, B>, start: int, w: World<R, A, B>, now: int, i: nat)
    requires LogInv(start, w) && HourlyInv(shape, start, w) && i < |w.log|
    ensures var r := w.log[i];
            (r.at >= w.cut && ToRoll(w.tables.hourly, now, r)) <==> w.mark <= HourOf(r.at) < HourOf(now)
  {
    var r := w.log[i];
    assert KeyOf(r) in Keys(w.log);
    forall hour
      ensures BeforeMark(r.at, hour) <==> HourOf(r.at) < hour
    {
      MarksAreHours(r.at, hour);
    }
    if w.mark <= HourOf(r.at) {
      assert r.at >= StartOf(w.mark);
    } else {
      assert KeyOf(r) in w.tables.hourly;
    }
  }

  lemma HoursAreMonotone(a: int, b: int)
    requires a <= b
    ensures HourOf(a) <= HourOf(b) && StartOf(HourOf(b)) <= b
  {
  }

  lemma InsertKeepsLog<R, A, B>(shape: Shape<R, A, B>, start: int, w: World<R, A, B>, r: Raw<R>)
    requires LogInv(start, w) && w.clock <= r.at && !FirstSecond(r.at)
    ensures LogInv(start, Next(shape, w, Insert(r)))
  {
    HoursAreMonotone(w.clock, r.at);
    assert Init(w.log + [r]) == w.log && Last(w.log + [r]) == r;
    assert StartOf(w.mark) <= w.clock;
    assert Since(w.cut)(r);
  }

  lemma InsertKeeps<R, A, B>(shape: Shape<R, A, B>, start: int, w: World<R, A, B>, r: Raw<R>)
    requires Inv(shape, start, w) && w.clock <= r.at && !FirstSecond(r.at)
    ensures Inv(shape, start, Next(shape, w, Insert(r)))
  {
    InsertKeepsLog(shape, start, w, r);
    HoursAreMonotone(w.clock, r.at);
    KeysSnoc(w.log, r);
    forall k: Key | k.hour < HourOf(r.at)
      ensures Group(w.log + [r], k) == Group(w.log, k) && (k in Keys(w.log + [r]) <==> k in Keys(w.log))
    {
      GroupSnoc(w.log, r, k);
      assert Group(w.log, k) + [] == Group(w.log, k);
    }
  }

  lemma ReadKeeps<R, A, B>(shape: Shape<R, A, B>, start: int, w: World<R, A, B>, now: int)
    requires Inv(shape, start, w) && Enabled(w, Read(now))
    ensures Inv(shape, start, Next(shape, w, Read(now)))
  {
    HoursAreMonotone(w.clock, now);
    var rows := Selected(w.tables, now);
    forall k
      ensures k in Keys(rows) <==> k in Keys(w.log) && w.mark <= k.hour < HourOf(now)
      ensures k in Keys(rows) ==> Group(rows, k) == Group(w.log, k)
    {
      SelectedGroup(shape, start, w, now, k);
      GroupIsEmpty(rows, k);
      GroupIsEmpty(w.log, k);
    }
  }

  lemma CommitKeepsRaw<R>(log: seq<Raw<R>>, raw: seq<Raw<R>>, cut: int, later: int)
    requires raw == Filter(log, Since(cut))
    ensures Filter(raw, Since(later)) == Filter(log, Since(if later > cut then later else cut))
  {
    FilterFilter(log, Since(cut), Since(later), Since(if later > cut then later else cut));
  }

  lemma CommitKeepsHourly<R, A, B>(shape: Shape<R, A, B>, start: int, w: World<R, A, B>, now: int)
    requires HourlyInv(shape, start, w) && ReadingInv(shape, w) && Enabled(w, Commit(now)) && start <= w.mark
    ensures HourlyInv(shape, start, Next(shape, w, Commit(now)))
  {
    var w' := Next(shape, w, Commit(now));
    forall k | k in w'.tables.hourly
      ensures w'.tables.hourly[k] == HourRow(shape, w.log, k)
    {
      assert k in w.reading.value.accs || k in w.tables.hourly;
    }
  }

  lemma CommitKeepsLog<R, A, B>(shape: Shape<R, A, B>, start: int, w: World<R, A, B>, now: int)
    requires LogInv(start, w) && Enabled(w, Commit(now))
    requires w.mark <= w.reading.value.hour <= HourOf(w.clock)
    ensures LogInv(start, Next(shape, w, Commit(now)))
  {
    HoursAreMonotone(w.clock, now);
    CommitKeepsRaw(w.log, w.tables.raw, w.cut, now - KEPT);
  }

  lemma CommitKeeps<R, A, B>(shape: Shape<R, A, B>, start: int, w: World<R, A, B>, now: int)
    requires Inv(shape, start, w) && Enabled(w, Commit(now))
    ensures Inv(shape, start, Next(shape, w, Commit(now)))
  {
    CommitKeepsHourly(shape, start, w, now);
    CommitKeepsLog(shape, start, w, now);
  }

  lemma StepKeeps<R, A, B>(shape: Shape<R, A, B>, start: int, w: World<R, A, B>, step: Step<R>)
    requires Inv(shape, start, w) && Enabled(w, step) && (step.Insert? ==> !FirstSecond(step.r.at))
    ensures Inv(shape, start, Next(shape, w, step))
  {
    match step
    case Insert(r) => InsertKeeps(shape, start, w, r);
    case Read(now) => ReadKeeps(shape, start, w, now);
    case Commit(now) => CommitKeeps(shape, start, w, now);
    case Abandon =>
  }

  ghost predicate StepsTo<R, A, B>(shape: Shape<R, A, B>, w: World<R, A, B>, step: Step<R>, w': World<R, A, B>) {
    Enabled(w, step) && w' == Next(shape, w, step)
  }

  ghost predicate IsRun<R, A, B>(shape: Shape<R, A, B>, states: seq<World<R, A, B>>, steps: seq<Step<R>>, clock: int) {
    && |states| == |steps| + 1 && states[0] == Empty(clock)
    && forall i :: 0 <= i < |steps| ==> StepsTo(shape, states[i], steps[i], states[i + 1])
  }

  /** No row of the run is stamped within the first second of an hour. */
  ghost predicate PastFirstSeconds<R>(steps: seq<Step<R>>) {
    forall i :: 0 <= i < |steps| && steps[i].Insert? ==> !FirstSecond(steps[i].r.at)
  }

  lemma {:induction false} Reached<R, A, B>(
      shape: Shape<R, A, B>, states: seq<World<R, A, B>>, steps: seq<Step<R>>, clock: int, k: nat)
    requires IsRun(shape, states, steps, clock) && PastFirstSeconds(steps) && k < |states|
    ensures Inv(shape, HourOf(clock), states[k])
  {
    if k > 0 {
      Reached(shape, states, steps, clock, k - 1);
      assert StepsTo(shape, states[k - 1], steps[k - 1], states[k]);
      StepKeeps(shape, HourOf(clock), states[k - 1], steps[k - 1]);
    }
  }

  /** Conservation: in every run a rolled hour holds the fold of all the rows
      ever recorded in it, exactly the hours before the mark that have rows are
      rolled, and none before it is over. */
  lemma RolledHoursAreExact<R, A, B>(
      shape: Shape<R, A, B>, states: seq<World<R, A, B>>, steps: seq<Step<R>>, clock: int, k: nat, key: Key)
    requires IsRun(shape, states, steps, clock) && PastFirstSeconds(steps) && k < |states|
    ensures var w := states[k];
            && (key in w.tables.hourly ==> w.tables.hourly[key] == HourRow(shape, w.log, key))
            && (key in w.tables.hourly <==> Group(w.log, key) != [] && key.hour < w.mark)
            && (key in w.tables.hourly ==> (key.hour + 1) * 3_600_000 <= w.clock)
  {
    Reached(shape, states, steps, clock, k);
    GroupIsEmpty(states[k].log, key);
    if key in Keys(states[k].log) {
      var i :| 0 <= i < |states[k].log| && KeyOf(states[k].log[i]) == key;
    }
  }

  /** What a rollup has read stays read while rows come in. */
  lemma {:induction false} ReadingStays<R, A, B>(
      shape: Shape<R, A, B>, states: seq<World<R, A, B>>, steps: seq<Step<R>>, clock: int, j: nat, k: nat)
    requires IsRun(shape, states, steps, clock) && j < k < |states| && steps[j].Read?
    requires forall i :: j < i < k ==> steps[i].Insert?
    ensures states[k].reading.Some? && states[k].reading.value.hour == HourOf(steps[j].now)
    ensures forall r :: r in states[j].log ==> r in states[k].log
    decreases k
  {
    assert StepsTo(shape, states[k - 1], steps[k - 1], states[k]);
    if j < k - 1 {
      ReadingStays(shape, states, steps, clock, j, k - 1);
    }
  }

  /** A rollup that goes through has rolled every row there was in the hours
      before the one it began in. */
  lemma RollupIsComplete<R, A, B>(
      shape: Shape<R, A, B>, states: seq<World<R, A, B>>, steps: seq<Step<R>>, clock: int, j: nat, k: nat, r: Raw<R>)
    requires IsRun(shape, states, steps, clock) && PastFirstSeconds(steps)
    requires j < k < |steps| && steps[j].Read? && steps[k].Commit? && forall i :: j < i < k ==> steps[i].Insert?
    requires r in states[j].log && r.at < steps[j].now / 3_600_000 * 3_600_000
    ensures Key(r.host, r.at / 3_600_000) in states[k + 1].tables.hourly
  {
    ReadingStays(shape, states, steps, clock, j, k);
    Reached(shape, states, steps, clock, k + 1);
    assert StepsTo(shape, states[k], steps[k], states[k + 1]);
    var w := states[k + 1];
    var i :| 0 <= i < |w.log| && w.log[i] == r;
    assert KeyOf(w.log[i]) in Keys(w.log);
  }

  /** A rollup in progress is about hours not rolled yet, whatever the times. */
  ghost predicate NewHoursOnly<R, A, B>(w: World<R, A, B>) {
    w.reading.Some? ==> w.reading.value.accs.Keys !! w.tables.hourly.Keys
  }

  lemma SelectedAreNew<R, B>(t: Tables<R, B>, now: int)
    ensures Keys(Selected(t, now)) !! t.hourly.Keys
  {
    var rows := Selected(t, now);
    forall i | 0 <= i < |rows|
      ensures KeyOf(rows[i]) !in t.hourly
    {
      FilterPasses(t.raw, RollNow(t.hourly, now), rows[i]);
      assert rows[i] in rows && ToRoll(t.hourly, now, rows[i]);
    }
  }

  lemma StepKeepsHours<R, A, B>(shape: Shape<R, A, B>, w: World<R, A, B>, step: Step<R>)
    requires NewHoursOnly(w) && Enabled(w, step)
    ensures NewHoursOnly(Next(shape, w, step))
    ensures forall k :: k in w.tables.hourly ==>
              k in Next(shape, w, step).tables.hourly && Next(shape, w, step).tables.hourly[k] == w.tables.hourly[k]
  {
    if step.Read? {
      SelectedAreNew(w.tables, step.now);
    }
  }

  lemma {:induction false} AlwaysNew<R, A, B>(
      shape: Shape<R, A, B>, states: seq<World<R, A, B>>, steps: seq<Step<R>>, clock: int, k: nat)
    requires IsRun(shape, states, steps, clock) && k < |states|
    ensures NewHoursOnly(states[k])
  {
    if k > 0 {
      AlwaysNew(shape, states, steps, clock, k - 1);
      assert StepsTo(shape, states[k - 1], steps[k - 1], states[k]);
      StepKeepsHours(shape, states[k - 1], steps[k - 1]);
    }
  }

  /** A rolled hour is never rewritten, and a rollup inserts only new hours. */
  lemma {:induction false} NeverRewritten<R, A, B>(
      shape: Shape<R, A, B>, states: seq<World<R, A, B>>, steps: seq<Step<R>>, clock: int, i: nat, j: nat, key: Key)
    requires IsRun(shape, states, steps, clock) && i <= j < |states| && key in states[i].tables.hourly
    ensures key in states[j].tables.hourly && states[j].tables.hourly[key] == states[i].tables.hourly[key]
    ensures states[j].reading.Some? ==> key !in states[j].reading.value.accs
    decreases j
  {
    AlwaysNew(shape, states, steps, clock, j);
    if i < j {
      NeverRewritten(shape, states, steps, clock, i, j - 1, key);
      AlwaysNew(shape, states, steps, clock, j - 1);
      assert StepsTo(shape, states[j - 1], steps[j - 1], states[j]);
      StepKeepsHours(shape, states[j - 1], steps[j - 1]);
    }
  }

  /** No raw row is dropped before its hour is rolled. */
  lemma NothingIsLost<R, A, B>(
      shape: Shape<R, A, B>, states: seq<World<R, A, B>>, steps: seq<Step<R>>, clock: int, k: nat, r: Raw<R>)
    requires IsRun(shape, states, steps, clock) && PastFirstSeconds(steps) && k < |states| && r in states[k].log
    ensures r in states[k].tables.raw || KeyOf(r) in states[k].tables.hourly
  {
    Reached(shape, states, steps, clock, k);
    var w := states[k];
    var i :| 0 <= i < |w.log| && w.log[i] == r;
    if r.at >= w.cut {
      FilterPasses(w.log, Since(w.cut), r);
    } else {
      assert KeyOf(w.log[i]) in Keys(w.log);
    }
  }

  // ---------------------------------------------------------------- the first second

  /** Once an hour is rolled no rollup of any run reads a row of it again, rolled
      with it or not. */
  lemma NeverReadAgain<R, A, B>(
      shape: Shape<R, A, B>, states: seq<World<R, A, B>>, steps: seq<Step<R>>, clock: int, i: nat, j: nat, r: Raw<R>, now: int)
    requires IsRun(shape, states, steps, clock) && i <= j < |states| && KeyOf(r) in states[i].tables.hourly
    ensures !ToRoll(states[j].tables.hourly, now, r)
  {
    NeverRewritten(shape, states, steps, clock, i, j, KeyOf(r));
  }

  /** A row of the first second of the present hour, alone in the table. */
  lemma ReadTooEarly<R, A, B>(shape: Shape<R, A, B>, t: Tables<R, B>, r: Raw<R>)
    requires FirstSecond(r.at) && t == Tables([r], map[])
    ensures Accs(shape, Selected(t, r.at)) == map[KeyOf(r) := Fold(shape, [r])]
  {
    assert Init([r]) == [];
    assert RollNow(t.hourly, r.at)(r);
    assert Filter([], RollNow(t.hourly, r.at)) + [r] == [r];
    assert Selected(t, r.at) == [r];
    assert [r][0] == r;
    assert Keys([r]) == {KeyOf(r)};
    GroupSnoc([], r, KeyOf(r));
    assert [] + [r] == [r];
  }

  /** The four steps of a run that rolls an hour too early: a row in the first
      second, a rollup in that second, a second row. */
  function EarlySteps<R>(r: Raw<R>, later: Raw<R>): seq<Step<R>> {
    [Insert(r), Read(r.at), Commit(r.at), Insert(later)]
  }

  lemma CommittedTooEarly<R, A, B>(shape: Shape<R, A, B>, w: World<R, A, B>, r: Raw<R>)
    requires w.tables == Tables([r], map[]) && w.clock == r.at
    requires w.reading == Some(Reading(map[KeyOf(r) := Fold(shape, [r])], HourOf(r.at)))
    ensures Enabled(w, Commit(r.at))
    ensures var v := Next(shape, w, Commit(r.at));
            v.log == w.log && v.clock == r.at && v.tables.hourly == map[KeyOf(r) := shape.finish(Fold(shape, [r]))]
  {
    var accs := w.reading.value.accs;
    assert Finished(shape, accs, accs.Keys) == map[KeyOf(r) := shape.finish(Fold(shape, [r]))];
  }

  lemma FourSteps<R, A, B>(
      shape: Shape<R, A, B>, states: seq<World<R, A, B>>, steps: seq<Step<R>>, clock: int)
    requires |states| == 5 && |steps| == 4 && states[0] == Empty(clock)
    requires StepsTo(shape, states[0], steps[0], states[1]) && StepsTo(shape, states[1], steps[1], states[2])
    requires StepsTo(shape, states[2], steps[2], states[3]) && StepsTo(shape, states[3], steps[3], states[4])
    ensures IsRun(shape, states, steps, clock)
  {
    forall i | 0 <= i < |steps|
      ensures StepsTo(shape, states[i], steps[i], states[i + 1])
    {
      assert i == 0 || i == 1 || i == 2 || i == 3;
    }
  }

  lemma FirstTwoSteps<R, A, B>(shape: Shape<R, A, B>, r: Raw<R>) returns (w1: World<R, A, B>, w2: World<R, A, B>)
    requires FirstSecond(r.at)
    ensures StepsTo(shape, Empty(r.at), Insert(r), w1) && StepsTo(shape, w1, Read(r.at), w2)
    ensures w2.log == [r] && w2.tables == Tables([r], map[]) && w2.clock == r.at
    ensures w2.reading == Some(Reading(map[KeyOf(r) := Fold(shape, [r])], HourOf(r.at)))
  {
    var w0: World<R, A, B> := Empty(r.at);
    w1 := Next(shape, w0, Insert(r));
    assert w1.log == [r] && w1.tables == Tables([r], map[]);
    ReadTooEarly(shape, w1.tables, r);
    w2 := Next(shape, w1, Read(r.at));
  }

  lemma LastTwoSteps<R, A, B>(shape: Shape<R, A, B>, w2: World<R, A, B>, r: Raw<R>, later: Raw<R>)
    returns (w3: World<R, A, B>, w4: World<R, A, B>)
    requires w2.log == [r] && w2.tables == Tables([r], map[]) && w2.clock == r.at <= later.at
    requires w2.reading == Some(Reading(map[KeyOf(r) := Fold(shape, [r])], HourOf(r.at)))
    ensures StepsTo(shape, w2, Commit(r.at), w3) && StepsTo(shape, w3, Insert(later), w4)
    ensures w4.log == [r, later] && w4.tables.hourly == map[KeyOf(r) := shape.finish(Fold(shape, [r]))]
  {
    CommittedTooEarly(shape, w2, r);
    w3 := Next(shape, w2, Commit(r.at));
    w4 := Next(shape, w3, Insert(later));
    assert [r] + [later] == [r, later];
  }

  lemma RolledTooEarly<R, A, B>(shape: Shape<R, A, B>, r: Raw<R>, later: Raw<R>) returns (states: seq<World<R, A, B>>)
    requires FirstSecond(r.at) && r.at <= later.at
    ensures IsRun(shape, states, EarlySteps(r, later), r.at)
    ensures states[4].log == [r, later] && states[4].tables.hourly == map[KeyOf(r) := shape.finish(Fold(shape, [r]))]
  {
    var w1, w2 := FirstTwoSteps(shape, r);
    var w3, w4 := LastTwoSteps(shape, w2, r, later);
    states := [Empty(r.at), w1, w2, w3, w4];
    FourSteps(shape, states, EarlySteps(r, later), r.at);
  }
}
