/** `Stage` of hub/internal/backup/backup.go, which lays an export's files out under
    the state directory, and what a hub that dies in it leaves for `Apply`. */
module Staging {
  import opened Restore
  import opened Sequences
  import opened Walk

  datatype Entry = Entry(path: Path, content: string)

  /** What the first n entries leave; a later one of the same name replaces an
      earlier. */
  function Laid(entries: seq<Entry>, n: nat): Files
    requires n <= |entries|
  {
    if n == 0 then map[] else Laid(entries, n - 1)[entries[n - 1].path := entries[n - 1].content]
  }

  /** The staging directory, how many entries are done, and how many bytes of the
      next are written once its file is there. */
  datatype Stage = Stage(staged: Files, done: nat, open: Option<nat>)

  const EMPTY := Stage(map[], 0, None)

  datatype Step = Create | Write(n: nat) | Close

  predicate Enabled(entries: seq<Entry>, s: Stage, step: Step) {
    && s.done < |entries|
    && match step
       case Create => s.open.None?
       case Write(n) => s.open.Some? && s.open.value + n <= |entries[s.done].content|
       case Close => s.open == Some(|entries[s.done].content|)
  }

  function Next(entries: seq<Entry>, s: Stage, step: Step): Stage
    requires Enabled(entries, s, step)
  {
    var e := entries[s.done];
    match step
    case Create => s.(staged := s.staged[e.path := ""], open := Some(0))
    case Write(n) =>
      s.(staged := s.staged[e.path := e.content[..s.open.value + n]], open := Some(s.open.value + n))
    case Close => s.(done := s.done + 1, open := None)
  }

  ghost predicate IsRun(entries: seq<Entry>, states: seq<Stage>, steps: seq<Step>) {
    && |states| == |steps| + 1 && states[0] == EMPTY
    && forall i :: 0 <= i < |steps| ==> Enabled(entries, states[i], steps[i]) && states[i + 1] == Next(entries, states[i], steps[i])
  }

  /** The entries done, and a first part of the next. */
  ghost predicate Inv(entries: seq<Entry>, s: Stage) {
    && s.done <= |entries|
    && (s.open.None? ==> s.staged == Laid(entries, s.done))
    && (s.open.Some? ==>
          && s.done < |entries| && s.open.value <= |entries[s.done].content|
          && s.staged == Laid(entries, s.done)[entries[s.done].path := entries[s.done].content[..s.open.value]])
  }

  lemma StepKeepsInv(entries: seq<Entry>, s: Stage, step: Step)
    requires Inv(entries, s) && Enabled(entries, s, step)
    ensures Inv(entries, Next(entries, s, step))
  {
    var e := entries[s.done];
    assert e.content[..0] == "" && e.content[..|e.content|] == e.content;
  }

  lemma {:induction false} Reached(entries: seq<Entry>, states: seq<Stage>, steps: seq<Step>, k: nat)
    requires IsRun(entries, states, steps) && k < |states|
    ensures Inv(entries, states[k])
  {
    if k > 0 {
      Reached(entries, states, steps, k - 1);
      assert Enabled(entries, states[k - 1], steps[k - 1]);
      StepKeepsInv(entries, states[k - 1], steps[k - 1]);
    }
  }

  /** Until every entry is done there is something to do: the next file is created,
      all its missing bytes can be written, and then it is closed. */
  lemma GoesOn(entries: seq<Entry>, states: seq<Stage>, steps: seq<Step>, k: nat)
    requires IsRun(entries, states, steps) && k < |states| && states[k].done < |entries|
    ensures states[k].open.None? ==> Enabled(entries, states[k], Create)
    ensures states[k].open.Some? ==>
              && states[k].open.value <= |entries[states[k].done].content|
              && var rest := Write(|entries[states[k].done].content| - states[k].open.value);
                 Enabled(entries, states[k], rest) && Enabled(entries, Next(entries, states[k], rest), Close)
  {
    Reached(entries, states, steps, k);
  }

  ghost predicate NamesDiffer(entries: seq<Entry>) {
    forall i, j :: 0 <= i < j < |entries| ==> entries[i].path != entries[j].path
  }

  lemma {:induction false} LaidHas(entries: seq<Entry>, n: nat, p: Path)
    requires n <= |entries|
    ensures p in Laid(entries, n) <==> exists i :: 0 <= i < n && entries[i].path == p
    decreases n
  {
    if n > 0 {
      LaidHas(entries, n - 1, p);
    }
  }

  lemma {:induction false} LaidAt(entries: seq<Entry>, n: nat, i: nat)
    requires i < n <= |entries| && NamesDiffer(entries)
    ensures entries[i].path in Laid(entries, n) && Laid(entries, n)[entries[i].path] == entries[i].content
    decreases n
  {
    if i < n - 1 {
      LaidAt(entries, n - 1, i);
    }
  }

  /** Every byte of the last entry is written. */
  predicate LastIsFinished(entries: seq<Entry>, s: Stage) {
    s.done == |entries| || (s.done == |entries| - 1 && s.open == Some(|entries[s.done].content|))
  }

  lemma WholeWhenFinished(entries: seq<Entry>, s: Stage)
    requires Inv(entries, s) && LastIsFinished(entries, s)
    ensures s.staged == Laid(entries, |entries|)
  {
    if s.done < |entries| {
      assert entries[s.done].content[..s.open.value] == entries[s.done].content;
    }
  }

  lemma NotWholeBefore(entries: seq<Entry>, s: Stage)
    requires Inv(entries, s) && !LastIsFinished(entries, s) && NamesDiffer(entries)
    ensures s.staged != Laid(entries, |entries|)
  {
    var last := |entries| - 1;
    LaidAt(entries, |entries|, last);
    if s.open.Some? && s.done == last {
      assert s.staged[entries[last].path] == entries[last].content[..s.open.value];
    } else {
      LaidHas(entries, s.done, entries[last].path);
      assert entries[last].path !in s.staged;
    }
  }

  /** A hub may die at any moment of Stage, and the next start applies what is
      there.  Whatever the live files were, that is the intended restore exactly
      when every byte of the export's last entry had been written. */
  lemma DiesWhileStaging(entries: seq<Entry>, states: seq<Stage>, steps: seq<Step>, k: nat)
    requires IsRun(entries, states, steps) && k < |states| && NamesDiffer(entries)
    ensures (forall live :: Restored(live, states[k].staged) == Restored(live, Laid(entries, |entries|)))
       <==> LastIsFinished(entries, states[k])
  {
    Reached(entries, states, steps, k);
    OnlyTheWholeWillDo(states[k].staged, Laid(entries, |entries|));
    if LastIsFinished(entries, states[k]) {
      WholeWhenFinished(entries, states[k]);
    } else {
      NotWholeBefore(entries, states[k]);
    }
  }
}
