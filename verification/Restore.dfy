/** A staged restore, applied at start: hub/internal/backup/backup.go and
    hub/cmd/homedash/main.go.

    Apply moves every staged file over the live one, a database's stale journals
    out of the way first, and removes the staging directory.  The hub may die
    between any two file operations; the next start runs Apply again. */
module Restore {
  import opened Walk

  type Files = map<Path, string>

  // ---------------------------------------------------------------- what a restore should do

  predicate IsDb(p: Path) {
    |p.name| >= 3 && p.name[|p.name| - 3..] == ".db"
  }

  predicate IsJournalOf(k: Path, p: Path) {
    IsDb(p) && (k == Beside(p, "-wal") || k == Beside(p, "-shm"))
  }

  /** The journals of the databases among these files. */
  function Journals(staged: Files): (ks: set<Path>)
    ensures forall k :: k in ks <==> exists p :: p in staged && IsJournalOf(k, p)
  {
    var wals := set p | p in staged && IsDb(p) :: Beside(p, "-wal");
    var shms := set p | p in staged && IsDb(p) :: Beside(p, "-shm");
    assert forall k :: k in wals + shms ==> exists p :: p in staged && IsJournalOf(k, p);
    assert forall k, p :: p in staged && IsJournalOf(k, p) ==> k in wals + shms;
    wals + shms
  }

  /** The live files after a restore: the staged ones over the old ones, less
      the journals of every restored database. */
  function Restored(live: Files, staged: Files): Files {
    (live - Journals(staged)) + staged
  }

  /** A file that goes with a database of the same directory: its name and "-wal",
      or its name and "-shm". */
  ghost predicate GoesWith(k: Path, p: Path) {
    k.dir == p.dir && (k.name == p.name + "-wal" || k.name == p.name + "-shm")
    && exists base: string :: p.name == base + ".db"
  }

  lemma JournalIs(k: Path, p: Path)
    ensures IsJournalOf(k, p) <==> GoesWith(k, p)
  {
    if IsDb(p) {
      assert p.name == p.name[..|p.name| - 3] + ".db";
    }
  }

  /** File by file: a staged file is as staged, a file not staged stays as it was
      unless it goes with a staged database, and there is nothing else. */
  lemma RestoredExactly(live: Files, staged: Files, k: Path)
    ensures k in staged ==> k in Restored(live, staged) && Restored(live, staged)[k] == staged[k]
    ensures k !in staged ==> (k in Restored(live, staged) <==> k in live && !exists p :: p in staged && GoesWith(k, p))
    ensures k !in staged && k in Restored(live, staged) ==> Restored(live, staged)[k] == live[k]
  {
    forall p
      ensures IsJournalOf(k, p) <==> GoesWith(k, p)
    {
      JournalIs(k, p);
    }
  }

  // ---------------------------------------------------------------- file operations

  datatype Phase = DropWal | DropShm | Move

  /** Where a running Apply stands: what it has still to visit, or clearing up. */
  datatype Progress = Idle | Walking(left: seq<Path>, phase: Phase) | Clearing

  datatype Disk = Disk(live: Files, staged: Files, pending: bool, progress: Progress)

  datatype Step = Begin(walk: seq<Path>) | Work | Crash

  ghost predicate Enabled(d: Disk, step: Step) {
    match step
    case Begin(walk) => d.progress == Idle && d.pending && Listing(walk, d.staged.Keys)
    case Work => d.progress != Idle && (d.progress.Walking? && d.progress.left != [] ==> d.progress.left[0] in d.staged)
    case Crash => true
  }

  function Next(d: Disk, step: Step): Disk
    requires step.Work? ==> d.progress != Idle
    requires step.Work? && d.progress.Walking? && d.progress.left != [] ==> d.progress.left[0] in d.staged
  {
    match step
    case Begin(walk) => d.(progress := Walking(walk, DropWal))
    case Crash => d.(progress := Idle)
    case Work =>
      if d.progress.Clearing? then Disk(d.live, map[], false, Idle)
      else if d.progress.left == [] then d.(progress := Clearing)
      else
        var p := d.progress.left[0];
        match d.progress.phase
        case DropWal =>
          if IsDb(p) then d.(live := d.live - {Beside(p, "-wal")}, progress := d.progress.(phase := DropShm))
          else d.(progress := d.progress.(phase := Move))
        case DropShm => d.(live := d.live - {Beside(p, "-shm")}, progress := d.progress.(phase := Move))
        case Move =>
          d.(live := d.live[p := d.staged[p]], staged := d.staged - {p},
             progress := Walking(d.progress.left[1..], DropWal))
  }

  // ---------------------------------------------------------------- the invariant

  /** The journals of the database about to be moved that are already gone. */
  ghost predicate JournalsGone(d: Disk) {
    d.progress.Walking? && d.progress.left != [] && IsDb(d.progress.left[0]) ==>
      && (d.progress.phase != DropWal ==> Beside(d.progress.left[0], "-wal") !in d.live)
      && (d.progress.phase == Move ==> Beside(d.progress.left[0], "-shm") !in d.live)
  }

  ghost predicate Inv(goal: Files, d: Disk) {
    && Restored(d.live, d.staged) == goal
    && (d.progress.Walking? ==> Listing(d.progress.left, d.staged.Keys))
    && (d.progress.Walking? && d.progress.left != [] && !IsDb(d.progress.left[0]) ==> d.progress.phase != DropShm)
    && JournalsGone(d)
    && (d.progress.Clearing? ==> d.staged == map[])
    && (!d.pending ==> d.staged == map[] && d.progress == Idle)
  }

  lemma DropKeepsGoal(live: Files, staged: Files, p: Path, k: Path)
    requires p in staged && IsJournalOf(k, p)
    ensures Restored(live - {k}, staged) == Restored(live, staged)
  {
    assert k in Journals(staged);
    assert (live - {k}) - Journals(staged) == live - Journals(staged);
  }

  /** No file still to be moved has the next one for a journal. */
  lemma NextIsNoJournal(staged: Files, walk: seq<Path>)
    requires Listing(walk, staged.Keys) && walk != []
    ensures walk[0] !in Journals(staged - {walk[0]})
  {
    var p := walk[0];
    if q :| q in staged - {p} && IsJournalOf(p, q) {
      var j :| 0 <= j < |walk| && walk[j] == q;
      assert Before(p, q);
      ExtendedNameComesLater(q, "-wal");
      ExtendedNameComesLater(q, "-shm");
      assert false;
    }
  }

  lemma JournalsWithout(staged: Files, p: Path, k: Path)
    requires p in staged
    ensures k in Journals(staged) <==> k in Journals(staged - {p}) || IsJournalOf(k, p)
  {
    if k in Journals(staged) && !IsJournalOf(k, p) {
      var q :| q in staged && IsJournalOf(k, q);
      assert q in staged - {p};
    }
    if k in Journals(staged - {p}) {
      var q :| q in staged - {p} && IsJournalOf(k, q);
      assert q in staged;
    }
  }

  lemma MoveOver(live: Files, staged: Files, p: Path, before: set<Path>, after: set<Path>)
    requires p in staged && p !in after && after <= before
    requires forall k :: k in before && k !in after ==> k !in live
    ensures (live[p := staged[p]] - after) + (staged - {p}) == (live - before) + staged
  {
  }

  /** The rename is the one step that changes what is staged. */
  lemma MoveKeepsGoal(live: Files, staged: Files, walk: seq<Path>)
    requires Listing(walk, staged.Keys) && walk != []
    requires forall k :: IsJournalOf(k, walk[0]) ==> k !in live
    ensures Restored(live[walk[0] := staged[walk[0]]], staged - {walk[0]}) == Restored(live, staged)
  {
    var p := walk[0];
    NextIsNoJournal(staged, walk);
    var before, after := Journals(staged), Journals(staged - {p});
    forall k
      ensures k in before <==> k in after || IsJournalOf(k, p)
    {
      JournalsWithout(staged, p, k);
    }
    MoveOver(live, staged, p, before, after);
  }

  lemma ListingTail(walk: seq<Path>, staged: Files)
    requires Listing(walk, staged.Keys) && walk != []
    ensures Listing(walk[1..], (staged - {walk[0]}).Keys)
  {
    forall p | p in staged - {walk[0]}
      ensures p in walk[1..]
    {
      var j :| 0 <= j < |walk| && walk[j] == p;
      assert walk[1..][j - 1] == p;
    }
  }

  lemma StepKeepsInv(goal: Files, d: Disk, step: Step)
    requires Inv(goal, d) && Enabled(d, step)
    ensures Inv(goal, Next(d, step))
  {
    if step.Work? && d.progress.Walking? {
      var left := d.progress.left;
      if left == [] {
        assert d.staged == map[];
      } else {
        match d.progress.phase
        case DropWal => if IsDb(left[0]) { DropKeepsGoal(d.live, d.staged, left[0], Beside(left[0], "-wal")); }
        case DropShm => DropKeepsGoal(d.live, d.staged, left[0], Beside(left[0], "-shm"));
        case Move =>
          MoveKeepsGoal(d.live, d.staged, left);
          ListingTail(left, d.staged);
      }
    }
  }

  ghost predicate IsRun(states: seq<Disk>, steps: seq<Step>) {
    && |states| == |steps| + 1 && states[0].pending && states[0].progress == Idle
    && forall i :: 0 <= i < |steps| ==> Enabled(states[i], steps[i]) && states[i + 1] == Next(states[i], steps[i])
  }

  lemma {:induction false} Reached(states: seq<Disk>, steps: seq<Step>, k: nat)
    requires IsRun(states, steps) && k < |states|
    ensures Inv(Restored(states[0].live, states[0].staged), states[k])
  {
    if k > 0 {
      Reached(states, steps, k - 1);
      assert Enabled(states[k - 1], steps[k - 1]);
      StepKeepsInv(Restored(states[0].live, states[0].staged), states[k - 1], steps[k - 1]);
    }
  }

  /** Restore survives crashes: however often the hub dies and starts again, and
      between whichever operations, once the staging directory is gone the live
      files are those of a restore nothing interrupted. */
  lemma RestoreSurvivesCrashes(states: seq<Disk>, steps: seq<Step>, k: nat)
    requires IsRun(states, steps) && k < |states| && !states[k].pending
    ensures states[k].live == Restored(states[0].live, states[0].staged) && states[k].staged == map[]
  {
    Reached(states, steps, k);
    assert Journals(map[]) == {};
    assert states[k].live - {} == states[k].live;
  }

  /** What is left to do: the staged files, and within one the operations left. */
  ghost function Remaining(d: Disk): (nat, nat) {
    (|d.staged|, match d.progress
                 case Idle => if d.pending then 5 else 0
                 case Walking(_, phase) => (match phase case DropWal => 4 case DropShm => 3 case Move => 2)
                 case Clearing => 1)
  }

  ghost predicate Less(a: (nat, nat), b: (nat, nat)) {
    a.0 < b.0 || (a.0 == b.0 && a.1 < b.1)
  }

  lemma StepMakesProgress(d: Disk, step: Step)
    requires d.progress.Clearing? ==> d.staged == map[]
    requires step.Begin? ==> d.progress == Idle && d.pending
    requires step.Work? ==> d.progress != Idle
    requires step.Work? && d.progress.Walking? && d.progress.left != [] ==> d.progress.left[0] in d.staged
    ensures step != Crash ==> Less(Remaining(Next(d, step)), Remaining(d))
    ensures Remaining(Next(d, step)).0 <= Remaining(d).0
  {
    if step.Work? && d.progress.Walking? && d.progress.left != [] && d.progress.phase == Move {
      assert (d.staged - {d.progress.left[0]}).Keys == d.staged.Keys - {d.progress.left[0]};
    }
  }

  /** Every operation makes progress, and a crash loses no more than the place
      in the file at hand: no staged file ever comes back. */
  lemma WorkMakesProgress(states: seq<Disk>, steps: seq<Step>, k: nat)
    requires IsRun(states, steps) && k < |steps|
    ensures steps[k] != Crash ==> Less(Remaining(states[k + 1]), Remaining(states[k]))
    ensures Remaining(states[k + 1]).0 <= Remaining(states[k]).0
  {
    Reached(states, steps, k);
    assert Enabled(states[k], steps[k]);
    StepMakesProgress(states[k], steps[k]);
  }

  lemma {:induction false} StagedShrinks(states: seq<Disk>, steps: seq<Step>, k: nat)
    requires IsRun(states, steps) && k < |states|
    ensures states[k].staged.Keys <= states[0].staged.Keys
  {
    if k > 0 {
      StagedShrinks(states, steps, k - 1);
      assert Enabled(states[k - 1], steps[k - 1]);
    }
  }

  /** And there is always an operation to do until the staging directory is gone:
      whatever tree of files is left, WalkDir can visit it. */
  lemma NeverStuck(states: seq<Disk>, steps: seq<Step>, k: nat)
    requires IsRun(states, steps) && k < |states| && states[k].pending && IsTree(states[0].staged.Keys)
    ensures Enabled(states[k], Work) || exists walk :: Enabled(states[k], Begin(walk))
  {
    Reached(states, steps, k);
    if states[k].progress == Idle {
      StagedShrinks(states, steps, k);
      var walk := WalkExists(states[k].staged.Keys);
      assert Enabled(states[k], Begin(walk));
    }
  }

  // ---------------------------------------------------------------- Apply itself

  /** The live files when staged file p has been moved over. */
  function Moved(live: Files, staged: Files, p: Path): Files
    requires p in staged
  {
    (if IsDb(p) then live - {Beside(p, "-wal")} - {Beside(p, "-shm")} else live)[p := staged[p]]
  }

  lemma MovedKeepsGoal(live: Files, staged: Files, walk: seq<Path>)
    requires Listing(walk, staged.Keys) && walk != []
    ensures Restored(Moved(live, staged, walk[0]), staged - {walk[0]}) == Restored(live, staged)
  {
    var p := walk[0];
    if IsDb(p) {
      DropKeepsGoal(live, staged, p, Beside(p, "-wal"));
      DropKeepsGoal(live - {Beside(p, "-wal")}, staged, p, Beside(p, "-shm"));
      MoveKeepsGoal(live - {Beside(p, "-wal")} - {Beside(p, "-shm")}, staged, walk);
    } else {
      MoveKeepsGoal(live, staged, walk);
    }
  }

  class StateDir {
    var live: Files
    var staged: Files
    var pending: bool

    constructor (live: Files, staged: Files, pending: bool)
      ensures this.live == live && this.staged == staged && this.pending == pending
    {
      this.live, this.staged, this.pending := live, staged, pending;
    }

    method ApplyFile(p: Path)
      requires p in staged
      modifies this`live, this`staged
      ensures live == Moved(old(live), old(staged), p) && staged == old(staged) - {p}
    {
      if IsDb(p) {
        live := live - {Beside(p, "-wal")};
        live := live - {Beside(p, "-shm")};
      }
      live := live[p := staged[p]];
      staged := staged - {p};
    }

    /** An uninterrupted Apply; `walk` is what WalkDir visits. */
    method Apply(walk: seq<Path>) returns (restored: bool)
      requires Listing(walk, staged.Keys)
      modifies this
      ensures restored == old(pending)
      ensures !restored ==> live == old(live) && staged == old(staged)
      ensures restored ==> live == Restored(old(live), old(staged)) && staged == map[] && !pending
    {
      if !pending {
        return false;
      }
      var left := walk;
      while left != []
        invariant pending && Listing(left, staged.Keys)
        invariant Restored(live, staged) == Restored(old(live), old(staged))
        decreases |left|
      {
        MovedKeepsGoal(live, staged, left);
        ListingTail(left, staged);
        ApplyFile(left[0]);
        left := left[1..];
      }
      NothingStaged(live, staged);
      staged := map[];
      pending := false;
      return true;
    }
  }

  lemma NothingStaged(live: Files, staged: Files)
    requires Listing([], staged.Keys)
    ensures Restored(live, staged) == live
  {
    assert staged == map[] && Journals(map[]) == {};
    assert live - {} == live;
  }

  // ---------------------------------------------------------------- an incomplete staging directory

  /** What applying an incomplete staging directory gives: the intended live files
      exactly when what is there is as it should be, the live files already had
      what is missing, and no journal is left that should have gone. */
  lemma PartialStage(live: Files, partial: Files, full: Files)
    requires partial.Keys <= full.Keys
    ensures Restored(live, partial) == Restored(live, full) <==>
              && (forall p :: p in partial ==> partial[p] == full[p])
              && (forall p :: p in full && p !in partial ==> p in live && live[p] == full[p] && p !in Journals(partial))
              && (forall k :: k in Journals(full) && k !in Journals(partial) && k !in full ==> k !in live)
  {
    forall k | k in Journals(partial)
      ensures k in Journals(full)
    {
      var p :| p in partial && IsJournalOf(k, p);
      assert p in full;
    }
    if Restored(live, partial) == Restored(live, full) {
      forall p | p in partial
        ensures partial[p] == full[p]
      {
        assert Restored(live, partial)[p] == partial[p] && Restored(live, full)[p] == full[p];
      }
      forall p | p in full && p !in partial
        ensures p in live && live[p] == full[p] && p !in Journals(partial)
      {
        assert p in Restored(live, full);
      }
      forall k | k in Journals(full) && k !in Journals(partial) && k !in full
        ensures k !in live
      {
        assert k !in Restored(live, full);
      }
    }
  }

  /** Whatever the live files, what is staged comes to the intended restore only
      when it is all there. */
  lemma OnlyTheWholeWillDo(partial: Files, full: Files)
    ensures (forall live :: Restored(live, partial) == Restored(live, full)) <==> partial == full
  {
    if forall live :: Restored(live, partial) == Restored(live, full) {
      var none: Files := map[];
      assert Restored(none, partial) == partial && Restored(none, full) == full;
    }
  }
}
