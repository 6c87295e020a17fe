/** The order in which filepath.WalkDir visits a tree of files, as
    hub/internal/backup/backup.go relies on it. */
module Walk {
  /** A file under the state directory, and its path as WalkDir orders it. */
  datatype Path = Path(dir: seq<string>, name: string)

  /** They agree up to i, where a ends or has the smaller character. */
  ghost predicate TextBeforeAt(a: string, b: string, i: nat) {
    && i <= |a| && i < |b| && a[..i] == b[..i]
    && (i < |a| ==> a[i] < b[i])
  }

  ghost predicate TextBefore(a: string, b: string) {
    exists i: nat :: TextBeforeAt(a, b, i)
  }

  function Names(p: Path): seq<string> {
    p.dir + [p.name]
  }

  ghost predicate BeforeAt(a: seq<string>, b: seq<string>, i: nat) {
    i < |a| && i < |b| && a[..i] == b[..i] && TextBefore(a[i], b[i])
  }

  /** Directory by directory, names in lexical order. */
  ghost predicate Before(p: Path, q: Path) {
    exists i: nat :: BeforeAt(Names(p), Names(q), i)
  }

  function Beside(p: Path, suffix: string): Path {
    Path(p.dir, p.name + suffix)
  }

  lemma ExtensionIsNotBefore(a: string, suffix: string)
    ensures !TextBefore(a + suffix, a)
  {
    forall i: nat | i < |a|
      ensures !TextBeforeAt(a + suffix, a, i)
    {
      assert (a + suffix)[i] == a[i];
    }
  }

  lemma NotBeforeItself(a: string)
    ensures !TextBefore(a, a)
  {
    ExtensionIsNotBefore(a, "");
    assert a + "" == a;
  }

  /** A file is never visited after one named by extending its name. */
  lemma ExtendedNameComesLater(p: Path, suffix: string)
    ensures !Before(Beside(p, suffix), p)
  {
    var a, b := Names(Beside(p, suffix)), Names(p);
    forall i: nat | i < |b|
      ensures !BeforeAt(a, b, i)
    {
      if i < |p.dir| {
        assert a[i] == b[i];
        NotBeforeItself(a[i]);
      } else {
        ExtensionIsNotBefore(p.name, suffix);
      }
    }
  }

  /** These files in the order of the walk, each once. */
  ghost predicate Listing(walk: seq<Path>, files: set<Path>) {
    && (forall i :: 0 <= i < |walk| ==> walk[i] in files)
    && (forall p :: p in files ==> p in walk)
    && (forall i, j :: 0 <= i < j < |walk| ==> walk[i] != walk[j] && Before(walk[i], walk[j]))
  }

  // ---------------------------------------------------------------- every tree has a walk

  /** No file is a directory as well. */
  ghost predicate IsTree(files: set<Path>) {
    forall p, q :: p in files && q in files && p != q ==> !(Names(p) <= Names(q))
  }

  /** How far two sequences agree. */
  lemma {:induction false} Agreement<T>(a: seq<T>, b: seq<T>) returns (i: nat)
    ensures i <= |a| && i <= |b| && a[..i] == b[..i]
    ensures i < |a| && i < |b| ==> a[i] != b[i]
    ensures (i == |a| ==> a <= b) && (i == |b| ==> b <= a)
    decreases |a|
  {
    if a == [] || b == [] || a[0] != b[0] {
      i := 0;
    } else {
      var j := Agreement(a[1..], b[1..]);
      i := j + 1;
      assert a[..i] == [a[0]] + a[1..][..j] && b[..i] == [b[0]] + b[1..][..j];
    }
  }

  lemma TextIsTotal(a: string, b: string)
    requires a != b
    ensures TextBefore(a, b) || TextBefore(b, a)
  {
    var i := Agreement(a, b);
    assert TextBeforeAt(a, b, i) || TextBeforeAt(b, a, i);
  }

  lemma SamePrefix<T>(a: seq<T>, b: seq<T>, c: seq<T>, i: nat, j: nat)
    requires i <= |a| && i <= |b| && a[..i] == b[..i] && j <= |b| && j <= |c| && b[..j] == c[..j]
    ensures var k := if i < j then i else j;
            && k <= |a| && k <= |c| && a[..k] == c[..k]
            && (i < j ==> b[i] == c[i]) && (j < i ==> a[j] == b[j])
  {
    var k := if i < j then i else j;
    assert a[..k] == a[..i][..k] == b[..i][..k] == b[..k];
    assert c[..k] == c[..j][..k] == b[..j][..k] == b[..k];
    if i < j {
      assert b[i] == b[..j][i] && c[i] == c[..j][i];
    }
    if j < i {
      assert a[j] == a[..i][j] && b[j] == b[..i][j];
    }
  }

  lemma TextIsTransitive(a: string, b: string, c: string)
    requires TextBefore(a, b) && TextBefore(b, c)
    ensures TextBefore(a, c)
  {
    var i: nat :| TextBeforeAt(a, b, i);
    var j: nat :| TextBeforeAt(b, c, j);
    SamePrefix(a, b, c, i, j);
    assert TextBeforeAt(a, c, if i < j then i else j);
  }

  lemma BeforeIsTotal(p: Path, q: Path)
    requires !(Names(p) <= Names(q)) && !(Names(q) <= Names(p))
    ensures Before(p, q) || Before(q, p)
  {
    var i := Agreement(Names(p), Names(q));
    TextIsTotal(Names(p)[i], Names(q)[i]);
    assert BeforeAt(Names(p), Names(q), i) || BeforeAt(Names(q), Names(p), i);
  }

  lemma BeforeIsTransitive(p: Path, q: Path, r: Path)
    requires Before(p, q) && Before(q, r)
    ensures Before(p, r)
  {
    var a, b, c := Names(p), Names(q), Names(r);
    var i: nat :| BeforeAt(a, b, i);
    var j: nat :| BeforeAt(b, c, j);
    SamePrefix(a, b, c, i, j);
    if i == j {
      TextIsTransitive(a[i], b[i], c[i]);
    }
    assert BeforeAt(a, c, if i < j then i else j);
  }

  /** Where p belongs in a walk: after all that come before it. */
  lemma {:induction false} Place(walk: seq<Path>, p: Path) returns (n: nat)
    ensures n <= |walk| && (forall i :: 0 <= i < n ==> Before(walk[i], p))
    ensures n < |walk| ==> !Before(walk[n], p)
    decreases |walk|
  {
    n := 0;
    if walk != [] && Before(walk[0], p) {
      var rest := walk[1..];
      var m := Place(rest, p);
      n := m + 1;
      forall i | 0 <= i < n
        ensures Before(walk[i], p)
      {
        if i > 0 {
          assert walk[i] == rest[i - 1];
        }
      }
    }
  }

  function Inserted(walk: seq<Path>, p: Path, n: nat): seq<Path>
    requires n <= |walk|
  {
    walk[..n] + [p] + walk[n..]
  }

  lemma InsertedAt(walk: seq<Path>, p: Path, n: nat, i: nat)
    requires n <= |walk| && i <= |walk|
    ensures Inserted(walk, p, n)[i] == if i < n then walk[i] else if i == n then p else walk[i - 1]
  {
  }

  lemma InsertedInOrder(walk: seq<Path>, files: set<Path>, p: Path, n: nat, i: nat, j: nat)
    requires Listing(walk, files) && p !in files && n <= |walk| && i < j <= |walk|
    requires forall k :: 0 <= k < n ==> Before(walk[k], p)
    requires forall k :: n <= k < |walk| ==> Before(p, walk[k])
    ensures Inserted(walk, p, n)[i] != Inserted(walk, p, n)[j] && Before(Inserted(walk, p, n)[i], Inserted(walk, p, n)[j])
  {
    InsertedAt(walk, p, n, i);
    InsertedAt(walk, p, n, j);
  }

  lemma InsertedHas(walk: seq<Path>, p: Path, n: nat, q: Path)
    requires n <= |walk|
    ensures q in Inserted(walk, p, n) <==> q in walk || q == p
  {
    assert walk == walk[..n] + walk[n..];
  }

  lemma InsertPath(walk: seq<Path>, files: set<Path>, p: Path, n: nat)
    requires Listing(walk, files) && p !in files && n <= |walk|
    requires forall i :: 0 <= i < n ==> Before(walk[i], p)
    requires forall i :: n <= i < |walk| ==> Before(p, walk[i])
    ensures Listing(Inserted(walk, p, n), files + {p})
  {
    var all := Inserted(walk, p, n);
    forall q
      ensures q in all <==> q in files + {p}
    {
      InsertedHas(walk, p, n, q);
    }
    forall i | 0 <= i < |all|
      ensures all[i] in files + {p}
    {
      assert all[i] in all;
    }
    forall i, j | 0 <= i < j < |all|
      ensures all[i] != all[j] && Before(all[i], all[j])
    {
      InsertedInOrder(walk, files, p, n, i, j);
    }
  }

  lemma RestComesAfter(walk: seq<Path>, files: set<Path>, p: Path, n: nat, i: nat)
    requires Listing(walk, files) && IsTree(files + {p}) && p !in files
    requires n <= i < |walk| && !Before(walk[n], p)
    ensures Before(p, walk[i])
  {
    BeforeIsTotal(p, walk[n]);
    if n < i {
      BeforeIsTransitive(p, walk[n], walk[i]);
    }
  }

  /** Every tree of files can be walked. */
  lemma {:induction false} WalkExists(files: set<Path>) returns (walk: seq<Path>)
    requires IsTree(files)
    ensures Listing(walk, files)
    decreases |files|
  {
    if files == {} {
      walk := [];
    } else {
      var p :| p in files;
      var rest := files - {p};
      var before := WalkExists(rest);
      var n := Place(before, p);
      assert rest + {p} == files;
      forall i | n <= i < |before|
        ensures Before(p, before[i])
      {
        RestComesAfter(before, rest, p, n, i);
      }
      InsertPath(before, rest, p, n);
      walk := Inserted(before, p, n);
    }
  }
}
