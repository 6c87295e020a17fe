/** The in-place helpers of hub/internal/peers/peers.go: the filter that writes
    over the slice it reads, and the insertion sort `sortCands`. */
module Sorting {
  import opened Sequences

  /** A strict weak order, as a comparison by score is. */
  ghost predicate StrictWeak<T(!new)>(less: (T, T) -> bool) {
    && (forall x, y :: less(x, y) ==> !less(y, x))
    && (forall x, y, z :: less(x, z) ==> less(x, y) || less(y, z))
  }

  predicate Tied<T>(less: (T, T) -> bool, x: T, y: T) {
    !less(x, y) && !less(y, x)
  }

  function TiedWith<T>(less: (T, T) -> bool, x: T): T -> bool {
    y => Tied(less, x, y)
  }

  ghost predicate Sorted<T>(less: (T, T) -> bool, s: seq<T>) {
    forall i, j :: 0 <= i < j < |s| ==> !less(s[j], s[i])
  }

  /** The same elements, and tied ones in the same order. */
  ghost predicate Stable<T(!new)>(less: (T, T) -> bool, before: seq<T>, after: seq<T>) {
    && multiset(after) == multiset(before)
    && forall x :: Filter(after, TiedWith(less, x)) == Filter(before, TiedWith(less, x))
  }

  lemma FilterPair<T>(pre: seq<T>, x: T, y: T, post: seq<T>, keep: T -> bool)
    requires !(keep(x) && keep(y))
    ensures Filter(pre + [x, y] + post, keep) == Filter(pre + [y, x] + post, keep)
  {
    FilterAppend(pre + [x, y], post, keep);
    FilterAppend(pre + [y, x], post, keep);
    FilterAppend(pre, [x, y], keep);
    FilterAppend(pre, [y, x], keep);
    assert Init([x, y]) == [x] && Init([y, x]) == [y] && Init([x]) == [] && Init([y]) == [];
  }

  /** Swapping two neighbours that are out of order moves no tied ones past each other. */
  lemma SwapIsStable<T(!new)>(less: (T, T) -> bool, s: seq<T>, j: nat)
    requires StrictWeak(less) && 0 < j < |s| && less(s[j], s[j - 1])
    ensures Stable(less, s, s[j := s[j - 1]][j - 1 := s[j]])
  {
    var t := s[j := s[j - 1]][j - 1 := s[j]];
    var pre, x, y, post := s[..j - 1], s[j - 1], s[j], s[j + 1..];
    assert s == pre + [x, y] + post;
    assert t == pre + [y, x] + post;
    forall z
      ensures Filter(t, TiedWith(less, z)) == Filter(s, TiedWith(less, z))
    {
      assert less(y, x) ==> less(y, z) || less(z, x);
      FilterPair(pre, x, y, post, TiedWith(less, z));
    }
  }

  lemma StableTrans<T(!new)>(less: (T, T) -> bool, a: seq<T>, b: seq<T>, c: seq<T>)
    requires Stable(less, a, b) && Stable(less, b, c)
    ensures Stable(less, a, c)
  {
  }

  /** All of the first n in order, but for element j against those before it. */
  ghost predicate SortedBut<T>(less: (T, T) -> bool, s: seq<T>, n: nat, j: nat)
    requires n <= |s|
  {
    forall p, q :: 0 <= p < q < n && q != j ==> !less(s[q], s[p])
  }

  lemma SwapKeepsSortedBut<T(!new)>(less: (T, T) -> bool, s: seq<T>, n: nat, j: nat)
    requires StrictWeak(less) && n <= |s| && 0 < j < n && SortedBut(less, s, n, j) && less(s[j], s[j - 1])
    ensures SortedBut(less, s[j := s[j - 1]][j - 1 := s[j]], n, j - 1)
  {
  }

  lemma NotLessTrans<T(!new)>(less: (T, T) -> bool, x: T, y: T, z: T)
    requires StrictWeak(less) && !less(x, y) && !less(y, z)
    ensures !less(x, z)
  {
  }

  lemma InPlace<T(!new)>(less: (T, T) -> bool, s: seq<T>, n: nat, j: nat)
    requires StrictWeak(less) && n <= |s| && j < n && SortedBut(less, s, n, j)
    requires j == 0 || !less(s[j], s[j - 1])
    ensures forall p, q :: 0 <= p < q < n ==> !less(s[q], s[p])
  {
    forall p | 0 <= p < j
      ensures !less(s[j], s[p])
    {
      if p < j - 1 {
        NotLessTrans(less, s[j], s[j - 1], s[p]);
      }
    }
  }

  /** `sortCands` on the first n elements: a stable sort. */
  method SortCands<T(!new)>(a: array<T>, n: nat, less: (T, T) -> bool)
    requires StrictWeak(less) && n <= a.Length
    modifies a
    ensures Sorted(less, a[..n]) && Stable(less, old(a[..n]), a[..n])
    ensures a[n..] == old(a[n..])
  {
    ghost var before := a[..n];
    var i := 1;
    while i < n
      invariant 1 <= i && (n > 0 ==> i <= n)
      invariant forall p, q :: 0 <= p < q < i && q < n ==> !less(a[..n][q], a[..n][p])
      invariant Stable(less, before, a[..n])
      invariant a[n..] == old(a[n..])
    {
      Insert(a, n, i, less, before);
      i := i + 1;
    }
  }

  /** The inner loop: element i goes down to its place. */
  method Insert<T(!new)>(a: array<T>, n: nat, i: nat, less: (T, T) -> bool, ghost before: seq<T>)
    requires StrictWeak(less) && i < n <= a.Length
    requires forall p, q :: 0 <= p < q < i ==> !less(a[..n][q], a[..n][p])
    requires Stable(less, before, a[..n])
    modifies a
    ensures forall p, q :: 0 <= p < q <= i ==> !less(a[..n][q], a[..n][p])
    ensures Stable(less, before, a[..n])
    ensures a[n..] == old(a[n..])
  {
    var j := i;
    while j > 0 && less(a[j], a[j - 1])
      invariant 0 <= j <= i
      invariant SortedBut(less, a[..n], i + 1, j)
      invariant Stable(less, before, a[..n])
      invariant a[n..] == old(a[n..])
    {
      ghost var s := a[..n];
      SwapIsStable(less, s, j);
      SwapKeepsSortedBut(less, s, i + 1, j);
      StableTrans(less, before, s, s[j := s[j - 1]][j - 1 := s[j]]);
      a[j], a[j - 1] := a[j - 1], a[j];
      assert a[..n] == s[j := s[j - 1]][j - 1 := s[j]];
      j := j - 1;
    }
    InPlace(less, a[..n], i + 1, j);
  }

  /** `kept := s[:0]`, then append what passes: every write is at or before the
      element being read, so nothing is read after it was written over. */
  method FilterInPlace<T>(a: array<T>, n: nat, keep: T -> bool) returns (k: nat)
    requires n <= a.Length
    modifies a
    ensures k <= n && a[..k] == Filter(old(a[..n]), keep)
    ensures a[n..] == old(a[n..])
  {
    k := 0;
    var i := 0;
    while i < n
      invariant 0 <= k <= i <= n
      invariant a[..k] == Filter(old(a[..i]), keep)
      invariant a[i..] == old(a[i..])
    {
      assert a[i] == a[i..][0] == old(a[i..])[0] == old(a[i]);
      assert Init(old(a[..i + 1])) == old(a[..i]) && Last(old(a[..i + 1])) == old(a[i]);
      if keep(a[i]) {
        a[k] := a[i];
        k := k + 1;
      }
      assert a[i + 1..] == old(a[i..])[1..] == old(a[i + 1..]);
      i := i + 1;
    }
  }

  lemma LastsAreTied<T(!new)>(less: (T, T) -> bool, a: seq<T>, b: seq<T>)
    requires StrictWeak(less) && Sorted(less, a) && Sorted(less, b) && a != [] && multiset(a) == multiset(b)
    ensures b != [] && Tied(less, Last(a), Last(b))
  {
    assert |multiset(a)| == |a|;
    assert Last(a) in multiset(a) && Last(b) in multiset(b);
    var i :| 0 <= i < |b| && b[i] == Last(a);
    var j :| 0 <= j < |a| && a[j] == Last(b);
  }

  lemma FilterSnoc<T>(s: seq<T>, x: T, keep: T -> bool)
    ensures Filter(s + [x], keep) == Filter(s, keep) + if keep(x) then [x] else []
  {
    assert Init(s + [x]) == s;
  }

  lemma StableWithoutLast<T(!new)>(less: (T, T) -> bool, a: seq<T>, b: seq<T>, x: T)
    requires Stable(less, a + [x], b + [x])
    ensures Stable(less, a, b)
  {
    assert multiset(a) == multiset(a + [x]) - multiset{x};
    assert multiset(b) == multiset(b + [x]) - multiset{x};
    forall z
      ensures Filter(b, TiedWith(less, z)) == Filter(a, TiedWith(less, z))
    {
      var f := TiedWith(less, z);
      FilterSnoc(a, x, f);
      FilterSnoc(b, x, f);
      assert Filter(a + [x], f) == Filter(b + [x], f);
      if f(x) {
        assert Filter(a, f) == Init(Filter(a + [x], f)) && Filter(b, f) == Init(Filter(b + [x], f));
      } else {
        assert Filter(a, f) == Filter(a + [x], f) && Filter(b, f) == Filter(b + [x], f);
      }
    }
  }

  lemma SameLast<T(!new)>(less: (T, T) -> bool, a: seq<T>, b: seq<T>)
    requires StrictWeak(less) && Sorted(less, a) && Sorted(less, b) && Stable(less, a, b) && a != []
    ensures b != [] && Last(a) == Last(b)
  {
    LastsAreTied(less, a, b);
    var keep := TiedWith(less, Last(a));
    assert Last(Filter(a, keep)) == Last(a) && Last(Filter(b, keep)) == Last(b);
  }

  /** A stable sort has one result: whatever sorts the same elements and keeps
      tied ones in order is the same sequence. */
  lemma {:induction false} StableSortIsUnique<T(!new)>(less: (T, T) -> bool, a: seq<T>, b: seq<T>)
    requires StrictWeak(less) && Sorted(less, a) && Sorted(less, b) && Stable(less, a, b)
    ensures a == b
    decreases |a|
  {
    assert |multiset(a)| == |a| && |multiset(b)| == |b|;
    if a != [] {
      SameLast(less, a, b);
      assert a == Init(a) + [Last(a)] && b == Init(b) + [Last(a)];
      StableWithoutLast(less, Init(a), Init(b), Last(a));
      StableSortIsUnique(less, Init(a), Init(b));
    }
  }
}
