/** Words every component uses. */
module Sequences {

  datatype Option<T> = None | Some(value: T)

  function Last<T>(s: seq<T>): T
    requires s != []
  {
    s[|s| - 1]
  }

  function Init<T>(s: seq<T>): seq<T>
    requires s != []
  {
    s[..|s| - 1]
  }

  /** The elements that pass, in order. */
  function Filter<T>(s: seq<T>, keep: T -> bool): seq<T> {
    if s == [] then [] else Filter(Init(s), keep) + if keep(Last(s)) then [Last(s)] else []
  }

  lemma {:induction false} FilterAppend<T>(s: seq<T>, t: seq<T>, keep: T -> bool)
    ensures Filter(s + t, keep) == Filter(s, keep) + Filter(t, keep)
    decreases |t|
  {
    if t == [] {
      assert s + t == s;
    } else {
      assert Init(s + t) == s + Init(t) && Last(s + t) == Last(t);
      FilterAppend(s, Init(t), keep);
    }
  }

  lemma {:induction false} FilterPasses<T>(s: seq<T>, keep: T -> bool, x: T)
    ensures x in Filter(s, keep) <==> x in s && keep(x)
    decreases |s|
  {
    if s != [] {
      FilterPasses(Init(s), keep, x);
      assert s == Init(s) + [Last(s)];
    }
  }
}
