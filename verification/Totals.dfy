/** Sums over recorded rows, said of the rows alone: what an hourly row of
    hub/internal/store/hosts.go is to come to. */
module Totals {
  import opened Rollup
  import opened Sequences

  /** The rows of one host stamped within one hour. */
  function InHour<R>(host: int, hour: int): Raw<R> -> bool {
    (r: Raw<R>) => r.host == host && hour * 3_600_000 <= r.at < (hour + 1) * 3_600_000
  }

  function Every<R>(): Raw<R> -> bool {
    (r: Raw<R>) => true
  }

  /** Where the rows picked are, so that there are |Rows(..)| of them. */
  ghost function Rows<R>(rows: seq<Raw<R>>, pick: Raw<R> -> bool): set<int> {
    set i | 0 <= i < |rows| && pick(rows[i])
  }

  /** A whole-number field of the rows picked, added up. */
  function Total<R>(rows: seq<Raw<R>>, pick: Raw<R> -> bool, of: R -> int): int {
    if rows == [] then 0
    else Total(Init(rows), pick, of) + if pick(Last(rows)) then of(Last(rows).data) else 0
  }

  function RealTotal<R>(rows: seq<Raw<R>>, pick: Raw<R> -> bool, of: R -> real): real {
    if rows == [] then 0.0
    else RealTotal(Init(rows), pick, of) + if pick(Last(rows)) then of(Last(rows).data) else 0.0
  }

  lemma RowsStep<R>(rows: seq<Raw<R>>, pick: Raw<R> -> bool)
    requires rows != []
    ensures |Rows(rows, pick)| == |Rows(Init(rows), pick)| + if pick(Last(rows)) then 1 else 0
  {
    var n := |rows| - 1;
    var before := Rows(Init(rows), pick);
    assert Rows(rows, pick) == if pick(rows[n]) then before + {n} else before;
  }

  lemma KeyIsHour<R>(k: Key, r: Raw<R>)
    ensures InHour(k.host, k.hour)(r) <==> OfKey(k)(r)
  {
  }

  lemma {:induction false} FilterEvery<R>(rows: seq<Raw<R>>)
    ensures Filter(rows, Every()) == rows
    decreases |rows|
  {
    if rows != [] {
      FilterEvery(Init(rows));
      assert Every<R>()(Last(rows));
      assert rows == Init(rows) + [Last(rows)];
    }
  }
}
