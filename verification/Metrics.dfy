/** `HostMetrics` of hub/internal/store/hosts.go, the series the disk trend reads:
    hourly rows and sweeps in one query, compared and ordered as text.

    The texts of two times agree in width up to the second and order by it; after
    that an hour's mark ends in a Z, a sweep goes on with its milliseconds. */
module Metrics {
  import opened Placement
  import opened Sequences
  import W = Walk
  import Rollup

  datatype Row = Hourly(hour: int, free: Option<real>) | Sweep(at: int, free: Option<real>)

  /** A time as text: its second, and what follows. */
  datatype Text = Text(second: int, rest: string)

  function Digit(n: int): char
    requires 0 <= n < 10
  {
    "0123456789"[n]
  }

  /** A full stop, three digits and the Z. */
  function Millis(ms: int): string
    requires 0 <= ms < 1000
  {
    ['.', Digit(ms / 100), Digit(ms / 10 % 10), Digit(ms % 10), 'Z']
  }

  function TextOf(r: Row): Text {
    match r
    case Hourly(hour, _) => Text(hour * 3600, "Z")
    case Sweep(at, _) => Text(at / 1000, Millis(at % 1000))
  }

  ghost predicate TextLess(a: Text, b: Text) {
    a.second < b.second || (a.second == b.second && W.TextBefore(a.rest, b.rest))
  }

  /** Where the span the caller asks for begins, 24 * 7 hours back from now. */
  function Since(now: int): Text {
    Text(now - 604800, "Z")
  }

  /** The rows of the query: those not before `since`, oldest first. */
  ghost predicate IsHostMetrics(stored: seq<Row>, now: int, out: seq<Row>) {
    && (forall r :: r in out <==> r in stored && !TextLess(TextOf(r), Since(now)))
    && (forall r :: r in out ==> multiset(out)[r] == multiset(stored)[r])
    && (forall i, j :: 0 <= i < j < |out| ==> !TextLess(TextOf(out[j]), TextOf(out[i])))
  }

  /** What `trend` parses of them: whole seconds. */
  function Readings(rows: seq<Row>): seq<Reading> {
    seq(|rows|, i requires 0 <= i < |rows| => Reading(Some(TextOf(rows[i]).second), rows[i].free))
  }

  /** A sweep of the very second of an hour's mark sorts before the mark, though
      it is no earlier: the text order is not the order of the instants. */
  lemma SweepSortsBeforeItsMark(hour: int, ms: int, f: Option<real>, g: Option<real>)
    requires 0 <= ms < 1000
    ensures TextLess(TextOf(Sweep(hour * 3600_000 + ms, f)), TextOf(Hourly(hour, g)))
  {
    var sweep := TextOf(Sweep(hour * 3600_000 + ms, f));
    assert sweep.second == hour * 3600;
    assert W.TextBeforeAt(sweep.rest, "Z", 0);
  }

  lemma DigitsInOrder(m: int, n: int)
    requires 0 <= m < 10 && 0 <= n < 10
    ensures Digit(m) < Digit(n) <==> m < n
    ensures Digit(m) == Digit(n) <==> m == n
  {
  }

  /** Digit by digit. */
  ghost predicate DigitsLess(p: int, q: int, r: int, p': int, q': int, r': int) {
    p < p' || (p == p' && (q < q' || (q == q' && r < r')))
  }

  lemma DigitsOf(a: int, b: int)
    requires 0 <= a < b < 1000
    ensures DigitsLess(a / 100, a / 10 % 10, a % 10, b / 100, b / 10 % 10, b % 10)
  {
    assert a == a / 100 * 100 + a / 10 % 10 * 10 + a % 10;
    assert b == b / 100 * 100 + b / 10 % 10 * 10 + b % 10;
  }

  lemma TextInOrder(p: int, q: int, r: int, p': int, q': int, r': int)
    requires 0 <= p < 10 && 0 <= q < 10 && 0 <= r < 10 && 0 <= p' < 10 && 0 <= q' < 10 && 0 <= r' < 10
    requires DigitsLess(p, q, r, p', q', r')
    ensures W.TextBefore(['.', Digit(p), Digit(q), Digit(r), 'Z'], ['.', Digit(p'), Digit(q'), Digit(r'), 'Z'])
  {
    var s, t := ['.', Digit(p), Digit(q), Digit(r), 'Z'], ['.', Digit(p'), Digit(q'), Digit(r'), 'Z'];
    if p < p' {
      DigitsInOrder(p, p');
      assert W.TextBeforeAt(s, t, 1);
    } else if q < q' {
      DigitsInOrder(q, q');
      assert W.TextBeforeAt(s, t, 2);
    } else {
      DigitsInOrder(r, r');
      assert W.TextBeforeAt(s, t, 3);
    }
  }

  lemma MillisInOrder(a: int, b: int)
    requires 0 <= a < b < 1000
    ensures W.TextBefore(Millis(a), Millis(b))
  {
    DigitsOf(a, b);
    TextInOrder(a / 100, a / 10 % 10, a % 10, b / 100, b / 10 % 10, b % 10);
  }

  lemma TextIsOneWay(a: string, b: string)
    requires W.TextBefore(a, b)
    ensures !W.TextBefore(b, a)
  {
    if W.TextBefore(b, a) {
      W.TextIsTransitive(a, b, a);
      W.NotBeforeItself(a);
      assert false;
    }
  }

  /** Among sweeps the text order is that of the instants. */
  lemma SweepsInOrder(a: int, b: int, f: Option<real>, g: Option<real>)
    ensures TextLess(TextOf(Sweep(a, f)), TextOf(Sweep(b, g))) <==> a < b
  {
    if a / 1000 == b / 1000 {
      RestsInOrder(a % 1000, b % 1000);
    }
  }

  lemma RestsInOrder(m: int, n: int)
    requires 0 <= m < 1000 && 0 <= n < 1000
    ensures W.TextBefore(Millis(m), Millis(n)) <==> m < n
  {
    if m < n {
      MillisInOrder(m, n);
    } else if n < m {
      MillisInOrder(n, m);
      TextIsOneWay(Millis(n), Millis(m));
    } else {
      W.NotBeforeItself(Millis(m));
    }
  }

  /** Which rows the query returns: the marks of the last seven days and the sweeps
      of all but the first second of them. */
  lemma WeekExactly(stored: seq<Row>, now: int, out: seq<Row>, r: Row)
    requires IsHostMetrics(stored, now, out)
    ensures r.Hourly? ==> (r in out <==> r in stored && r.hour * 3600 >= now - 604800)
    ensures r.Sweep? ==> (r in out <==> r in stored && r.at >= (now - 604799) * 1000)
  {
    W.NotBeforeItself("Z");
    if r.Sweep? {
      assert W.TextBeforeAt(Millis(r.at % 1000), "Z", 0);
    }
  }

  /** The test of the rollups on an instant and a mark is the order of their texts. */
  lemma MarkIsText(at: int, hour: int, f: Option<real>, g: Option<real>)
    ensures Rollup.BeforeMark(at, hour) <==> TextLess(TextOf(Sweep(at, f)), TextOf(Hourly(hour, g)))
  {
    if at / 1000 == hour * 3600 {
      SweepSortsBeforeItsMark(hour, at % 1000, f, g);
    }
  }

  /** All the same the seconds the trend works with run forward and lie within a
      week, so long as no row is stamped later than now. */
  lemma MetricsAreAWeek(stored: seq<Row>, now: int, out: seq<Row>)
    requires IsHostMetrics(stored, now, out) && forall r :: r in stored ==> TextOf(r).second <= now
    ensures AWeek(Readings(out))
  {
    forall i, j | 0 <= i < j < |out|
      ensures 0 <= TextOf(out[j]).second - TextOf(out[i]).second <= 7 * 86400
    {
      assert !TextLess(TextOf(out[j]), TextOf(out[i]));
      assert out[i] in out && out[j] in out;
    }
  }

  /** So with less than thirty days of history behind any trend, a host whose
      stored metrics give it a falling slope never takes a stack that wants
      disk, and one whose free space only grew is never turned down for it. */
  lemma StoredTrendDecides(stored: seq<Row>, now: int, needs: Needs, only: Option<int>, h: Host, out: seq<Row>,
                           trend: real, window: real)
    requires IsHostMetrics(stored, now, out) && forall r :: r in stored ==> TextOf(r).second <= now
    requires h.metrics == Readings(out) && IsTrend(h.metrics, trend, window)
    ensures trend < 0.0 && NeedDisk(needs) > 0 ==> !Judge(needs, only, h, RootFree(h.mounts), trend, window).fits
    ensures trend >= 0.0 || NeedDisk(needs) <= 0 ==> !Judge(needs, only, h, RootFree(h.mounts), trend, window).why.Filling?
  {
    MetricsAreAWeek(stored, now, out);
    FitsExactly(needs, only, h, trend, window);
  }
}
