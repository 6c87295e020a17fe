/** One decision per conversation: the keys and homes of
    hub/internal/pool/pool.go.

    A turn is remembered under the hash of its whole history, and a later turn
    looks the hashes of its shorter histories up, longest first.  SHA-256 is an
    uninterpreted function; what the theorems need of it is that it is
    injective. */
module Conversation {
  import opened Sequences

  type Key = string

  const NUL := '\0'
  /** An hour of the clock, in nanoseconds. */
  const HOUR := 3600_000_000_000

  ghost predicate Injective(hash: string -> Key) {
    forall x, y :: hash(x) == hash(y) ==> x == y
  }

  /** A message as raw JSON, which has no NUL byte in it. */
  predicate NulFree(m: string) {
    forall i :: 0 <= i < |m| ==> m[i] != NUL
  }

  predicate AllNulFree(messages: seq<string>) {
    forall i :: 0 <= i < |messages| ==> NulFree(messages[i])
  }

  /** What has been fed to the hash after these messages. */
  function Fed(messages: seq<string>): string {
    if messages == [] then "" else Fed(Init(messages)) + Last(messages) + [NUL]
  }

  function KeyOf(hash: string -> Key, messages: seq<string>): Key {
    hash(Fed(messages))
  }

  /** Where the bytes after the last NUL start. */
  function AfterNul(s: string): nat {
    if s == "" || Last(s) == NUL then |s| else AfterNul(Init(s))
  }

  lemma {:induction false} AfterNulIs(p: string, m: string)
    requires NulFree(m) && (p == "" || Last(p) == NUL)
    ensures AfterNul(p + m) == |p|
    decreases |m|
  {
    if m == "" {
      assert p + m == p;
    } else {
      assert Init(p + m) == p + Init(m);
      AfterNulIs(p, Init(m));
    }
  }

  /** A NUL ends the message before, so a feed's last message is known. */
  lemma TailsAgree(p: string, m: string, q: string, n: string)
    requires p + m == q + n && NulFree(m) && NulFree(n)
    requires p == "" || Last(p) == NUL
    requires q == "" || Last(q) == NUL
    ensures p == q && m == n
  {
    AfterNulIs(p, m);
    AfterNulIs(q, n);
    assert p == (p + m)[..|p|] && q == (q + n)[..|q|];
    assert m == (p + m)[|p|..] && n == (q + n)[|q|..];
  }

  /** The separator makes the feed of a history unambiguous. */
  lemma {:induction false} FedIsInjective(a: seq<string>, b: seq<string>)
    requires AllNulFree(a) && AllNulFree(b) && Fed(a) == Fed(b)
    ensures a == b
    decreases |a|
  {
    if a != [] && b != [] {
      var fa, fb := Fed(Init(a)), Fed(Init(b));
      var s := Fed(a);
      assert s[..|s| - 1] == fa + Last(a);
      assert s[..|s| - 1] == fb + Last(b);
      FedEndsInNul(Init(a));
      FedEndsInNul(Init(b));
      TailsAgree(fa, Last(a), fb, Last(b));
      FedIsInjective(Init(a), Init(b));
      assert a == Init(a) + [Last(a)];
      assert b == Init(b) + [Last(b)];
    }
  }

  lemma FedEndsInNul(a: seq<string>)
    ensures Fed(a) == "" || Last(Fed(a)) == NUL
  {
  }

  /** Keys are equal only for equal histories. */
  lemma KeysAreHistories(hash: string -> Key, a: seq<string>, b: seq<string>)
    requires Injective(hash) && AllNulFree(a) && AllNulFree(b)
    ensures KeyOf(hash, a) == KeyOf(hash, b) <==> a == b
  {
    if KeyOf(hash, a) == KeyOf(hash, b) {
      FedIsInjective(a, b);
    }
  }

  /** The hashes after each message before the last. */
  function PrefixKeys(hash: string -> Key, messages: seq<string>): (keys: seq<Key>) {
    if messages == [] then []
    else seq(|messages| - 1, i requires 0 <= i < |messages| - 1 => KeyOf(hash, messages[..i + 1]))
  }

  /** The running hash of the original: one pass, a digest after each message. */
  method ConversationKeys(hash: string -> Key, messages: seq<string>)
    returns (key: Option<Key>, prefixes: seq<Key>)
    ensures key == if messages == [] then None else Some(KeyOf(hash, messages))
    ensures prefixes == PrefixKeys(hash, messages)
  {
    var fed := "";
    prefixes := [];
    var i := 0;
    while i < |messages|
      invariant 0 <= i <= |messages|
      invariant i == |messages| ==> messages == []
      invariant fed == Fed(messages[..i])
      invariant |prefixes| == i
      invariant forall j :: 0 <= j < i ==> prefixes[j] == KeyOf(hash, messages[..j + 1])
    {
      assert Init(messages[..i + 1]) == messages[..i];
      fed := fed + messages[i];
      fed := fed + [NUL];
      var sum := hash(fed);
      if i < |messages| - 1 {
        prefixes := prefixes + [sum];
      } else {
        assert messages[..i + 1] == messages;
        return Some(sum), prefixes;
      }
      i := i + 1;
    }
    return None, prefixes;
  }

  /** An earlier turn's key is among the prefix keys of exactly its proper
      extensions. */
  lemma EarlierTurnIsFound(hash: string -> Key, earlier: seq<string>, messages: seq<string>)
    requires Injective(hash) && AllNulFree(earlier) && AllNulFree(messages)
    ensures KeyOf(hash, earlier) in PrefixKeys(hash, messages) <==> earlier != [] && earlier < messages
  {
    var keys := PrefixKeys(hash, messages);
    if KeyOf(hash, earlier) in keys {
      var i :| 0 <= i < |keys| && keys[i] == KeyOf(hash, earlier);
      KeysAreHistories(hash, earlier, messages[..i + 1]);
    }
    if earlier != [] && earlier < messages {
      assert messages[..|earlier|] == earlier;
      assert keys[|earlier| - 1] == KeyOf(hash, earlier);
    }
  }

  // ---------------------------------------------------------------- the homes

  datatype Entry = Entry(host: int, peer: string, at: int)

  predicate Fresh(e: Entry, now: int) {
    now - e.at < 2 * HOUR
  }

  /** The longest prefix whose home is remembered and fresh. */
  function Lookup(homes: map<Key, Entry>, prefixes: seq<Key>, now: int): Option<Entry> {
    if prefixes == [] then None
    else if Last(prefixes) in homes && Fresh(homes[Last(prefixes)], now) then Some(homes[Last(prefixes)])
    else Lookup(homes, Init(prefixes), now)
  }

  /** A new entry; a map grown past ten thousand loses what is over an hour old first. */
  function Remembered(homes: map<Key, Entry>, key: Key, e: Entry, now: int): map<Key, Entry> {
    (if |homes| > 10000 then map k | k in homes && now - homes[k].at <= HOUR :: homes[k] else homes)[key := e]
  }

  class Homes {
    var homes: map<Key, Entry>

    constructor ()
      ensures homes == map[]
    {
      homes := map[];
    }

    method Home(prefixes: seq<Key>, now: int) returns (found: Option<Entry>)
      ensures found == Lookup(homes, prefixes, now)
    {
      var i := |prefixes| - 1;
      assert prefixes[..i + 1] == prefixes;
      while i >= 0
        invariant -1 <= i < |prefixes|
        invariant Lookup(homes, prefixes, now) == Lookup(homes, prefixes[..i + 1], now)
      {
        assert Init(prefixes[..i + 1]) == prefixes[..i];
        if prefixes[i] in homes && Fresh(homes[prefixes[i]], now) {
          return Some(homes[prefixes[i]]);
        }
        i := i - 1;
      }
      return None;
    }

    method Remember(key: Key, e: Entry, now: int)
      modifies this
      ensures homes == Remembered(old(homes), key, e, now)
    {
      if |homes| > 10000 {
        var left := homes.Keys;
        while left != {}
          invariant left <= old(homes).Keys
          invariant homes == map k | k in old(homes) && (k in left || now - old(homes)[k].at <= HOUR) :: old(homes)[k]
          decreases |left|
        {
          var k :| k in left;
          if now - homes[k].at > HOUR {
            homes := homes - {k};
          }
          left := left - {k};
        }
      }
      homes := homes[key := e];
    }
  }

  /** What a placement does to the map: the new entry is in it, and another one is
      gone exactly when there were more than ten thousand and it is over an hour
      old. */
  lemma RememberedExactly(homes: map<Key, Entry>, key: Key, e: Entry, now: int, k: Key)
    ensures key in Remembered(homes, key, e, now) && Remembered(homes, key, e, now)[key] == e
    ensures k != key ==>
              (k in Remembered(homes, key, e, now) <==>
                 k in homes && (|homes| <= 10000 || now - homes[k].at <= 3_600_000_000_000))
    ensures k != key && k in Remembered(homes, key, e, now) ==> Remembered(homes, key, e, now)[k] == homes[k]
  {
  }

  /** What Lookup means: entry i is found exactly when it is less than two
      hours old and no longer one is. */
  lemma {:induction false} LookupIsLongest(homes: map<Key, Entry>, prefixes: seq<Key>, now: int, i: nat)
    requires i < |prefixes| && prefixes[i] in homes && now - homes[prefixes[i]].at < 7_200_000_000_000
    requires forall j :: i < j < |prefixes| && prefixes[j] in homes ==> now - homes[prefixes[j]].at >= 7_200_000_000_000
    ensures Lookup(homes, prefixes, now) == Some(homes[prefixes[i]])
    decreases |prefixes|
  {
    if i < |prefixes| - 1 {
      LookupIsLongest(homes, Init(prefixes), now, i);
    }
  }

  lemma {:induction false} LookupFinds(homes: map<Key, Entry>, prefixes: seq<Key>, now: int) returns (i: int)
    ensures -1 <= i < |prefixes|
    ensures i == -1 ==> Lookup(homes, prefixes, now) == None
    ensures i >= 0 ==> && prefixes[i] in homes && Fresh(homes[prefixes[i]], now)
                       && Lookup(homes, prefixes, now) == Some(homes[prefixes[i]])
    ensures forall j :: i < j < |prefixes| && prefixes[j] in homes ==> !Fresh(homes[prefixes[j]], now)
    decreases |prefixes|
  {
    if prefixes == [] {
      i := -1;
    } else if Last(prefixes) in homes && Fresh(homes[Last(prefixes)], now) {
      i := |prefixes| - 1;
    } else {
      i := LookupFinds(homes, Init(prefixes), now);
    }
  }

  // ---------------------------------------------------------------- over a whole history of turns

  /** A turn that was placed: its history, where it went, and when. */
  datatype Turn = Turn(messages: seq<string>, entry: Entry, now: int)

  /** The clock does not run backwards and histories are NUL-free. */
  ghost predicate InOrder(turns: seq<Turn>) {
    && (forall i :: 0 <= i < |turns| ==> AllNulFree(turns[i].messages))
    && (forall i, j :: 0 <= i < j < |turns| ==> turns[i].now <= turns[j].now)
  }

  function HomesAfter(hash: string -> Key, turns: seq<Turn>): map<Key, Entry> {
    if turns == [] then map[]
    else
      var t := Last(turns);
      Remembered(HomesAfter(hash, Init(turns)), KeyOf(hash, t.messages), t.entry, t.now)
  }

  /** Where this very history last went. */
  function LastPlaced(turns: seq<Turn>, messages: seq<string>): Option<Entry> {
    if turns == [] then None
    else if Last(turns).messages == messages then Some(Last(turns).entry)
    else LastPlaced(Init(turns), messages)
  }

  /** The map never holds anything but the latest placement, and holds it for
      at least an hour however many conversations there are. */
  lemma {:induction false} HomesAreLatest(hash: string -> Key, turns: seq<Turn>, messages: seq<string>, now: int)
    requires Injective(hash) && InOrder(turns) && AllNulFree(messages)
    requires turns != [] ==> Last(turns).now <= now
    ensures var homes := HomesAfter(hash, turns);
            var key := KeyOf(hash, messages);
            && (key in homes ==> LastPlaced(turns, messages) == Some(homes[key]))
            && (LastPlaced(turns, messages).Some? && now - LastPlaced(turns, messages).value.at <= 3_600_000_000_000 ==> key in homes)
    decreases |turns|
  {
    if turns != [] {
      var t := Last(turns);
      assert turns[|turns| - 1] == t;
      KeysAreHistories(hash, t.messages, messages);
      HomesAreLatest(hash, Init(turns), messages, t.now);
      if t.messages != messages && LastPlaced(turns, messages).Some? && now - LastPlaced(turns, messages).value.at <= HOUR {
        assert t.now - LastPlaced(Init(turns), messages).value.at <= HOUR;
      }
    }
  }

  /** Where the turn after the first j messages last went. */
  function PlacedAt(turns: seq<Turn>, messages: seq<string>, j: nat): Option<Entry>
    requires j <= |messages|
  {
    LastPlaced(turns, messages[..j])
  }

  /** The home map against the turns, at the key of an earlier turn. */
  lemma EarlierTurn(hash: string -> Key, turns: seq<Turn>, messages: seq<string>, now: int, j: nat)
    requires Injective(hash) && InOrder(turns) && AllNulFree(messages) && 0 < j < |messages|
    requires turns != [] ==> Last(turns).now <= now
    ensures var homes, key := HomesAfter(hash, turns), PrefixKeys(hash, messages)[j - 1];
            && (key in homes ==> PlacedAt(turns, messages, j) == Some(homes[key]))
            && (PlacedAt(turns, messages, j).Some? && now - PlacedAt(turns, messages, j).value.at <= 3_600_000_000_000 ==> key in homes)
  {
    assert PrefixKeys(hash, messages)[j - 1] == KeyOf(hash, messages[..j]);
    HomesAreLatest(hash, turns, messages[..j], now);
  }

  /** The home of a turn is where the longest remembered earlier turn of the
      same conversation went, less than two hours ago.  A longer one is passed
      over only when it was never placed or was placed more than an hour ago,
      and when there is no home, that holds of every earlier turn. */
  lemma HomeIsLongestTurn(hash: string -> Key, turns: seq<Turn>, messages: seq<string>, now: int) returns (i: int)
    requires Injective(hash) && InOrder(turns) && AllNulFree(messages)
    requires turns != [] ==> Last(turns).now <= now
    ensures var found := Lookup(HomesAfter(hash, turns), PrefixKeys(hash, messages), now);
            && (found == None <==> i == 0)
            && 0 <= i && (i > 0 ==> i < |messages|)
            && (i > 0 ==> && PlacedAt(turns, messages, i) == found && now - found.value.at < 7_200_000_000_000)
    ensures forall j :: i < j < |messages| && PlacedAt(turns, messages, j).Some? ==>
                 now - PlacedAt(turns, messages, j).value.at > 3_600_000_000_000
  {
    var homes := HomesAfter(hash, turns);
    var at := LookupFinds(homes, PrefixKeys(hash, messages), now);
    i := at + 1;
    if i > 0 {
      EarlierTurn(hash, turns, messages, now, i);
    }
    forall j | i < j < |messages| && PlacedAt(turns, messages, j).Some?
      ensures now - PlacedAt(turns, messages, j).value.at > 3_600_000_000_000
    {
      EarlierTurn(hash, turns, messages, now, j);
      assert PrefixKeys(hash, messages)[j - 1] in homes ==> !Fresh(homes[PrefixKeys(hash, messages)[j - 1]], now);
    }
  }
}
