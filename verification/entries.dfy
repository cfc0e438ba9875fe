/**
 The canonical exchange-rate entry and the stable sort by timestamp that the
 fetch applies before publishing a batch (Kotlin's `sortBy`, which is stable).
 */
module Entries {

  /** One point of the series: local wall-clock millis and the rate read for it. */
  datatype Entry = Entry(timestamp: int, rate: real)

  /** Non-decreasing by timestamp. */
  predicate SortedByTimestamp(s: seq<Entry>)
  {
    forall i, j :: 0 <= i < j < |s| ==> s[i].timestamp <= s[j].timestamp
  }

  /** The entries of `s` stamped `t`, in their order in `s`. */
  function AtTimestamp(s: seq<Entry>, t: int): seq<Entry>
  {
    if |s| == 0 then []
    else (if s[0].timestamp == t then [s[0]] else []) + AtTimestamp(s[1..], t)
  }

  /**
   `ys` is a stable reordering of `xs`: the same entries, and for every timestamp
   the entries carrying it appear in the same relative order.
   */
  ghost predicate StableReordering(xs: seq<Entry>, ys: seq<Entry>)
  {
    && multiset(xs) == multiset(ys)
    && forall t :: AtTimestamp(xs, t) == AtTimestamp(ys, t)
  }

  /**
   Places `e` in front of the first entry of `s` whose timestamp is not smaller,
   so `e` lands before every entry of `s` with the same timestamp.
   */
  function Insert(e: Entry, s: seq<Entry>): (r: seq<Entry>)
    ensures |r| == |s| + 1
    ensures multiset(r) == multiset(s) + multiset{e}
    ensures r[0] == e || (|s| > 0 && r[0] == s[0])
  {
    if |s| == 0 || e.timestamp <= s[0].timestamp then [e] + s
    else
      assert s == [s[0]] + s[1..];
      [s[0]] + Insert(e, s[1..])
  }

  /** Inserting into a timestamp-ordered list keeps it ordered. */
  lemma {:induction false} InsertKeepsSorted(e: Entry, s: seq<Entry>)
    requires SortedByTimestamp(s)
    ensures SortedByTimestamp(Insert(e, s))
  {
    if |s| > 0 && e.timestamp > s[0].timestamp {
      var rest := Insert(e, s[1..]);
      assert SortedByTimestamp(s[1..]);
      InsertKeepsSorted(e, s[1..]);
      var r := [s[0]] + rest;
      assert Insert(e, s) == r;
      // s[0] is no later than the head of rest, which is e or s[1]
      assert s[0].timestamp <= rest[0].timestamp;
      forall i, j | 0 <= i < j < |r|
        ensures r[i].timestamp <= r[j].timestamp
      {
        assert r[j] == rest[j - 1];
        if i > 0 {
          assert r[i] == rest[i - 1];
        } else if j > 1 {
          assert rest[0].timestamp <= rest[j - 1].timestamp;
        }
      }
    }
  }

  /** Stable insertion sort by timestamp. */
  function SortByTimestamp(xs: seq<Entry>): (r: seq<Entry>)
    ensures SortedByTimestamp(r)
    ensures multiset(r) == multiset(xs)
    ensures |r| == |xs|
  {
    if |xs| == 0 then []
    else
      var sortedTail := SortByTimestamp(xs[1..]);
      InsertKeepsSorted(xs[0], sortedTail);
      assert xs == [xs[0]] + xs[1..];
      Insert(xs[0], sortedTail)
  }

  /** Inserting `e` adds it at the head of its own timestamp's run and leaves every other run alone. */
  lemma {:induction false} InsertAtTimestamp(e: Entry, s: seq<Entry>, t: int)
    ensures AtTimestamp(Insert(e, s), t)
            == (if e.timestamp == t then [e] else []) + AtTimestamp(s, t)
  {
    var own := if e.timestamp == t then [e] else [];
    if |s| == 0 || e.timestamp <= s[0].timestamp {
      var r := [e] + s;
      assert r[0] == e && r[1..] == s;
      assert AtTimestamp(r, t) == own + AtTimestamp(s, t);
    } else {
      var rest := Insert(e, s[1..]);
      var r := [s[0]] + rest;
      assert r[0] == s[0] && r[1..] == rest;
      var first := if s[0].timestamp == t then [s[0]] else [];
      assert AtTimestamp(r, t) == first + AtTimestamp(rest, t);
      InsertAtTimestamp(e, s[1..], t);
      assert AtTimestamp(s, t) == first + AtTimestamp(s[1..], t);
      // s[0] comes before e, so at most one of them is stamped t
      assert first == [] || own == [];
      assert first + own == own + first;
    }
  }

  /** Sorting keeps, for every timestamp, the arrival order of the entries carrying it. */
  lemma {:induction false} SortKeepsArrivalOrder(xs: seq<Entry>, t: int)
    ensures AtTimestamp(SortByTimestamp(xs), t) == AtTimestamp(xs, t)
  {
    if |xs| > 0 {
      SortKeepsArrivalOrder(xs[1..], t);
      InsertAtTimestamp(xs[0], SortByTimestamp(xs[1..]), t);
    }
  }

  /** The sort is a stable, ordered permutation of its input. */
  lemma SortIsStable(xs: seq<Entry>)
    ensures SortedByTimestamp(SortByTimestamp(xs))
    ensures StableReordering(xs, SortByTimestamp(xs))
  {
    forall t
      ensures AtTimestamp(xs, t) == AtTimestamp(SortByTimestamp(xs), t)
    {
      SortKeepsArrivalOrder(xs, t);
    }
  }

  /** An input already in timestamp order is returned unchanged. */
  lemma {:induction false} SortOfSortedIsIdentity(xs: seq<Entry>)
    requires SortedByTimestamp(xs)
    ensures SortByTimestamp(xs) == xs
  {
    if |xs| > 0 {
      assert SortedByTimestamp(xs[1..]);
      SortOfSortedIsIdentity(xs[1..]);
      assert xs == [xs[0]] + xs[1..];
    }
  }
}
