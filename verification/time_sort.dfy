/** `sorted(trades, key=lambda x: float(x["time"]))`: Python's sort is
    stable, so trades with equal timestamps keep their ledger order. The model
    is a stable insertion sort, characterised by three facts: the output is
    ordered by time, it is a permutation of the input, and for every
    timestamp the trades carrying it appear in the same relative order. */
module TimeSort {
  import opened Trades

  predicate SortedByTime(s: seq<Trade>) {
    forall i, j :: 0 <= i < j < |s| ==> s[i].time <= s[j].time
  }

  /** The trades stamped with time `k`, in their order in `s`. */
  function AtTime(s: seq<Trade>, k: real): seq<Trade> {
    if |s| == 0 then []
    else if s[0].time == k then [s[0]] + AtTime(s[1..], k)
    else AtTime(s[1..], k)
  }

  /** A sorted sequence whose first trade is newer than `k` holds nothing
      stamped `k`. */
  lemma {:induction false} NoneAtTime(s: seq<Trade>, k: real)
    requires SortedByTime(s)
    requires |s| > 0 && k < s[0].time
    ensures AtTime(s, k) == []
  {
    if |s| > 1 {
      NoneAtTime(s[1..], k);
    }
  }

  /** A trade no newer than the head of a sorted sequence can go in front. */
  lemma SortedCons(x: Trade, s: seq<Trade>)
    requires SortedByTime(s)
    requires |s| > 0 ==> x.time <= s[0].time
    ensures SortedByTime([x] + s)
  {
    var r := [x] + s;
    forall i, j | 0 <= i < j < |r|
      ensures r[i].time <= r[j].time
    {
      if i == 0 {
        assert r[0].time <= r[1].time;
        assert r[1].time <= r[j].time;
      }
    }
  }

  /** Places `t` in front of the first trade that is not older than it, so `t`
      precedes every trade of `s` that carries its timestamp. */
  function Insert(t: Trade, s: seq<Trade>): (r: seq<Trade>)
    requires SortedByTime(s)
    ensures SortedByTime(r)
    ensures multiset(r) == multiset(s) + multiset{t}
    ensures |r| > 0 && (r[0] == t || (|s| > 0 && r[0] == s[0]))
  {
    if |s| == 0 then [t]
    else if t.time <= s[0].time then
      SortedCons(t, s);
      [t] + s
    else
      var rest := Insert(t, s[1..]);
      assert s == [s[0]] + s[1..];
      SortedCons(s[0], rest);
      [s[0]] + rest
  }

  lemma AtTimeCons(x: Trade, s: seq<Trade>, k: real)
    ensures AtTime([x] + s, k) == if x.time == k then [x] + AtTime(s, k) else AtTime(s, k)
  {
    assert ([x] + s)[1..] == s;
  }

  /** Inserting `t` adds it in front of the trades stamped with its own time and
      leaves every other timestamp's trades as they were. */
  lemma {:induction false} InsertAtTime(t: Trade, s: seq<Trade>, k: real)
    requires SortedByTime(s)
    ensures AtTime(Insert(t, s), k) == if k == t.time then [t] + AtTime(s, k) else AtTime(s, k)
  {
    if |s| == 0 {
      AtTimeCons(t, [], k);
    } else if t.time <= s[0].time {
      AtTimeCons(t, s, k);
      if t.time < s[0].time && k == t.time {
        NoneAtTime(s, k);
      }
    } else {
      InsertAtTime(t, s[1..], k);
      AtTimeCons(s[0], Insert(t, s[1..]), k);
      assert s == [s[0]] + s[1..];
      AtTimeCons(s[0], s[1..], k);
    }
  }

  /** The replay order of a pair's trades. */
  function SortByTime(s: seq<Trade>): (r: seq<Trade>)
    ensures SortedByTime(r)
    ensures multiset(r) == multiset(s)
  {
    if |s| == 0 then []
    else
      assert s == [s[0]] + s[1..];
      Insert(s[0], SortByTime(s[1..]))
  }

  /** Stability: for every timestamp, the trades carrying it are replayed in
      the order the ledger holds them. */
  lemma {:induction false} SortByTimeStable(s: seq<Trade>, k: real)
    ensures AtTime(SortByTime(s), k) == AtTime(s, k)
  {
    if |s| > 0 {
      SortByTimeStable(s[1..], k);
      InsertAtTime(s[0], SortByTime(s[1..]), k);
      assert s == [s[0]] + s[1..];
      AtTimeCons(s[0], s[1..], k);
    }
  }
}
