/** The position table of `calculate_unrealized_pnl`: one pass over the
    ledger that keeps, per pair, the net volume (buys minus sells) and the
    net cost (buy costs minus sell costs). */
module Positions {
  import opened Trades

  datatype Position = Position(netVolume: real, totalCost: real)

  /** The reference definition: the signed sum of one measure over the trades
      of one pair. */
  function Net(s: seq<Trade>, pair: string, m: Measure): real {
    if |s| == 0 then 0.0
    else (if s[0].pair == pair then Signed(s[0], m) else 0.0) + Net(s[1..], pair, m)
  }

  /** One iteration of the loop: create the pair's entry at zero if it is
      new, then add the trade's signed volume and cost. */
  function AddTrade(table: map<string, Position>, t: Trade): (r: map<string, Position>)
    ensures r.Keys == table.Keys + {t.pair}
    ensures forall p :: p in table && p != t.pair ==> r[p] == table[p]
    ensures t.pair !in table ==> r[t.pair] == Position(Signed(t, Volume), Signed(t, Cost))
    ensures t.pair in table ==> r[t.pair].netVolume - table[t.pair].netVolume == Signed(t, Volume)
    ensures t.pair in table ==> r[t.pair].totalCost - table[t.pair].totalCost == Signed(t, Cost)
  {
    var p := if t.pair in table then table[t.pair] else Position(0.0, 0.0);
    table[t.pair := Position(p.netVolume + Signed(t, Volume), p.totalCost + Signed(t, Cost))]
  }

  /** The loop over the ledger from a given table. Every pair ends up holding
      what it started with plus the signed sums of its trades, and the pairs
      are those it started with plus those that traded. */
  function AggregateFrom(table: map<string, Position>, s: seq<Trade>): (r: map<string, Position>)
    ensures r.Keys == table.Keys + PairsOf(s)
    ensures forall p :: p in r ==>
      var start := if p in table then table[p] else Position(0.0, 0.0);
      r[p] == Position(start.netVolume + Net(s, p, Volume), start.totalCost + Net(s, p, Cost))
    decreases |s|
  {
    if |s| == 0 then table
    else
      var next := AddTrade(table, s[0]);
      var r := AggregateFrom(next, s[1..]);
      StepKeys(table, s, r);
      StepValues(table, s, r);
      r
  }

  /** Every pair of `r` holds its start value in `table` plus the signed sums
      of its trades in `s`. */
  predicate Summarises(table: map<string, Position>, s: seq<Trade>, r: map<string, Position>) {
    forall p :: p in r ==>
      var start := if p in table then table[p] else Position(0.0, 0.0);
      r[p] == Position(start.netVolume + Net(s, p, Volume), start.totalCost + Net(s, p, Cost))
  }

  lemma {:induction false} StepKeys(table: map<string, Position>, s: seq<Trade>, r: map<string, Position>)
    requires |s| > 0
    requires r.Keys == AddTrade(table, s[0]).Keys + PairsOf(s[1..])
    ensures r.Keys == table.Keys + PairsOf(s)
  {
  }

  lemma {:induction false} StepValues(table: map<string, Position>, s: seq<Trade>, r: map<string, Position>)
    requires |s| > 0
    requires Summarises(AddTrade(table, s[0]), s[1..], r)
    ensures Summarises(table, s, r)
  {
  }

  /** `trades_by_pair`: exactly the pairs with at least one trade, each with
      its net volume and net cost. */
  function Aggregate(s: seq<Trade>): (r: map<string, Position>)
    ensures r.Keys == PairsOf(s)
    ensures forall p :: p in r ==> r[p] == Position(Net(s, p, Volume), Net(s, p, Cost))
  {
    AggregateFrom(map[], s)
  }

  lemma {:induction false} NetConcat(a: seq<Trade>, b: seq<Trade>, pair: string, m: Measure)
    ensures Net(a + b, pair, m) == Net(a, pair, m) + Net(b, pair, m)
  {
    if |a| == 0 {
      assert a + b == b;
    } else {
      assert (a + b)[1..] == a[1..] + b;
      NetConcat(a[1..], b, pair, m);
    }
  }

  /** Taking one trade out of the walk leaves its contribution aside. */
  lemma NetRemove(b: seq<Trade>, i: int, pair: string, m: Measure)
    requires 0 <= i < |b|
    ensures Net(b, pair, m) == (if b[i].pair == pair then Signed(b[i], m) else 0.0) + Net(b[..i] + b[i + 1..], pair, m)
  {
    assert b == b[..i] + [b[i]] + b[i + 1..];
    NetConcat(b[..i] + [b[i]], b[i + 1..], pair, m);
    NetConcat(b[..i], [b[i]], pair, m);
    NetConcat(b[..i], b[i + 1..], pair, m);
    assert [b[i]][1..] == [];
  }

  /** The signed sums do not depend on the order of the trades. */
  lemma {:induction false} NetPermutation(a: seq<Trade>, b: seq<Trade>, pair: string, m: Measure)
    requires multiset(a) == multiset(b)
    ensures Net(a, pair, m) == Net(b, pair, m)
    decreases |a|
  {
    if |a| == 0 {
      assert |b| == |multiset(b)| == 0;
    } else {
      var x := a[0];
      assert x in multiset(b);
      var i :| 0 <= i < |b| && b[i] == x;
      var rest := b[..i] + b[i + 1..];
      RemoveOne(b, i);
      assert a == [x] + a[1..];
      assert multiset(a[1..]) == multiset(rest);
      NetPermutation(a[1..], rest, pair, m);
      NetRemove(b, i, pair, m);
    }
  }

  lemma RemoveOne(b: seq<Trade>, i: int)
    requires 0 <= i < |b|
    ensures multiset(b[..i] + b[i + 1..]) == multiset(b) - multiset{b[i]}
  {
    assert b == b[..i] + [b[i]] + b[i + 1..];
  }

  /** The table does not depend on the order in which the ledger is walked. */
  lemma AggregateOrderIndependent(a: seq<Trade>, b: seq<Trade>)
    requires multiset(a) == multiset(b)
    ensures Aggregate(a) == Aggregate(b)
  {
    PairsOfIndex(a);
    PairsOfIndex(b);
    forall p | p in PairsOf(a)
      ensures p in PairsOf(b)
    {
      var i :| 0 <= i < |a| && a[i].pair == p;
      assert a[i] in multiset(b);
    }
    forall p | p in PairsOf(b)
      ensures p in PairsOf(a)
    {
      var i :| 0 <= i < |b| && b[i].pair == p;
      assert b[i] in multiset(a);
    }
    forall p | p in PairsOf(a)
      ensures Aggregate(a)[p] == Aggregate(b)[p]
    {
      NetPermutation(a, b, p, Volume);
      NetPermutation(a, b, p, Cost);
    }
  }
}
