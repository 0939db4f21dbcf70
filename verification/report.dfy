/** `calculate_realized_pnl` and `calculate_total_pnl`: the ledger is
    grouped by pair, each requested pair's trades go through the FIFO
    matcher, and the realized and unrealized totals are added, an absent side
    counting as 0. */
module Report {
  import opened Trades
  import opened Rounding
  import opened Ledger
  import opened TimeSort
  import opened Fifo
  import opened Unrealized

  /** The trades of one pair, in ledger order: empty exactly for a pair that
      never traded. */
  function PairTrades(s: seq<Trade>, pair: string): (r: seq<Trade>)
    ensures |r| == 0 <==> pair !in PairsOf(s)
  {
    if |s| == 0 then []
    else
      var t := s[|s| - 1];
      PairsOfSnoc(s);
      PairTrades(s[..|s| - 1], pair) + (if t.pair == pair then [t] else [])
  }

  /** A pair's trades are exactly the ledger's trades in that pair. */
  lemma {:induction false} PairTradesMembers(s: seq<Trade>, pair: string)
    ensures forall t :: t in PairTrades(s, pair) <==> t in s && t.pair == pair
  {
    if |s| > 0 {
      var init := s[..|s| - 1];
      var t := s[|s| - 1];
      PairTradesMembers(init, pair);
      assert s == init + [t];
      assert forall x :: x in s <==> x in init || x == t;
    }
  }

  /** Adding the next trade of the ledger to its group keeps every group equal
      to its pair's trades. */
  lemma GroupStep(s: seq<Trade>, g: map<string, seq<Trade>>)
    requires |s| > 0
    requires forall p :: p in g ==> g[p] == PairTrades(s[..|s| - 1], p)
    requires g.Keys == PairsOf(s[..|s| - 1])
    ensures var t := s[|s| - 1];
            var g' := g[t.pair := (if t.pair in g then g[t.pair] else []) + [t]];
            g'.Keys == PairsOf(s) && forall p :: p in g' ==> g'[p] == PairTrades(s, p)
  {
    PairsOfSnoc(s);
    var init := s[..|s| - 1];
    var t := s[|s| - 1];
    var g' := g[t.pair := (if t.pair in g then g[t.pair] else []) + [t]];
    forall p | p in g'
      ensures g'[p] == PairTrades(s, p)
    {
      PairTradesSnoc(s, p);
      if p != t.pair {
        assert g'[p] == g[p];
      } else if t.pair !in g {
        assert p !in PairsOf(init);
      }
    }
  }

  lemma PairTradesSnoc(s: seq<Trade>, p: string)
    requires |s| > 0
    ensures PairTrades(s, p) == PairTrades(s[..|s| - 1], p) + if s[|s| - 1].pair == p then [s[|s| - 1]] else []
  {
  }

  /** `trade_histories`: one pass over the ledger appending each trade to its
      pair's group, which is created on the pair's first trade. */
  function Group(s: seq<Trade>): (g: map<string, seq<Trade>>)
    ensures g.Keys == PairsOf(s)
    ensures forall p :: p in g ==> g[p] == PairTrades(s, p)
  {
    if |s| == 0 then map[]
    else
      var g := Group(s[..|s| - 1]);
      var t := s[|s| - 1];
      GroupStep(s, g);
      g[t.pair := (if t.pair in g then g[t.pair] else []) + [t]]
  }

  /** The loop over the requested pairs: a pair without trades is skipped; a
      pair whose FIFO result is present is recorded and added to the total. */
  function RealizeAll(groups: map<string, seq<Trade>>, pairs: seq<string>): (r: Breakdown)
    ensures forall p :: p in r.perPair <==> p in pairs && p in groups && |groups[p]| > 0
    ensures forall p :: p in r.perPair ==> p in groups && RealizedFromTrades(groups[p]) == Some(r.perPair[p])
  {
    if |pairs| == 0 then Breakdown(map[], 0.0)
    else
      var r := RealizeAll(groups, pairs[..|pairs| - 1]);
      var p := pairs[|pairs| - 1];
      assert forall q :: q in pairs <==> q in pairs[..|pairs| - 1] || q == p;
      if p !in groups then r
      else
        var pnl := RealizedFromTrades(groups[p]);
        if pnl.Some? then Breakdown(r.perPair[p := pnl.value], r.total + pnl.value)
        else r
  }

  /** The total is the sum of the per-pair results over the request, a pair
      requested twice counting twice. */
  lemma {:induction false} RealizeAllTotal(groups: map<string, seq<Trade>>, pairs: seq<string>)
    ensures RealizeAll(groups, pairs).total == SumListed(pairs, RealizeAll(groups, pairs).perPair)
  {
    if |pairs| > 0 {
      var init := pairs[..|pairs| - 1];
      var p := pairs[|pairs| - 1];
      var r := RealizeAll(groups, init);
      RealizeAllTotal(groups, init);
      if p in groups && |groups[p]| > 0 {
        SumListedRewrite(init, r.perPair, p, RealizedFromTrades(groups[p]).value);
      }
    }
  }

  /** `calculate_realized_pnl(pairs)`: absent when the ledger is empty;
      otherwise every requested pair that traded gets its FIFO result over its
      own trades in ledger order, and the total, rounded to eight decimals, is
      the sum of the entries over the request. */
  function RealizedPnl(ledger: Dict, request: Option<seq<string>>): (r: Option<Breakdown>)
    ensures r.None? <==> |ledger| == 0
    ensures r.Some? ==> forall p :: p in r.value.perPair <==>
      p in Requested(Values(ledger), request) && p in PairsOf(Values(ledger))
    ensures r.Some? ==> forall p :: p in r.value.perPair ==>
      RealizedFromTrades(PairTrades(Values(ledger), p)) == Some(r.value.perPair[p])
    ensures r.Some? ==> r.value.total == Round8(SumListed(Requested(Values(ledger), request), r.value.perPair))
  {
    if |ledger| == 0 then None
    else
      var trades := Values(ledger);
      var groups := Group(trades);
      var b := RealizeAll(groups, Requested(trades, request));
      RealizeAllTotal(groups, Requested(trades, request));
      Some(Breakdown(b.perPair, Round8(b.total)))
  }

  /** The combination step: an absent total counts as 0. */
  function Combine(unrealized: Option<real>, realized: Option<real>): (r: real)
    ensures unrealized.None? && realized.None? ==> r == 0.0
    ensures unrealized.Some? && realized.None? ==> r == unrealized.value
    ensures unrealized.None? && realized.Some? ==> r == realized.value
    ensures unrealized.Some? && realized.Some? ==> r == unrealized.value + realized.value
  {
    unrealized.GetOr(0.0) + realized.GetOr(0.0)
  }

  function TotalOf(b: Option<Breakdown>): Option<real> {
    if b.Some? then Some(b.value.total) else None
  }

  /** `calculate_total_pnl` over one ledger and one price map: always a number,
      0 for an empty ledger, otherwise the realized total plus the unrealized
      total over all traded pairs. */
  function TotalPnl(ledger: Dict, prices: map<string, real>): (r: real)
    ensures |ledger| == 0 ==> r == 0.0
    ensures |ledger| > 0 ==>
      r == UnrealizedPnl(ledger, prices, None).value.total + RealizedPnl(ledger, None).value.total
  {
    Combine(TotalOf(UnrealizedPnl(ledger, prices, None)), TotalOf(RealizedPnl(ledger, None)))
  }

  /** Receiving the same page twice leaves every figure of the report as
      receiving it once. */
  lemma ReportIgnoresRepeatedBatch(w: Walk, b: Dict, prices: map<string, real>)
    requires UniqueIds(w.trades)
    requires |b| > 0
    ensures var once := MergeBatch(w, b).value.trades;
            var twice := MergeBatch(MergeBatch(w, b).value, b).value.trades;
            && TotalPnl(twice, prices) == TotalPnl(once, prices)
            && RealizedPnl(twice, None) == RealizedPnl(once, None)
            && UnrealizedPnl(twice, prices, None) == UnrealizedPnl(once, prices, None)
  {
    MergeBatchIdempotent(w, b);
  }
}
