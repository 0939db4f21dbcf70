/** The unrealized-PnL engine of `calculate_unrealized_pnl`: each requested
    pair that is held net long and has a known price is marked to market;
    every other pair is skipped without error. */
module Unrealized {
  import opened Trades
  import opened Rounding
  import opened Positions
  import opened Ledger

  /** `current_prices.get(pair, 0)`: a missing price reads as 0, so a
      non-zero price always comes from the map. */
  function PriceOf(prices: map<string, real>, pair: string): (r: real)
    ensures pair in prices ==> r == prices[pair]
    ensures r != 0.0 ==> pair in prices
  {
    if pair in prices then prices[pair] else 0.0
  }

  /** `(current_price - total_cost / net_volume) * net_volume`: the value of the
      holding at today's price minus what it cost. */
  function Mark(pos: Position, price: real): (r: real)
    requires pos.netVolume > 0.0
    ensures r == price * pos.netVolume - pos.totalCost
  {
    var avgEntry := pos.totalCost / pos.netVolume;
    (price - avgEntry) * pos.netVolume
  }

  /** A pair is marked when it has a position, the position is net long, and
      its price is not 0. */
  predicate Marked(table: map<string, Position>, prices: map<string, real>, pair: string) {
    pair in table && table[pair].netVolume > 0.0 && PriceOf(prices, pair) != 0.0
  }

  /** The loop over the requested pairs, in order. A pair requested twice is
      written once into the per-pair map but added twice to the total, as in
      the program. */
  function MarkAll(table: map<string, Position>, prices: map<string, real>, pairs: seq<string>): (r: Breakdown)
    ensures forall p :: p in r.perPair <==> p in pairs && Marked(table, prices, p)
    ensures forall p :: p in r.perPair ==> Marked(table, prices, p) && r.perPair[p] == Mark(table[p], PriceOf(prices, p))
  {
    if |pairs| == 0 then Breakdown(map[], 0.0)
    else
      var r := MarkAll(table, prices, pairs[..|pairs| - 1]);
      var p := pairs[|pairs| - 1];
      assert forall q :: q in pairs <==> q in pairs[..|pairs| - 1] || q == p;
      if p !in table then r
      else if table[p].netVolume <= 0.0 then r
      else
        var price := PriceOf(prices, p);
        if price == 0.0 then r
        else
          var pnl := Mark(table[p], price);
          Breakdown(r.perPair[p := pnl], r.total + pnl)
  }

  /** The total is the sum of the per-pair entries over the request, a pair
      requested twice counting twice. */
  lemma {:induction false} MarkAllTotal(table: map<string, Position>, prices: map<string, real>, pairs: seq<string>)
    ensures MarkAll(table, prices, pairs).total == SumListed(pairs, MarkAll(table, prices, pairs).perPair)
  {
    if |pairs| > 0 {
      var init := pairs[..|pairs| - 1];
      var p := pairs[|pairs| - 1];
      var r := MarkAll(table, prices, init);
      MarkAllTotal(table, prices, init);
      if Marked(table, prices, p) {
        SumListedRewrite(init, r.perPair, p, Mark(table[p], PriceOf(prices, p)));
      }
    }
  }

  /** With no positions nothing is marked and the total is 0. */
  lemma {:induction false} MarkAllNoPositions(prices: map<string, real>, pairs: seq<string>)
    ensures MarkAll(map[], prices, pairs) == Breakdown(map[], 0.0)
  {
    if |pairs| > 0 {
      MarkAllNoPositions(prices, pairs[..|pairs| - 1]);
    }
  }

  /** MarkAll's contract restated over the ledger's signed sums. */
  lemma MarkedInLedger(trades: seq<Trade>, prices: map<string, real>, pairs: seq<string>, m: Breakdown)
    requires m == MarkAll(Aggregate(trades), prices, pairs)
    ensures forall p :: p in m.perPair <==>
      p in pairs && p in PairsOf(trades) && Net(trades, p, Volume) > 0.0 && PriceOf(prices, p) != 0.0
    ensures forall p :: p in m.perPair ==>
      && Net(trades, p, Volume) > 0.0
      && m.perPair[p] == Mark(Position(Net(trades, p, Volume), Net(trades, p, Cost)), PriceOf(prices, p))
  {
    var table := Aggregate(trades);
    forall p
      ensures p in m.perPair <==>
        p in pairs && p in PairsOf(trades) && Net(trades, p, Volume) > 0.0 && PriceOf(prices, p) != 0.0
    {
      if p in PairsOf(trades) {
        assert table[p].netVolume == Net(trades, p, Volume);
      }
    }
    forall p | p in m.perPair
      ensures Net(trades, p, Volume) > 0.0 &&
        m.perPair[p] == Mark(Position(Net(trades, p, Volume), Net(trades, p, Cost)), PriceOf(prices, p))
    {
      assert table[p] == Position(Net(trades, p, Volume), Net(trades, p, Cost));
    }
  }

  /** `calculate_unrealized_pnl(pairs)` with the prices passed in: absent when
      the ledger is empty; otherwise the positions of the whole ledger marked
      for the requested pairs, and the total, rounded to eight decimals, is
      the sum of the entries over the request. */
  function UnrealizedPnl(ledger: Dict, prices: map<string, real>, request: Option<seq<string>>): (r: Option<Breakdown>)
    ensures r.None? <==> |ledger| == 0
    ensures r.Some? ==> forall p :: p in r.value.perPair <==>
      && p in Requested(Values(ledger), request)
      && p in PairsOf(Values(ledger))
      && Net(Values(ledger), p, Volume) > 0.0
      && PriceOf(prices, p) != 0.0
    ensures r.Some? ==> forall p :: p in r.value.perPair ==>
      && Net(Values(ledger), p, Volume) > 0.0
      && r.value.perPair[p] == Mark(Position(Net(Values(ledger), p, Volume), Net(Values(ledger), p, Cost)), PriceOf(prices, p))
    ensures r.Some? ==> r.value.total == Round8(SumListed(Requested(Values(ledger), request), r.value.perPair))
  {
    if |ledger| == 0 then None
    else
      var trades := Values(ledger);
      var pairs := Requested(trades, request);
      var m := MarkAll(Aggregate(trades), prices, pairs);
      MarkedInLedger(trades, prices, pairs, m);
      MarkAllTotal(Aggregate(trades), prices, pairs);
      Some(Breakdown(m.perPair, Round8(m.total)))
  }
}
