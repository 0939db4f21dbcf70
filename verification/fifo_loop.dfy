/** `calculate_realized_pnl_from_trades` written the way the program runs it:
    a loop over the sorted trades around the sell loop, popping lots from the
    front of a list and inserting partial lots back at index 0. It computes
    exactly what the functional replay in module Fifo describes. */
module FifoLoop {
  import opened Trades
  import opened Rounding
  import opened TimeSort
  import opened Fifo

  /** The sell loop of one sell: returns the lots left open and the realized
      PnL the sell adds, one rounded match at a time. */
  method SellLoop(lots: seq<Lot>, price: real, volume: real) returns (queue: seq<Lot>, gained: real)
    ensures queue == MatchSell(lots, price, volume).lots
    ensures gained == SumGains(MatchSell(lots, price, volume).fills)
  {
    queue := lots;
    gained := 0.0;
    var remaining := volume;
    while remaining > 0.0 && |queue| > 0
      invariant MatchSell(queue, price, remaining).lots == MatchSell(lots, price, volume).lots
      invariant gained + SumGains(MatchSell(queue, price, remaining).fills)
                == SumGains(MatchSell(lots, price, volume).fills)
      decreases |queue|, if remaining > 0.0 then 1 else 0
    {
      MatchSellStep(queue, price, remaining);
      ghost var whole := MatchSell(queue, price, remaining);
      var lot := queue[0];
      queue := queue[1..];
      var matched := Min(remaining, lot.volume);
      var fill := Fill(lot.price, price, matched);
      // the match books its gain, rounded to eight decimals
      gained := gained + Gain(fill);
      remaining := remaining - matched;
      if lot.volume > matched {
        queue := [Lot(lot.price, lot.volume - matched)] + queue;
        assert whole == SellResult([fill], queue);
        assert MatchSell(queue, price, remaining) == SellResult([], queue);
        assert SumGains(whole.fills) == Gain(fill) + SumGains([]);
      } else {
        ghost var rest := MatchSell(queue, price, remaining);
        assert whole == SellResult([fill] + rest.fills, rest.lots);
        assert ([fill] + rest.fills)[1..] == rest.fills;
        assert SumGains(whole.fills) == Gain(fill) + SumGains(rest.fills);
      }
    }
  }

  method RealizedPnl(ts: seq<Trade>) returns (r: Option<real>)
    ensures r == RealizedFromTrades(ts)
    ensures r.None? <==> |ts| == 0
  {
    if |ts| == 0 {
      return None;
    }
    var realized := 0.0;
    var queue: seq<Lot> := [];
    var sorted := SortByTime(ts);
    var i := 0;
    while i < |sorted|
      invariant 0 <= i <= |sorted|
      invariant queue == Replay(sorted[..i]).lots
      invariant realized == Replay(sorted[..i]).realized
    {
      var t := sorted[i];
      ReplayNext(sorted, i);
      if t.side == Buy {
        queue := queue + [Lot(t.price, t.volume)];
      } else {
        var gained;
        queue, gained := SellLoop(queue, t.price, t.volume);
        realized := realized + gained;
      }
      i := i + 1;
    }
    assert sorted[..|sorted|] == sorted;
    r := Some(Round8(realized));
  }

  /** Replaying one more trade applies it to the book so far. */
  lemma {:induction false} ReplayNext(s: seq<Trade>, i: int)
    requires 0 <= i < |s|
    ensures Replay(s[..i + 1]) == Apply(Replay(s[..i]), s[i])
  {
    assert s[..i + 1][..i] == s[..i];
  }
}
