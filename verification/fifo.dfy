/** The realized-PnL engine for one pair: trades are replayed oldest first;
    a buy opens a lot at the back of a queue, a sell consumes lots from the
    front, and every match books `(sell price - buy price) * matched volume`,
    rounded to eight decimals on its own. */
module Fifo {
  import opened Trades
  import opened Rounding
  import opened TimeSort

  /** An open buy lot: its purchase price and the volume still unsold. */
  datatype Lot = Lot(price: real, volume: real)

  /** One match of a sell against a lot. */
  datatype Fill = Fill(buyPrice: real, sellPrice: real, volume: real)

  /** What one sell leaves: the matches it made, oldest lot first, and the
      queue of lots still open afterwards. */
  datatype SellResult = SellResult(fills: seq<Fill>, lots: seq<Lot>)

  /** The replay state: the lot queue, the running realized PnL, and the log of
      every match made so far (the log is not kept by the program; it states
      what the running total is a sum of). */
  datatype Book = Book(lots: seq<Lot>, realized: real, fills: seq<Fill>)

  function Min(a: real, b: real): real {
    if a <= b then a else b
  }

  /** The amount one step of the sell loop takes from the front lot:
      `min(remaining, lot volume)`. */
  function Take(remaining: real, lotVolume: real): (matched: real)
    ensures matched <= remaining && matched <= lotVolume
    ensures matched == remaining || matched == lotVolume
    ensures remaining > 0.0 && lotVolume > 0.0 ==> matched > 0.0
    ensures remaining - matched >= 0.0
  {
    Min(remaining, lotVolume)
  }

  /** The profit one match books, rounded to eight decimals. */
  function Gain(f: Fill): (g: real)
    ensures OnGrid(g)
    ensures -0.5 <= (g - (f.sellPrice - f.buyPrice) * f.volume) * 100000000.0 <= 0.5
  {
    Round8((f.sellPrice - f.buyPrice) * f.volume)
  }

  function SumGains(fs: seq<Fill>): real {
    if |fs| == 0 then 0.0 else Gain(fs[0]) + SumGains(fs[1..])
  }

  function FilledVolume(fs: seq<Fill>): real {
    if |fs| == 0 then 0.0 else fs[0].volume + FilledVolume(fs[1..])
  }

  function QueueVolume(q: seq<Lot>): real {
    if |q| == 0 then 0.0 else q[0].volume + QueueVolume(q[1..])
  }

  predicate AllPositive(q: seq<Lot>) {
    forall i :: 0 <= i < |q| ==> q[i].volume > 0.0
  }

  /** The FIFO discipline of one sell: the k matches are made against the
      first k lots in queue order at those lots' prices; all but the last
      take their lot whole; what stays open is the untouched suffix, headed
      by the remainder of lot k when that one was only partly sold. */
  predicate FifoShape(q: seq<Lot>, sellPrice: real, r: SellResult) {
    var k := |r.fills|;
    && k <= |q|
    && (forall i :: 0 <= i < k ==> r.fills[i].buyPrice == q[i].price && r.fills[i].sellPrice == sellPrice)
    && (forall i :: 0 <= i < k - 1 ==> r.fills[i].volume == q[i].volume)
    && (|| (r.lots == q[k..] && (k > 0 ==> r.fills[k - 1].volume == q[k - 1].volume))
        || (&& k > 0
            && q[k - 1].volume > r.fills[k - 1].volume
            && r.lots == [Lot(q[k - 1].price, q[k - 1].volume - r.fills[k - 1].volume)] + q[k..]))
  }

  /** The sell loop: while volume remains and a lot is open, pop the front lot,
      match `Take(remaining, lot volume)` against it, and push what is left of
      the lot back onto the FRONT. When the queue runs dry first, the rest of
      the sell is dropped. Each turn either ends the sell (the front lot was
      only partly sold, so nothing remains) or removes a whole lot, which is
      why the loop stops. */
  function MatchSell(q: seq<Lot>, sellPrice: real, remaining: real): (r: SellResult)
    ensures |r.fills| > 0 <==> remaining > 0.0 && |q| > 0
    ensures |r.lots| <= |q|
    decreases |q|, if remaining > 0.0 then 1 else 0
  {
    if remaining <= 0.0 || |q| == 0 then SellResult([], q)
    else
      var lot := q[0];
      var matched := Take(remaining, lot.volume);
      var fill := Fill(lot.price, sellPrice, matched);
      if lot.volume > matched then
        var rest := MatchSell([Lot(lot.price, lot.volume - matched)] + q[1..], sellPrice, remaining - matched);
        SellResult([fill] + rest.fills, rest.lots)
      else
        var rest := MatchSell(q[1..], sellPrice, remaining - matched);
        SellResult([fill] + rest.fills, rest.lots)
  }

  /** Every sell follows the FIFO discipline. */
  lemma {:induction false} MatchSellFifo(q: seq<Lot>, sellPrice: real, remaining: real)
    ensures FifoShape(q, sellPrice, MatchSell(q, sellPrice, remaining))
    decreases |q|
  {
    if remaining > 0.0 && |q| > 0 {
      MatchSellStep(q, sellPrice, remaining);
      var matched := Take(remaining, q[0].volume);
      if q[0].volume <= matched {
        MatchSellFifo(q[1..], sellPrice, remaining - matched);
        ShapeCons(q, sellPrice, Fill(q[0].price, sellPrice, matched), MatchSell(q[1..], sellPrice, remaining - matched));
      }
    }
  }

  /** A whole-lot match in front of a FIFO-shaped remainder is FIFO-shaped. */
  lemma ShapeCons(q: seq<Lot>, sellPrice: real, fill: Fill, rest: SellResult)
    requires |q| > 0
    requires fill == Fill(q[0].price, sellPrice, q[0].volume)
    requires FifoShape(q[1..], sellPrice, rest)
    ensures FifoShape(q, sellPrice, SellResult([fill] + rest.fills, rest.lots))
  {
    var r := SellResult([fill] + rest.fills, rest.lots);
    var k := |r.fills|;
    assert q[1..][k - 1..] == q[k..];
    forall i | 1 <= i < k
      ensures r.fills[i] == rest.fills[i - 1] && q[i] == q[1..][i - 1]
    {
    }
  }

  lemma {:induction false} QueueVolumeConcat(a: seq<Lot>, b: seq<Lot>)
    ensures QueueVolume(a + b) == QueueVolume(a) + QueueVolume(b)
  {
    if |a| > 0 {
      assert (a + b)[1..] == a[1..] + b;
      QueueVolumeConcat(a[1..], b);
    } else {
      assert a + b == b;
    }
  }

  lemma {:induction false} FilledVolumeConcat(a: seq<Fill>, b: seq<Fill>)
    ensures FilledVolume(a + b) == FilledVolume(a) + FilledVolume(b)
  {
    if |a| > 0 {
      assert (a + b)[1..] == a[1..] + b;
      FilledVolumeConcat(a[1..], b);
    } else {
      assert a + b == b;
    }
  }

  lemma {:induction false} SumGainsConcat(a: seq<Fill>, b: seq<Fill>)
    ensures SumGains(a + b) == SumGains(a) + SumGains(b)
  {
    if |a| > 0 {
      assert (a + b)[1..] == a[1..] + b;
      SumGainsConcat(a[1..], b);
    } else {
      assert a + b == b;
    }
  }

  /** Volume is conserved by a sell: what was matched plus what stays open is
      what was open before. */
  lemma {:induction false} MatchSellConserves(q: seq<Lot>, sellPrice: real, remaining: real)
    ensures QueueVolume(MatchSell(q, sellPrice, remaining).lots)
            + FilledVolume(MatchSell(q, sellPrice, remaining).fills) == QueueVolume(q)
    decreases |q|, if remaining > 0.0 then 1 else 0
  {
    if remaining <= 0.0 || |q| == 0 {
    } else {
      var lot := q[0];
      var matched := Take(remaining, lot.volume);
      if lot.volume > matched {
        var q' := [Lot(lot.price, lot.volume - matched)] + q[1..];
        assert q'[1..] == q[1..];
        MatchSellConserves(q', sellPrice, remaining - matched);
      } else {
        MatchSellConserves(q[1..], sellPrice, remaining - matched);
      }
    }
  }

  /** One turn of the sell loop, unfolded: a partly sold front lot ends the
      sell; a wholly sold one is dropped and the loop goes on. */
  lemma MatchSellStep(q: seq<Lot>, sellPrice: real, remaining: real)
    requires remaining > 0.0 && |q| > 0
    ensures var matched := Take(remaining, q[0].volume);
            var fill := Fill(q[0].price, sellPrice, matched);
            MatchSell(q, sellPrice, remaining) ==
              if q[0].volume > matched then
                SellResult([fill], [Lot(q[0].price, q[0].volume - matched)] + q[1..])
              else
                var rest := MatchSell(q[1..], sellPrice, remaining - matched);
                SellResult([fill] + rest.fills, rest.lots)
  {
  }

  /** A sell leaves only positive lots open when it starts from positive ones. */
  lemma MatchSellKeepsPositive(q: seq<Lot>, sellPrice: real, remaining: real)
    requires AllPositive(q)
    ensures AllPositive(MatchSell(q, sellPrice, remaining).lots)
  {
    MatchSellFifo(q, sellPrice, remaining);
    var r := MatchSell(q, sellPrice, remaining);
    var k := |r.fills|;
    if r.lots != q[k..] {
      forall i | 1 <= i < |r.lots|
        ensures r.lots[i].volume > 0.0
      {
        assert r.lots[i] == q[k + i - 1];
      }
    } else {
      forall i | 0 <= i < |r.lots|
        ensures r.lots[i].volume > 0.0
      {
        assert r.lots[i] == q[k + i];
      }
    }
  }

  /** A sell matches exactly `min(sell volume, open volume)`: all of it when
      enough is open, otherwise the whole queue. This needs the open lots to
      be positive. */
  lemma {:induction false} MatchSellVolume(q: seq<Lot>, sellPrice: real, remaining: real)
    requires AllPositive(q)
    requires remaining >= 0.0
    ensures FilledVolume(MatchSell(q, sellPrice, remaining).fills) == Min(remaining, QueueVolume(q))
    decreases |q|
  {
    PositiveQueueVolume(q);
    if remaining > 0.0 && |q| > 0 {
      var r := MatchSell(q, sellPrice, remaining);
      var matched := Take(remaining, q[0].volume);
      PositiveQueueVolume(q[1..]);
      MatchSellStep(q, sellPrice, remaining);
      if q[0].volume > matched {
        assert r.fills == [Fill(q[0].price, sellPrice, remaining)];
        assert FilledVolume(r.fills) == remaining;
      } else {
        var rest := MatchSell(q[1..], sellPrice, remaining - matched);
        assert r.fills == [Fill(q[0].price, sellPrice, q[0].volume)] + rest.fills;
        assert ([Fill(q[0].price, sellPrice, q[0].volume)] + rest.fills)[1..] == rest.fills;
        MatchSellVolume(q[1..], sellPrice, remaining - matched);
        assert FilledVolume(r.fills) == q[0].volume + Min(remaining - q[0].volume, QueueVolume(q[1..]));
      }
    }
  }

  /** Oversold tolerance: a sell at least as large as everything open empties
      the queue, and the excess is ignored. */
  lemma {:induction false} MatchSellOversold(q: seq<Lot>, sellPrice: real, remaining: real)
    requires AllPositive(q)
    requires remaining >= QueueVolume(q)
    ensures MatchSell(q, sellPrice, remaining).lots == []
    decreases |q|
  {
    if |q| > 0 {
      PositiveQueueVolume(q[1..]);
      assert remaining > 0.0;
      MatchSellStep(q, sellPrice, remaining);
      var matched := Take(remaining, q[0].volume);
      assert matched == q[0].volume;
      MatchSellOversold(q[1..], sellPrice, remaining - matched);
    }
  }

  lemma {:induction false} PositiveQueueVolume(q: seq<Lot>)
    requires AllPositive(q)
    ensures QueueVolume(q) >= 0.0
    ensures |q| > 0 ==> QueueVolume(q) > 0.0
  {
    if |q| > 0 {
      PositiveQueueVolume(q[1..]);
    }
  }

  /** One trade of the replay: a buy appends its lot at the back; a sell runs
      the sell loop and books its matches. */
  function Apply(b: Book, t: Trade): (r: Book)
    ensures t.side == Buy ==> r.lots == b.lots + [Lot(t.price, t.volume)] && r.realized == b.realized
    ensures t.side == Buy ==> r.fills == b.fills
    ensures t.side == Sell ==> |r.lots| <= |b.lots| && b.fills <= r.fills
  {
    match t.side
    case Buy => Book(b.lots + [Lot(t.price, t.volume)], b.realized, b.fills)
    case Sell =>
      var m := MatchSell(b.lots, t.price, t.volume);
      MatchSellFifo(b.lots, t.price, t.volume);
      Book(m.lots, b.realized + SumGains(m.fills), b.fills + m.fills)
  }

  const Empty: Book := Book([], 0.0, [])

  /** The book after replaying `ts` in the order given. */
  function Replay(ts: seq<Trade>): (r: Book)
    ensures |r.lots| <= |ts|
    ensures |ts| > 0 ==> Replay(ts[..|ts| - 1]).fills <= r.fills
  {
    if |ts| == 0 then Empty else Apply(Replay(ts[..|ts| - 1]), ts[|ts| - 1])
  }

  /** Total volume of the buys in `ts`. */
  function BuyVolume(ts: seq<Trade>): real {
    if |ts| == 0 then 0.0
    else BuyVolume(ts[..|ts| - 1]) + (if ts[|ts| - 1].side == Buy then ts[|ts| - 1].volume else 0.0)
  }

  /** The running realized PnL is the sum of the rounded gains of every match
      made so far. */
  lemma {:induction false} ReplayRealized(ts: seq<Trade>)
    ensures Replay(ts).realized == SumGains(Replay(ts).fills)
  {
    if |ts| > 0 {
      var prev := Replay(ts[..|ts| - 1]);
      ReplayRealized(ts[..|ts| - 1]);
      var t := ts[|ts| - 1];
      if t.side == Sell {
        SumGainsConcat(prev.fills, MatchSell(prev.lots, t.price, t.volume).fills);
      }
    }
  }

  /** Conservation after every prefix of the replay: the volume still open is
      the volume bought minus the volume matched. */
  lemma {:induction false} ReplayConserves(ts: seq<Trade>)
    ensures QueueVolume(Replay(ts).lots) == BuyVolume(ts) - FilledVolume(Replay(ts).fills)
  {
    if |ts| > 0 {
      var prev := Replay(ts[..|ts| - 1]);
      ReplayConserves(ts[..|ts| - 1]);
      var t := ts[|ts| - 1];
      if t.side == Buy {
        QueueVolumeConcat(prev.lots, [Lot(t.price, t.volume)]);
      } else {
        var m := MatchSell(prev.lots, t.price, t.volume);
        MatchSellConserves(prev.lots, t.price, t.volume);
        FilledVolumeConcat(prev.fills, m.fills);
      }
    }
  }

  /** Every trade in `ts` has a positive volume, as the exchange guarantees. */
  predicate PositiveVolumes(ts: seq<Trade>) {
    forall i :: 0 <= i < |ts| ==> ts[i].volume > 0.0
  }

  /** With positive trade volumes, every open lot has positive volume after any
      prefix of the replay. */
  lemma {:induction false} ReplayLotsPositive(ts: seq<Trade>)
    requires PositiveVolumes(ts)
    ensures AllPositive(Replay(ts).lots)
  {
    if |ts| > 0 {
      var prev := Replay(ts[..|ts| - 1]);
      ReplayLotsPositive(ts[..|ts| - 1]);
      var t := ts[|ts| - 1];
      if t.side == Sell {
        MatchSellKeepsPositive(prev.lots, t.price, t.volume);
      }
    }
  }

  /** `calculate_realized_pnl_from_trades`: absent for an empty trade set;
      otherwise the replay of the trades in time order, its total rounded to
      eight decimals. */
  function RealizedFromTrades(ts: seq<Trade>): (r: Option<real>)
    ensures r.None? <==> |ts| == 0
    ensures r.Some? ==> r.value == Round8(SumGains(Replay(SortByTime(ts)).fills))
    ensures r.Some? ==> OnGrid(r.value)
  {
    if |ts| == 0 then None
    else
      ReplayRealized(SortByTime(ts));
      Some(Round8(Replay(SortByTime(ts)).realized))
  }
}
