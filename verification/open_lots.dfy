/** Unrealized PnL is the paper profit of the volume still held: the lots the
    FIFO replay leaves open, each marked at today's price against its own
    purchase price. The program instead marks the whole net position against
    its net cost, and the net cost has every sale's proceeds taken off it. This
    module proves that the program's figure is therefore the FIFO realized
    profit plus the paper profit of the open lots, so a total that adds the
    realized profit to it counts that profit twice. */
module OpenLots {
  import opened Trades
  import opened TimeSort
  import opened Fifo
  import opened Positions
  import opened Unrealized
  import opened Rounding
  import opened Ledger
  import opened Report

  /** A match's profit before rounding. */
  function RawGain(f: Fill): real {
    (f.sellPrice - f.buyPrice) * f.volume
  }

  function RawGains(fs: seq<Fill>): real {
    if |fs| == 0 then 0.0 else RawGain(fs[0]) + RawGains(fs[1..])
  }

  /** What the matched volume was bought for. */
  function FillCost(fs: seq<Fill>): real {
    if |fs| == 0 then 0.0 else fs[0].buyPrice * fs[0].volume + FillCost(fs[1..])
  }

  /** What the matched volume was sold for. */
  function FillProceeds(fs: seq<Fill>): real {
    if |fs| == 0 then 0.0 else fs[0].sellPrice * fs[0].volume + FillProceeds(fs[1..])
  }

  /** What the open lots were bought for. */
  function LotCost(q: seq<Lot>): real {
    if |q| == 0 then 0.0 else q[0].price * q[0].volume + LotCost(q[1..])
  }

  /** The paper profit of the open lots at `price`. */
  function OpenValue(q: seq<Lot>, price: real): real {
    if |q| == 0 then 0.0 else (price - q[0].price) * q[0].volume + OpenValue(q[1..], price)
  }

  /** Volume, cost (price times volume) and sale proceeds of the buys and of
      the sells of a ledger. */
  function SellVolume(ts: seq<Trade>): real {
    if |ts| == 0 then 0.0 else SellVolume(ts[..|ts| - 1]) + Sold(ts[|ts| - 1])
  }

  function BuyCost(ts: seq<Trade>): real {
    if |ts| == 0 then 0.0 else BuyCost(ts[..|ts| - 1]) + Paid(ts[|ts| - 1])
  }

  function SellProceeds(ts: seq<Trade>): real {
    if |ts| == 0 then 0.0 else SellProceeds(ts[..|ts| - 1]) + Received(ts[|ts| - 1])
  }

  /** What a buy paid, price times volume; a sell pays nothing. */
  function Paid(t: Trade): real {
    if t.side == Buy then t.price * t.volume else 0.0
  }

  /** What a sell sold; a buy sells nothing. */
  function Sold(t: Trade): real {
    if t.side == Sell then t.volume else 0.0
  }

  /** What a sell brought, price times volume; a buy brings nothing. */
  function Received(t: Trade): real {
    if t.side == Sell then t.price * t.volume else 0.0
  }

  /** No sell of `ts` is larger than the volume open when it is replayed, so no
      sell volume is dropped. */
  predicate Covered(ts: seq<Trade>) {
    || |ts| == 0
    || (&& Covered(ts[..|ts| - 1])
        && (ts[|ts| - 1].side == Sell ==> ts[|ts| - 1].volume <= QueueVolume(Replay(ts[..|ts| - 1]).lots)))
  }

  /** The trades of one pair as the exchange reports them: positive volumes,
      and a cost that is price times volume. */
  predicate Consistent(ts: seq<Trade>, pair: string) {
    forall t :: t in ts ==> t.pair == pair && t.volume > 0.0 && t.cost == t.price * t.volume
  }

  lemma {:induction false} RawGainsSplit(fs: seq<Fill>)
    ensures RawGains(fs) == FillProceeds(fs) - FillCost(fs)
  {
    if |fs| > 0 {
      RawGainsSplit(fs[1..]);
      var f := fs[0];
      assert (f.sellPrice - f.buyPrice) * f.volume == f.sellPrice * f.volume - f.buyPrice * f.volume;
    }
  }

  lemma {:induction false} OpenValueSplit(q: seq<Lot>, price: real)
    ensures OpenValue(q, price) == price * QueueVolume(q) - LotCost(q)
  {
    if |q| > 0 {
      OpenValueSplit(q[1..], price);
      assert (price - q[0].price) * q[0].volume == price * q[0].volume - q[0].price * q[0].volume;
      assert price * (q[0].volume + QueueVolume(q[1..])) == price * q[0].volume + price * QueueVolume(q[1..]);
    }
  }

  lemma {:induction false} LotCostConcat(a: seq<Lot>, b: seq<Lot>)
    ensures LotCost(a + b) == LotCost(a) + LotCost(b)
  {
    if |a| > 0 {
      assert (a + b)[1..] == a[1..] + b;
      LotCostConcat(a[1..], b);
    } else {
      assert a + b == b;
    }
  }

  lemma {:induction false} FillCostConcat(a: seq<Fill>, b: seq<Fill>)
    ensures FillCost(a + b) == FillCost(a) + FillCost(b)
  {
    if |a| > 0 {
      assert (a + b)[1..] == a[1..] + b;
      FillCostConcat(a[1..], b);
    } else {
      assert a + b == b;
    }
  }

  lemma {:induction false} FillProceedsConcat(a: seq<Fill>, b: seq<Fill>)
    ensures FillProceeds(a + b) == FillProceeds(a) + FillProceeds(b)
  {
    if |a| > 0 {
      assert (a + b)[1..] == a[1..] + b;
      FillProceedsConcat(a[1..], b);
    } else {
      assert a + b == b;
    }
  }

  /** A sell moves purchase cost from the open lots to its matches: a partly
      sold lot keeps its price, so its cost splits exactly. */
  lemma {:induction false} MatchSellCost(q: seq<Lot>, sellPrice: real, remaining: real)
    ensures LotCost(MatchSell(q, sellPrice, remaining).lots)
            + FillCost(MatchSell(q, sellPrice, remaining).fills) == LotCost(q)
    decreases |q|
  {
    if remaining > 0.0 && |q| > 0 {
      var r := MatchSell(q, sellPrice, remaining);
      var matched := Take(remaining, q[0].volume);
      var fill := Fill(q[0].price, sellPrice, matched);
      if q[0].volume > matched {
        assert r == SellResult([fill], [Lot(q[0].price, q[0].volume - matched)] + q[1..]) by {
          MatchSellStep(q, sellPrice, remaining);
        }
        PartialLotCost(q, sellPrice, matched);
      } else {
        var rest := MatchSell(q[1..], sellPrice, remaining - matched);
        assert r == SellResult([fill] + rest.fills, rest.lots) by {
          MatchSellStep(q, sellPrice, remaining);
        }
        MatchSellCost(q[1..], sellPrice, remaining - matched);
        WholeLotCost(q, sellPrice, rest);
      }
    }
  }

  /** Selling part of the front lot splits its cost between the lot's
      remainder and the match. */
  lemma {:induction false} PartialLotCost(q: seq<Lot>, sellPrice: real, matched: real)
    requires |q| > 0
    ensures LotCost([Lot(q[0].price, q[0].volume - matched)] + q[1..])
            + FillCost([Fill(q[0].price, sellPrice, matched)]) == LotCost(q)
  {
    var p, v := q[0].price, q[0].volume;
    LotCostCons(Lot(p, v - matched), q[1..]);
    FillCostSingle(Fill(p, sellPrice, matched));
    assert q == [q[0]] + q[1..];
    LotCostCons(q[0], q[1..]);
    SplitProduct(p, v, matched);
  }

  lemma {:induction false} LotCostCons(l: Lot, tail: seq<Lot>)
    ensures LotCost([l] + tail) == l.price * l.volume + LotCost(tail)
  {
    assert ([l] + tail)[1..] == tail;
  }

  lemma {:induction false} FillCostSingle(f: Fill)
    ensures FillCost([f]) == f.buyPrice * f.volume
  {
    assert [f][1..] == [];
  }

  /** Distributivity over the split of a lot. */
  lemma {:induction false} SplitProduct(p: real, v: real, m: real)
    ensures p * (v - m) + p * m == p * v
  {
  }

  /** Selling the whole front lot moves its cost to the match. */
  lemma {:induction false} WholeLotCost(q: seq<Lot>, sellPrice: real, rest: SellResult)
    requires |q| > 0
    requires LotCost(rest.lots) + FillCost(rest.fills) == LotCost(q[1..])
    ensures LotCost(rest.lots) + FillCost([Fill(q[0].price, sellPrice, q[0].volume)] + rest.fills) == LotCost(q)
  {
    assert ([Fill(q[0].price, sellPrice, q[0].volume)] + rest.fills)[1..] == rest.fills;
  }

  /** Matches made at one price bring that price times their volume. */
  lemma {:induction false} ProceedsAtOnePrice(fs: seq<Fill>, price: real)
    requires forall i :: 0 <= i < |fs| ==> fs[i].sellPrice == price
    ensures FillProceeds(fs) == price * FilledVolume(fs)
  {
    if |fs| > 0 {
      ProceedsAtOnePrice(fs[1..], price);
      assert price * (fs[0].volume + FilledVolume(fs[1..])) == price * fs[0].volume + price * FilledVolume(fs[1..]);
    }
  }

  lemma Scale(p: real, x: real, y: real)
    requires x == y
    ensures p * x == p * y
  {
  }

  /** Every match of a sell is at the sell's price. */
  lemma {:induction false} MatchSellProceeds(q: seq<Lot>, sellPrice: real, remaining: real)
    ensures FillProceeds(MatchSell(q, sellPrice, remaining).fills)
            == sellPrice * FilledVolume(MatchSell(q, sellPrice, remaining).fills)
  {
    MatchSellFifo(q, sellPrice, remaining);
    ShapePrices(q, sellPrice, MatchSell(q, sellPrice, remaining));
    ProceedsAtOnePrice(MatchSell(q, sellPrice, remaining).fills, sellPrice);
  }

  lemma {:induction false} ShapePrices(q: seq<Lot>, sellPrice: real, r: SellResult)
    requires FifoShape(q, sellPrice, r)
    ensures forall i :: 0 <= i < |r.fills| ==> r.fills[i].sellPrice == sellPrice
  {
  }

  /** The open lots and the matches of `b` were bought for `cost` in all. */
  predicate CostKept(b: Book, cost: real) {
    LotCost(b.lots) + FillCost(b.fills) == cost
  }

  /** The matches of `b` carry `volume` sold for `proceeds`. */
  predicate Carries(b: Book, volume: real, proceeds: real) {
    FilledVolume(b.fills) == volume && FillProceeds(b.fills) == proceeds
  }

  /** One trade moves purchase cost between the open lots and the matches,
      and a buy adds its own. */
  lemma {:induction false} ApplyCost(b: Book, t: Trade, cost: real)
    requires CostKept(b, cost)
    ensures CostKept(Apply(b, t), cost + Paid(t))
  {
    if t.side == Buy {
      BuyCost1(b, t, cost);
    } else {
      SellCost1(b, t, cost);
    }
  }

  lemma {:induction false} BuyCost1(b: Book, t: Trade, cost: real)
    requires t.side == Buy
    requires CostKept(b, cost)
    ensures CostKept(Apply(b, t), cost + Paid(t))
  {
    var lot := Lot(t.price, t.volume);
    assert Apply(b, t).lots == b.lots + [lot] && Apply(b, t).fills == b.fills;
    LotAdded(b, lot, cost, Apply(b, t));
  }

  /** Opening a lot adds what it was bought for. */
  lemma {:induction false} LotAdded(b: Book, lot: Lot, cost: real, after: Book)
    requires CostKept(b, cost)
    requires after.lots == b.lots + [lot] && after.fills == b.fills
    ensures CostKept(after, cost + lot.price * lot.volume)
  {
    LotCostConcat(b.lots, [lot]);
    assert LotCost([lot]) == lot.price * lot.volume by {
      LotCostCons(lot, []);
      assert [lot] + [] == [lot];
    }
  }

  lemma {:induction false} SellCost1(b: Book, t: Trade, cost: real)
    requires t.side == Sell
    requires CostKept(b, cost)
    ensures CostKept(Apply(b, t), cost + Paid(t))
  {
    var m := MatchSell(b.lots, t.price, t.volume);
    assert Apply(b, t) == Book(m.lots, b.realized + SumGains(m.fills), b.fills + m.fills);
    MatchSellCost(b.lots, t.price, t.volume);
    FillCostConcat(b.fills, m.fills);
  }

  /** After any prefix of the replay, what the open lots and the matches were
      bought for is what the buys cost. */
  lemma {:induction false} ReplayCost(ts: seq<Trade>)
    ensures CostKept(Replay(ts), BuyCost(ts))
  {
    if |ts| > 0 {
      var init := ts[..|ts| - 1];
      ReplayCost(init);
      ApplyCost(Replay(init), ts[|ts| - 1], BuyCost(init));
    }
  }

  lemma {:induction false} PositivePrefix(ts: seq<Trade>)
    requires |ts| > 0 && PositiveVolumes(ts)
    ensures PositiveVolumes(ts[..|ts| - 1])
  {
    assert forall i :: 0 <= i < |ts| - 1 ==> ts[..|ts| - 1][i] == ts[i];
  }

  /** A sell no larger than what is open is matched in full, at its price. */
  lemma {:induction false} ApplyProceeds(b: Book, t: Trade, volume: real, proceeds: real)
    requires AllPositive(b.lots)
    requires t.volume > 0.0
    requires t.side == Sell ==> t.volume <= QueueVolume(b.lots)
    requires Carries(b, volume, proceeds)
    ensures Carries(Apply(b, t), volume + Sold(t), proceeds + Received(t))
  {
    if t.side == Sell {
      SellProceeds1(b, t, volume, proceeds);
    } else {
      BuyProceeds1(b, t, volume, proceeds);
    }
  }

  lemma {:induction false} BuyProceeds1(b: Book, t: Trade, volume: real, proceeds: real)
    requires t.side == Buy
    requires Carries(b, volume, proceeds)
    ensures Carries(Apply(b, t), volume + Sold(t), proceeds + Received(t))
  {
    assert Apply(b, t).fills == b.fills;
    BuyCarries(b, volume, proceeds, Apply(b, t));
  }

  lemma {:induction false} SellProceeds1(b: Book, t: Trade, volume: real, proceeds: real)
    requires t.side == Sell
    requires AllPositive(b.lots)
    requires 0.0 < t.volume <= QueueVolume(b.lots)
    requires Carries(b, volume, proceeds)
    ensures Carries(Apply(b, t), volume + Sold(t), proceeds + Received(t))
  {
    var m := MatchSell(b.lots, t.price, t.volume);
    assert Apply(b, t).fills == b.fills + m.fills;
    SellFills(b.lots, t.price, t.volume);
    SellCarries(b.fills, m.fills, t, volume, proceeds, Apply(b, t));
  }

  lemma {:induction false} BuyCarries(b: Book, volume: real, proceeds: real, after: Book)
    requires Carries(b, volume, proceeds)
    requires after.fills == b.fills
    ensures Carries(after, volume + 0.0, proceeds + 0.0)
  {
  }

  /** A sell no larger than what is open is matched in full, at its price. */
  lemma {:induction false} SellFills(q: seq<Lot>, price: real, sold: real)
    requires AllPositive(q)
    requires 0.0 < sold <= QueueVolume(q)
    ensures FilledVolume(MatchSell(q, price, sold).fills) == sold
    ensures FillProceeds(MatchSell(q, price, sold).fills) == price * sold
  {
    var m := MatchSell(q, price, sold);
    MatchSellVolume(q, price, sold);
    MatchSellProceeds(q, price, sold);
    Scale(price, FilledVolume(m.fills), sold);
  }

  /** Appending the matches of a sell to the match log adds the sell's
      volume and proceeds. */
  lemma {:induction false} SellCarries(fs: seq<Fill>, gs: seq<Fill>, t: Trade, volume: real, proceeds: real, after: Book)
    requires t.side == Sell
    requires FilledVolume(fs) == volume && FillProceeds(fs) == proceeds
    requires FilledVolume(gs) == t.volume && FillProceeds(gs) == t.price * t.volume
    requires after.fills == fs + gs
    ensures Carries(after, volume + Sold(t), proceeds + Received(t))
  {
    FilledVolumeConcat(fs, gs);
    FillProceedsConcat(fs, gs);
  }

  /** When no sell is larger than what is open, every sell is matched in full:
      the matches carry all the sold volume and all the sale proceeds. */
  lemma {:induction false} ReplayProceeds(ts: seq<Trade>)
    requires PositiveVolumes(ts)
    requires Covered(ts)
    ensures Carries(Replay(ts), SellVolume(ts), SellProceeds(ts))
  {
    if |ts| > 0 {
      var init := ts[..|ts| - 1];
      PositivePrefix(ts);
      ReplayProceeds(init);
      ReplayLotsPositive(init);
      ApplyProceeds(Replay(init), ts[|ts| - 1], SellVolume(init), SellProceeds(init));
    }
  }

  /** Dropping the last trade of a ledger drops its contribution. */
  lemma {:induction false} NetSnoc(ts: seq<Trade>, pair: string, m: Measure)
    requires |ts| > 0
    ensures Net(ts, pair, m)
            == Net(ts[..|ts| - 1], pair, m) + (if ts[|ts| - 1].pair == pair then Signed(ts[|ts| - 1], m) else 0.0)
  {
    var t := ts[|ts| - 1];
    assert ts == ts[..|ts| - 1] + [t];
    NetConcat(ts[..|ts| - 1], [t], pair, m);
    assert [t][1..] == [];
  }

  lemma {:induction false} ConsistentPrefix(ts: seq<Trade>, pair: string)
    requires |ts| > 0 && Consistent(ts, pair)
    ensures Consistent(ts[..|ts| - 1], pair)
  {
    forall x | x in ts[..|ts| - 1]
      ensures x in ts
    {
      var i :| 0 <= i < |ts| - 1 && ts[..|ts| - 1][i] == x;
      assert ts[i] == x;
    }
  }

  /** For one pair's trades, the position's net volume and net cost are the
      buy side minus the sell side. */
  lemma {:induction false} NetOfOnePair(ts: seq<Trade>, pair: string)
    requires Consistent(ts, pair)
    ensures Net(ts, pair, Volume) == BuyVolume(ts) - SellVolume(ts)
    ensures Net(ts, pair, Cost) == BuyCost(ts) - SellProceeds(ts)
  {
    if |ts| > 0 {
      var init := ts[..|ts| - 1];
      var t := ts[|ts| - 1];
      ConsistentPrefix(ts, pair);
      NetOfOnePair(init, pair);
      assert t.pair == pair && t.cost == t.price * t.volume by {
        assert t in ts;
      }
      NetSnoc(ts, pair, Volume);
      NetSnoc(ts, pair, Cost);
      assert BuyVolume(ts) == BuyVolume(init) + (if t.side == Buy then t.volume else 0.0);
      assert SellVolume(ts) == SellVolume(init) + (if t.side == Sell then t.volume else 0.0);
      assert BuyCost(ts) == BuyCost(init) + (if t.side == Buy then t.cost else 0.0);
      assert SellProceeds(ts) == SellProceeds(init) + (if t.side == Sell then t.cost else 0.0);
    }
  }

  /** The open lots and the matches of `b` account for a ledger whose buys
      cost `buyCost`, whose sells brought `sellProceeds`, and whose net
      position is `netVolume` held for `netCost`: the lots and the matches
      share the purchase cost, the matches carry every sale, and what is
      still open is the net volume. */
  predicate Accounted(b: Book, buyCost: real, sellProceeds: real, netVolume: real, netCost: real) {
    && LotCost(b.lots) + FillCost(b.fills) == buyCost
    && FillProceeds(b.fills) == sellProceeds
    && QueueVolume(b.lots) == netVolume
    && netCost == buyCost - sellProceeds
  }

  /** The realized profit (before rounding) of the matches of `b` plus the
      paper profit of its open lots at `price` is the value at `price` of a
      holding of `netVolume` less its net cost `netCost`. */
  predicate CashFlow(b: Book, price: real, netVolume: real, netCost: real) {
    RawGains(b.fills) + OpenValue(b.lots, price) == price * netVolume - netCost
  }

  /** A pair's ledger whose every sell is matched in full is accounted for by
      its FIFO replay. */
  lemma {:induction false} ReplayAccounted(s: seq<Trade>, pair: string)
    requires Consistent(s, pair)
    requires Covered(s)
    ensures Accounted(Replay(s), BuyCost(s), SellProceeds(s), Net(s, pair, Volume), Net(s, pair, Cost))
  {
    var b := Replay(s);
    assert LotCost(b.lots) + FillCost(b.fills) == BuyCost(s) by {
      ReplayCost(s);
    }
    assert FillProceeds(b.fills) == SellProceeds(s) && FilledVolume(b.fills) == SellVolume(s) by {
      forall i | 0 <= i < |s|
        ensures s[i].volume > 0.0
      {
        assert s[i] in s;
      }
      ReplayProceeds(s);
    }
    assert QueueVolume(b.lots) == BuyVolume(s) - FilledVolume(b.fills) by {
      ReplayConserves(s);
    }
    assert Net(s, pair, Volume) == BuyVolume(s) - SellVolume(s) && Net(s, pair, Cost) == BuyCost(s) - SellProceeds(s) by {
      NetOfOnePair(s, pair);
    }
  }

  /** The bookkeeping step: any book that accounts for a ledger splits the
      ledger's cash flow into realized and paper profit. */
  lemma {:induction false} CashFlowBalance(b: Book, price: real, buyCost: real, sellProceeds: real, netVolume: real, netCost: real)
    requires Accounted(b, buyCost, sellProceeds, netVolume, netCost)
    ensures CashFlow(b, price, netVolume, netCost)
  {
    RawGainsSplit(b.fills);
    OpenValueSplit(b.lots, price);
  }

  /** Replayed in any order that matches every sell in full, a pair's FIFO
      realized profit (before rounding) plus the paper profit of its open lots
      is the value of the holding at `price` less the net cost: the holding's
      value plus the cash received minus the cash spent. */
  lemma {:induction false} CashFlowSplit(s: seq<Trade>, pair: string, price: real)
    requires Consistent(s, pair)
    requires Covered(s)
    ensures CashFlow(Replay(s), price, Net(s, pair, Volume), Net(s, pair, Cost))
  {
    ReplayAccounted(s, pair);
    CashFlowBalance(Replay(s), price, BuyCost(s), SellProceeds(s), Net(s, pair, Volume), Net(s, pair, Cost));
  }

  /** The book the FIFO engine ends with: the ledger replayed in time order. */
  function Replayed(ts: seq<Trade>): Book {
    Replay(SortByTime(ts))
  }

  /** Sorting keeps a pair's trades consistent. */
  lemma {:induction false} ConsistentSorted(ts: seq<Trade>, pair: string)
    requires Consistent(ts, pair)
    ensures Consistent(SortByTime(ts), pair)
  {
    forall t | t in SortByTime(ts)
      ensures t in ts
    {
      assert t in multiset(SortByTime(ts));
    }
  }

  /** The cash-flow split of a pair's ledger in time order, stated against
      the position the program keeps for the unsorted ledger. */
  lemma {:induction false} LedgerCashFlow(ts: seq<Trade>, pair: string, price: real)
    requires Consistent(ts, pair)
    requires Covered(SortByTime(ts))
    ensures CashFlow(Replayed(ts), price, Net(ts, pair, Volume), Net(ts, pair, Cost))
  {
    var sorted := SortByTime(ts);
    ConsistentSorted(ts, pair);
    CashFlowSplit(sorted, pair, price);
    NetPermutation(ts, sorted, pair, Volume);
    NetPermutation(ts, sorted, pair, Cost);
  }

  /** Marking a net-long position is the cash-flow value of any book that
      splits it. */
  lemma {:induction false} MarkSplits(pos: Position, b: Book, price: real)
    requires pos.netVolume > 0.0
    requires CashFlow(b, price, pos.netVolume, pos.totalCost)
    ensures Mark(pos, price) == RawGains(b.fills) + OpenValue(b.lots, price)
  {
  }

  /** The program's unrealized figure for a pair, the position marked against
      its net cost, equals the FIFO realized profit (before rounding) plus the
      paper profit of the lots left open. `calculate_total_pnl` adds the
      realized profit to it once more. */
  lemma {:induction false} UnrealizedRepeatsRealized(ts: seq<Trade>, pair: string, price: real)
    requires Consistent(ts, pair)
    requires Covered(SortByTime(ts))
    requires Net(ts, pair, Volume) > 0.0
    ensures pair in Aggregate(ts)
    ensures Mark(Aggregate(ts)[pair], price) == RawGains(Replayed(ts).fills) + OpenValue(Replayed(ts).lots, price)
  {
    assert pair in Aggregate(ts) by {
      assert |ts| > 0;
      PairsOfIndex(ts);
      assert ts[0] in ts;
    }
    assert CashFlow(Replayed(ts), price, Aggregate(ts)[pair].netVolume, Aggregate(ts)[pair].totalCost) by {
      LedgerCashFlow(ts, pair, price);
      assert Aggregate(ts)[pair] == Position(Net(ts, pair, Volume), Net(ts, pair, Cost));
    }
    MarkSplits(Aggregate(ts)[pair], Replayed(ts), price);
  }

  /** The corrected unrealized figure of a pair: the paper profit of the lots
      its FIFO replay leaves open, at `price`. */
  function OpenUnrealized(ts: seq<Trade>, price: real): real {
    OpenValue(Replayed(ts).lots, price)
  }

  /** What a position is worth at `price` less what was paid for it net of
      sale proceeds: the holding's value plus the cash received minus the
      cash spent. */
  function CashValue(pos: Position, price: real): real {
    price * pos.netVolume - pos.totalCost
  }

  /** The corrected figure completes any cash-flow split of a position. */
  lemma {:induction false} OpenUnrealizedSplits(ts: seq<Trade>, pos: Position, price: real)
    requires CashFlow(Replayed(ts), price, pos.netVolume, pos.totalCost)
    ensures RawGains(Replayed(ts).fills) + OpenUnrealized(ts, price) == CashValue(pos, price)
  {
  }

  /** With the corrected figure, realized (before rounding) plus unrealized is
      the cash value of the position the program's table holds for the pair,
      whatever the sign of its net volume. */
  lemma {:induction false} CorrectedTotalIsCashFlow(ts: seq<Trade>, pair: string, price: real)
    requires Consistent(ts, pair)
    requires Covered(SortByTime(ts))
    requires |ts| > 0
    ensures pair in Aggregate(ts)
    ensures RawGains(Replayed(ts).fills) + OpenUnrealized(ts, price) == CashValue(Aggregate(ts)[pair], price)
  {
    assert pair in Aggregate(ts) by {
      PairsOfIndex(ts);
      assert ts[0] in ts;
    }
    assert CashFlow(Replayed(ts), price, Aggregate(ts)[pair].netVolume, Aggregate(ts)[pair].totalCost) by {
      LedgerCashFlow(ts, pair, price);
      assert Aggregate(ts)[pair] == Position(Net(ts, pair, Volume), Net(ts, pair, Cost));
    }
    OpenUnrealizedSplits(ts, Aggregate(ts)[pair], price);
  }

  /** Buy 2 @ 100, then sell 1 @ 300. */
  function DoubleCountLedger(): seq<Trade> {
    [Trade("XBTUSD", Buy, 2.0, 100.0, 200.0, 1.0), Trade("XBTUSD", Sell, 1.0, 300.0, 300.0, 2.0)]
  }

  /** The program's table holds 1 unit at a net cost of 200 - 300. */
  lemma DoubleCountPosition()
    ensures "XBTUSD" in Aggregate(DoubleCountLedger())
    ensures Aggregate(DoubleCountLedger())["XBTUSD"] == Position(1.0, -100.0)
  {
    var buy := Trade("XBTUSD", Buy, 2.0, 100.0, 200.0, 1.0);
    var sell := Trade("XBTUSD", Sell, 1.0, 300.0, 300.0, 2.0);
    var ts := DoubleCountLedger();
    assert ts == [buy, sell];
    assert ts[1..] == [sell] && [sell][1..] == [];
    assert Net([], "XBTUSD", Volume) == 0.0 && Net([], "XBTUSD", Cost) == 0.0;
    assert Signed(sell, Volume) == -1.0 && Signed(sell, Cost) == -300.0;
    assert Signed(buy, Volume) == 2.0 && Signed(buy, Cost) == 200.0;
    assert Net([sell], "XBTUSD", Volume) == -1.0;
    assert Net([sell], "XBTUSD", Cost) == -300.0;
    assert Net(ts, "XBTUSD", Volume) == 1.0;
    assert Net(ts, "XBTUSD", Cost) == -100.0;
    PairsOfIndex(ts);
  }

  lemma DoubleCountSorted()
    ensures SortByTime(DoubleCountLedger()) == DoubleCountLedger()
  {
    var ts := DoubleCountLedger();
    assert ts[1..] == [ts[1]] && ts[1..][1..] == [];
  }

  lemma DoubleCountMatch()
    ensures MatchSell([Lot(100.0, 2.0)], 300.0, 1.0) == SellResult([Fill(100.0, 300.0, 1.0)], [Lot(100.0, 1.0)])
  {
    MatchSellStep([Lot(100.0, 2.0)], 300.0, 1.0);
    assert [Lot(100.0, 2.0)][1..] == [];
  }

  /** The FIFO replay matches 1 of the 2 units bought and leaves the other
      open. */
  lemma DoubleCountReplay()
    ensures Replayed(DoubleCountLedger()).fills == [Fill(100.0, 300.0, 1.0)]
    ensures Replayed(DoubleCountLedger()).lots == [Lot(100.0, 1.0)]
  {
    var ts := DoubleCountLedger();
    var buy := ts[0];
    DoubleCountSorted();
    assert ts[..1] == [buy] && [buy][..0] == [];
    assert Replay([buy]) == Book([Lot(100.0, 2.0)], 0.0, []);
    DoubleCountMatch();
  }

  /** Marked at 300, the sell realizes 200 and the lot left open is worth 200
      more than it cost. The program marks the net position at 400, so its
      total, realized plus unrealized, is 600; the holding's value plus the
      cash received minus the cash spent is 300 + 300 - 200 = 400, and the
      corrected figure gives that. */
  lemma DoubleCountExample()
    ensures var ts := DoubleCountLedger();
            && "XBTUSD" in Aggregate(ts)
            && Mark(Aggregate(ts)["XBTUSD"], 300.0) == 400.0
            && RawGains(Replayed(ts).fills) == 200.0
            && RawGains(Replayed(ts).fills) + Mark(Aggregate(ts)["XBTUSD"], 300.0) == 600.0
            && OpenUnrealized(ts, 300.0) == 200.0
            && CashValue(Aggregate(ts)["XBTUSD"], 300.0) == 400.0
  {
    DoubleCountPosition();
    DoubleCountReplay();
    assert RawGains([Fill(100.0, 300.0, 1.0)]) == 200.0 by {
      assert [Fill(100.0, 300.0, 1.0)][1..] == [];
    }
    assert OpenValue([Lot(100.0, 1.0)], 300.0) == 200.0 by {
      assert [Lot(100.0, 1.0)][1..] == [];
    }
  }

  /** The same two trades as the ledger the pagination walk builds. */
  function DoubleCountDict(): Dict {
    [Entry("T1", Trade("XBTUSD", Buy, 2.0, 100.0, 200.0, 1.0)), Entry("T2", Trade("XBTUSD", Sell, 1.0, 300.0, 300.0, 2.0))]
  }

  /** The ledger's trades, its only pair, and that pair's group. */
  lemma DoubleCountPairs()
    ensures Values(DoubleCountDict()) == DoubleCountLedger()
    ensures Requested(DoubleCountLedger(), None) == ["XBTUSD"]
    ensures PairTrades(DoubleCountLedger(), "XBTUSD") == DoubleCountLedger()
  {
    var ts := DoubleCountLedger();
    assert ts[..1] == [ts[0]] && [ts[0]][..0] == [];
    assert PairOrder([ts[0]]) == ["XBTUSD"];
    assert PairTrades([ts[0]], "XBTUSD") == [ts[0]];
  }

  /** The program's unrealized total for the ledger at 300: 400. */
  lemma DoubleCountUnrealized()
    ensures UnrealizedPnl(DoubleCountDict(), map["XBTUSD" := 300.0], None).Some?
    ensures UnrealizedPnl(DoubleCountDict(), map["XBTUSD" := 300.0], None).value.total == 400.0
  {
    var u := UnrealizedPnl(DoubleCountDict(), map["XBTUSD" := 300.0], None).value;
    DoubleCountPairs();
    DoubleCountPosition();
    assert PriceOf(map["XBTUSD" := 300.0], "XBTUSD") == 300.0;
    assert "XBTUSD" in u.perPair && u.perPair["XBTUSD"] == 400.0;
    assert SumListed(["XBTUSD"], u.perPair) == 400.0 by {
      assert ["XBTUSD"][..0] == [];
    }
    Round8OfInteger(400);
  }

  /** The program's realized total for the ledger: 200. */
  lemma DoubleCountRealized()
    ensures RealizedPnl(DoubleCountDict(), None).Some?
    ensures RealizedPnl(DoubleCountDict(), None).value.total == 200.0
  {
    var b := RealizedPnl(DoubleCountDict(), None).value;
    DoubleCountPairs();
    DoubleCountReplay();
    PairsOfIndex(DoubleCountLedger());
    assert SumGains([Fill(100.0, 300.0, 1.0)]) == 200.0 by {
      assert [Fill(100.0, 300.0, 1.0)][1..] == [];
      Round8OfInteger(200);
    }
    assert RealizedFromTrades(DoubleCountLedger()) == Some(200.0) by {
      Round8OfInteger(200);
    }
    assert "XBTUSD" in b.perPair && b.perPair["XBTUSD"] == 200.0;
    assert SumListed(["XBTUSD"], b.perPair) == 200.0 by {
      assert ["XBTUSD"][..0] == [];
    }
    Round8OfInteger(200);
  }

  /** `calculate_total_pnl` on the ledger at 300 reports 600, although the
      holding's value plus the cash received minus the cash spent is 400. */
  lemma DoubleCountTotal()
    ensures TotalPnl(DoubleCountDict(), map["XBTUSD" := 300.0]) == 600.0
    ensures CashValue(Aggregate(Values(DoubleCountDict()))["XBTUSD"], 300.0) == 400.0
  {
    DoubleCountUnrealized();
    DoubleCountRealized();
    DoubleCountPairs();
    DoubleCountPosition();
  }
}
