/** Worked cases of the FIFO matcher, proved about the model. */
module FifoExamples {
  import opened Trades
  import opened Rounding
  import opened TimeSort
  import opened Fifo

  function At(side: Side, volume: real, price: real, time: real): Trade {
    Trade("XBTUSD", side, volume, price, volume * price, time)
  }

  /** The ledger of the first example, newest trade first. */
  function ExampleLedger(): seq<Trade> {
    [At(Sell, 1.5, 300.0, 3.0), At(Buy, 1.0, 100.0, 1.0), At(Buy, 1.0, 200.0, 2.0)]
  }

  lemma ExampleSorted()
    ensures SortByTime(ExampleLedger()) == [ExampleLedger()[1], ExampleLedger()[2], ExampleLedger()[0]]
  {
    var ts := ExampleLedger();
    assert ts[1..][1..] == [ts[2]];
    assert SortByTime(ts[2..]) == [ts[2]];
    assert SortByTime(ts[1..]) == [ts[1], ts[2]];
  }

  lemma ExampleSell()
    ensures MatchSell([Lot(100.0, 1.0), Lot(200.0, 1.0)], 300.0, 1.5)
            == SellResult([Fill(100.0, 300.0, 1.0), Fill(200.0, 300.0, 0.5)], [Lot(200.0, 0.5)])
    ensures SumGains([Fill(100.0, 300.0, 1.0), Fill(200.0, 300.0, 0.5)]) == 250.0
  {
    var q := [Lot(100.0, 1.0), Lot(200.0, 1.0)];
    MatchSellStep(q, 300.0, 1.5);
    MatchSellStep(q[1..], 300.0, 0.5);
    var fills := [Fill(100.0, 300.0, 1.0), Fill(200.0, 300.0, 0.5)];
    Round8OfInteger(200);
    Round8OfInteger(50);
    assert fills[1..][1..] == [];
  }

  lemma ExampleOpening()
    ensures Replay([At(Buy, 1.0, 100.0, 1.0), At(Buy, 1.0, 200.0, 2.0)])
            == Book([Lot(100.0, 1.0), Lot(200.0, 1.0)], 0.0, [])
  {
    var first := At(Buy, 1.0, 100.0, 1.0);
    assert [first, At(Buy, 1.0, 200.0, 2.0)][..1] == [first] && [first][..0] == [];
    assert Replay([first]) == Book([Lot(100.0, 1.0)], 0.0, []);
  }

  lemma ExampleClosing()
    ensures Apply(Book([Lot(100.0, 1.0), Lot(200.0, 1.0)], 0.0, []), At(Sell, 1.5, 300.0, 3.0))
            == Book([Lot(200.0, 0.5)], 250.0, [Fill(100.0, 300.0, 1.0), Fill(200.0, 300.0, 0.5)])
  {
    ExampleSell();
  }

  lemma ExampleReplay()
    ensures Replay([At(Buy, 1.0, 100.0, 1.0), At(Buy, 1.0, 200.0, 2.0), At(Sell, 1.5, 300.0, 3.0)])
            == Book([Lot(200.0, 0.5)], 250.0, [Fill(100.0, 300.0, 1.0), Fill(200.0, 300.0, 0.5)])
  {
    var opening := [At(Buy, 1.0, 100.0, 1.0), At(Buy, 1.0, 200.0, 2.0)];
    var sorted := opening + [At(Sell, 1.5, 300.0, 3.0)];
    assert sorted[..2] == opening;
    ExampleOpening();
    ExampleClosing();
  }

  /** Buy 1 @ 100, buy 1 @ 200, sell 1.5 @ 300: the sell takes the whole
      first lot and half of the second, books 200 + 50, and leaves half a
      lot at 200 open, at the front of the queue. The ledger lists the sell
      first, so the sort matters. */
  lemma PartialFillExample()
    ensures RealizedFromTrades(ExampleLedger()) == Some(250.0)
    ensures Replay(SortByTime(ExampleLedger())).lots == [Lot(200.0, 0.5)]
  {
    ExampleSorted();
    ExampleReplay();
    Round8OfInteger(250);
  }

  /** Two trades with the same timestamp are replayed in ledger order: a sell
      recorded before the buy finds no lot and is dropped, so nothing is
      realized. */
  lemma TieSellFirst()
    ensures RealizedFromTrades([At(Sell, 1.0, 300.0, 5.0), At(Buy, 1.0, 100.0, 5.0)]) == Some(0.0)
  {
    var sell := At(Sell, 1.0, 300.0, 5.0);
    var buy := At(Buy, 1.0, 100.0, 5.0);
    var ts := [sell, buy];
    assert ts[1..] == [buy];
    assert SortByTime(ts) == ts;
    assert ts[..1] == [sell] && [sell][..0] == [];
    assert Replay([sell]) == Empty;
    assert Replay(ts) == Book([Lot(100.0, 1.0)], 0.0, []);
    Round8OfInteger(0);
  }

  /** The same two trades recorded buy first: the sell takes the lot and
      realizes the whole gain. */
  lemma TieBuyFirst()
    ensures RealizedFromTrades([At(Buy, 1.0, 100.0, 5.0), At(Sell, 1.0, 300.0, 5.0)]) == Some(200.0)
  {
    var sell := At(Sell, 1.0, 300.0, 5.0);
    var buy := At(Buy, 1.0, 100.0, 5.0);
    var ts := [buy, sell];
    assert ts[1..] == [sell];
    assert SortByTime(ts) == ts;
    assert ts[..1] == [buy] && [buy][..0] == [];
    assert Replay([buy]) == Book([Lot(100.0, 1.0)], 0.0, []);
    MatchSellStep([Lot(100.0, 1.0)], 300.0, 1.0);
    assert MatchSell([Lot(100.0, 1.0)], 300.0, 1.0) == SellResult([Fill(100.0, 300.0, 1.0)], []);
    Round8OfInteger(200);
    assert SumGains([Fill(100.0, 300.0, 1.0)]) == 200.0;
  }
}
