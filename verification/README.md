# Kraken PnL core, modelled in Dafny

This project models the profit-and-loss arithmetic of `krakenapi_pnl_github.py`, a script that
downloads a Kraken account's trade history and reports realized and unrealized profit. It leaves out
the HTTP plumbing. The model has these parts:

- **Ledger** (`ledger.dfy`) covers the accumulation step of the pagination walk in `fetch_all_trades`.
  - Each page of trades is merged into an insertion-ordered dict keyed by trade ID. An existing key is
    overwritten in place and a new key is appended.
  - The pairs in the page are added to the pair set.
  - The cursor becomes the oldest timestamp in the page.
- **TimeSort** (`time_sort.dfy`) is the stable sort by timestamp that the FIFO matcher replays in.
- **Fifo** (`fifo.dfy`) is `calculate_realized_pnl_from_trades`.
  - A buy appends a lot `(price, volume)` at the back of a queue.
  - A sell consumes lots from the front, `min(remaining, lot volume)` at a time.
  - Each match books `round((sell - buy) * matched, 8)`.
  - A partly sold lot goes back at the front.
  - Sell volume beyond the open lots is dropped.
- **FifoLoop** (`fifo_loop.dfy`) is the same matcher written as the program's nested loops, with a
  proof that it computes what the functional replay computes.
- **Positions** (`positions.dfy`) is the per-pair net volume and net cost table of
  `calculate_unrealized_pnl`.
- **Unrealized** (`unrealized.dfy`) is the mark-to-market loop of `calculate_unrealized_pnl`.
- **Report** (`report.dfy`) covers two functions.
  - `calculate_realized_pnl` groups the ledger by pair and runs the matcher for each requested pair.
  - `calculate_total_pnl` adds the two totals, counting an absent side as 0.
- **OpenLots** (`open_lots.dfy`) relates the unrealized figure to the FIFO replay.
  - It proves that marking the net position against its net cost gives the FIFO realized profit plus
    the paper profit of the lots left open.
  - So `calculate_total_pnl` counts the realized profit twice (see Findings).
  - It defines the corrected unrealized figure, the paper profit of the open lots, and proves that with
    it, realized plus unrealized is the holding's value plus the cash received minus the cash spent.
- **Trades** and **Rounding** (`trades.dfy`, `rounding.dfy`) are the shared vocabulary.
  - Trades defines the trade record, the buy/sell sign, and the pair sets and pair orders.
  - Rounding defines `round(x, 8)`.

Design notes:

- Quantities are exact `real`s.
- `round(x, 8)` is rounding to the nearest multiple of 10^-8, with ties going to the even multiple. It
  is applied to the exact value.
- A trade whose type is not `"buy"` is a sell, as in both `else` branches of the program.
- Market prices are passed in as a map. A missing pair reads as 0, as `prices.get(pair, 0)` does.
- The two PnL functions return the rounded total only. They print the per-pair amounts they collect.
  The model returns both, as a `Breakdown`, so that the contracts can speak about every pair.
- The optional `pairs` argument is an `Option<seq<string>>`.
  - `None` means every traded pair, in the order of each pair's first trade in the ledger.
  - A list that names a pair twice counts that pair twice in the total, as the program does. Such a
    pair still gets one per-pair entry.

## Model

| member | source | states |
|---|---|---|
| Trades.PairOrder | krakenapi_pnl_github.py:150-151 | the default pair list holds every traded pair exactly once and nothing else |
| Trades.Requested | krakenapi_pnl_github.py:206-209 | with no pairs given, the pairs covered are exactly the traded pairs, without repetition; a given list is covered as given, repeats and order included |
| Rounding.Round8 | krakenapi_pnl_github.py:252 | the result is a multiple of 10^-8, within half a unit of the input, and equal to the input when the input is already such a multiple |
| Ledger.Put | krakenapi_pnl_github.py:76 | storing one trade under its ID: the ID set grows by that ID; the ID now looks up the new trade and every other ID looks up what it did before; an existing ID keeps its position; a new ID is appended; IDs stay unique |
| Ledger.Update | krakenapi_pnl_github.py:76 | merging a page: the IDs are the union; an ID in the page looks up the page's last trade for it and any other ID keeps its trade; the old keys keep their positions; no key is repeated; a page of known IDs does not grow the ledger |
| Ledger.UpdateKeyOrder | krakenapi_pnl_github.py:76 | after a merge, the old keys keep their places and are followed by the page's new IDs, once each, in the order of their first occurrence in the page |
| Ledger.UpdateIdempotent | krakenapi_pnl_github.py:76 | merging the same page twice gives the same ledger as merging it once |
| Ledger.MinTime | krakenapi_pnl_github.py:79 | the cursor is a timestamp of the page and no trade of the page is older |
| Ledger.MergeBatch | krakenapi_pnl_github.py:70-79 | an empty page ends the walk; otherwise the ledger is the merge, the pair set gains exactly the page's pairs, and the cursor is the page's oldest timestamp |
| Ledger.MergeBatchIdempotent | krakenapi_pnl_github.py:76-79 | receiving the same page twice in a row leaves ledger, pairs and cursor as receiving it once |
| TimeSort.Insert | krakenapi_pnl_github.py:240 | inserting into a time-ordered sequence keeps it ordered and adds exactly the one trade |
| TimeSort.SortByTime | krakenapi_pnl_github.py:240 | the replay order is non-decreasing in time and a permutation of the pair's trades |
| TimeSort.InsertAtTime | krakenapi_pnl_github.py:240 | an inserted trade goes in front of the trades sharing its timestamp and leaves other timestamps alone |
| TimeSort.SortByTimeStable | krakenapi_pnl_github.py:240 | the sort is stable: for every timestamp, its trades keep their ledger order |
| Fifo.Gain | krakenapi_pnl_github.py:252 | the gain booked for a match is a multiple of 10^-8 within half a unit of (sell price − buy price) · matched volume |
| Fifo.Take | krakenapi_pnl_github.py:251 | a match is at most the remaining sell volume and at most the lot, equals one of them, is positive when both are, and never drives the remaining volume negative |
| Fifo.MatchSell | krakenapi_pnl_github.py:248-256 | a sell makes at least one match exactly when volume remains and a lot is open, and never lengthens the queue |
| Fifo.MatchSellFifo | krakenapi_pnl_github.py:249-256 | a sell matches the lots front to back at their own prices: each fully used lot is gone, the lots it did not reach are kept in order, and at most one lot, the last matched, goes back at the front with the same price and its volume less the match |
| Fifo.MatchSellConserves | krakenapi_pnl_github.py:249-256 | a sell moves volume from the queue into matches without creating or losing any |
| Fifo.MatchSellVolume | krakenapi_pnl_github.py:248-256 | with positive lots, a sell matches exactly the smaller of its volume and the volume in the queue, so any excess is dropped |
| Fifo.MatchSellOversold | krakenapi_pnl_github.py:248-256 | a sell at least as large as the queue empties it |
| Fifo.MatchSellKeepsPositive | krakenapi_pnl_github.py:255-256 | a lot is pushed back only with strictly positive volume, so a queue of positive lots stays positive |
| Fifo.Apply | krakenapi_pnl_github.py:245-256 | a buy appends its lot at the back and books nothing; a sell never lengthens the queue and only adds matches to the log |
| Fifo.Replay | krakenapi_pnl_github.py:240-256 | after any prefix of trades there are no more open lots than trades, and replaying one more trade only extends the log of matches |
| Fifo.ReplayRealized | krakenapi_pnl_github.py:252 | after any prefix of trades, the running realized PnL is the sum of the rounded gains of all matches made |
| Fifo.ReplayConserves | krakenapi_pnl_github.py:240-256 | after any prefix of trades, the volume in the queue is the volume bought minus the volume matched |
| Fifo.ReplayLotsPositive | krakenapi_pnl_github.py:245-256 | when every trade has positive volume, every queued lot has positive volume |
| Fifo.RealizedFromTrades | krakenapi_pnl_github.py:232-258 | absent exactly for an empty set of trades; otherwise the rounded sum of the rounded gains of the matches made by replaying the trades in time order |
| FifoLoop.SellLoop | krakenapi_pnl_github.py:248-256 | the imperative sell loop leaves the same queue and books the same gains as the functional sell |
| FifoLoop.RealizedPnl | krakenapi_pnl_github.py:232-258 | the imperative matcher returns exactly what the functional replay defines, and nothing exactly for an empty input |
| FifoExamples.PartialFillExample | krakenapi_pnl_github.py:240-258 | buys of 1 at 100 and 1 at 200 followed by a sell of 1.5 at 300, recorded sell first, realize 250 and leave half a lot at 200 open |
| FifoExamples.TieSellFirst | krakenapi_pnl_github.py:240 | a sell and a buy with equal timestamps, sell recorded first: the sell finds no lot and nothing is realized |
| FifoExamples.TieBuyFirst | krakenapi_pnl_github.py:240 | the same pair of trades recorded buy first: the sell realizes the full gain |
| Positions.AddTrade | krakenapi_pnl_github.py:140-148 | one trade creates its pair's entry at zero if needed and moves it by the trade's signed volume and cost; no other pair's entry changes |
| Positions.AggregateFrom | krakenapi_pnl_github.py:134-148 | the loop leaves every pair at its start value plus the signed sums of that pair's trades, and adds exactly the traded pairs |
| Positions.Aggregate | krakenapi_pnl_github.py:133-148 | the table holds exactly the traded pairs, each with net volume = buy volume − sell volume and total cost = buy cost − sell cost |
| Positions.NetPermutation | krakenapi_pnl_github.py:133-148 | a signed sum does not depend on the order of the trades |
| Positions.AggregateOrderIndependent | krakenapi_pnl_github.py:133-148 | the position table does not depend on the order in which the ledger is walked |
| Unrealized.PriceOf | krakenapi_pnl_github.py:173 | a listed price is used as is, and a non-zero price always comes from the map |
| Unrealized.Mark | krakenapi_pnl_github.py:172-179 | `(price − cost/volume) · volume` is the value at market, price · volume, less the net cost |
| Unrealized.MarkAll | krakenapi_pnl_github.py:160-181 | a pair gets an entry exactly when it is requested, has a position, is net long and has a non-zero price, and the entry is its mark |
| Unrealized.MarkAllTotal | krakenapi_pnl_github.py:160-181 | the total is the sum of the entries over the request, a pair requested twice counting twice |
| Unrealized.MarkAllNoPositions | krakenapi_pnl_github.py:160-167 | with no positions, every requested pair is skipped and the total is 0 |
| Unrealized.UnrealizedPnl | krakenapi_pnl_github.py:125-187 | absent exactly for an empty ledger; otherwise the entries are the marks of the requested, traded, net long pairs with a price, in terms of the ledger's signed sums, and the total is the sum of the entries over the request, rounded to eight decimals |
| Report.PairTrades | krakenapi_pnl_github.py:199-204 | a pair's group is empty exactly when the pair never traded |
| Report.PairTradesMembers | krakenapi_pnl_github.py:199-204 | a pair's group holds exactly the ledger's trades in that pair |
| Report.Group | krakenapi_pnl_github.py:199-204 | the grouping has a group for exactly the traded pairs, each holding that pair's trades in ledger order |
| Report.RealizeAll | krakenapi_pnl_github.py:214-223 | a pair gets an entry exactly when it is requested and has trades, and the entry is the FIFO result of its trades |
| Report.RealizeAllTotal | krakenapi_pnl_github.py:214-223 | the realized total is the sum of the entries over the request, a pair requested twice counting twice |
| Report.RealizedPnl | krakenapi_pnl_github.py:190-229 | absent exactly for an empty ledger; otherwise every requested traded pair gets the FIFO result of its own trades in ledger order, and the total is the sum of the entries over the request, rounded to eight decimals |
| Report.Combine | krakenapi_pnl_github.py:265-270 | an absent side counts as 0, and two present sides are added |
| Report.TotalPnl | krakenapi_pnl_github.py:260-277 | 0 for an empty ledger, otherwise the unrealized total plus the realized total over all traded pairs |
| Report.ReportIgnoresRepeatedBatch | krakenapi_pnl_github.py:76 | a page received twice changes none of the three reported figures |
| OpenLots.RawGainsSplit | krakenapi_pnl_github.py:252 | the gain of the matches, before rounding, is what they were sold for minus what they were bought for |
| OpenLots.OpenValueSplit | krakenapi_pnl_github.py:245-246 | the paper profit of the open lots is their volume at market less what they were bought for |
| OpenLots.MatchSellCost | krakenapi_pnl_github.py:249-256 | a sell moves purchase cost from the queue to its matches without creating or losing any, a partly sold lot keeping its price |
| OpenLots.MatchSellProceeds | krakenapi_pnl_github.py:249-256 | every match of a sell is at the sell's price, so the matches bring that price times the matched volume |
| OpenLots.ReplayCost | krakenapi_pnl_github.py:240-256 | after any prefix of trades, the open lots and the matches together were bought for what the buys cost |
| OpenLots.ReplayProceeds | krakenapi_pnl_github.py:240-256 | when no sell exceeds the open volume, the matches carry every sold unit and all the sale proceeds |
| OpenLots.NetOfOnePair | krakenapi_pnl_github.py:133-148 | for one pair's trades, net volume is bought minus sold volume and net cost is buy cost minus sale proceeds |
| OpenLots.CashFlowSplit | krakenapi_pnl_github.py:232-258 | for a replay with every sell matched in full, the realized gain before rounding plus the paper profit of the open lots is price times net volume minus net cost |
| OpenLots.LedgerCashFlow | krakenapi_pnl_github.py:133-148 | the same split for the time-ordered replay, stated against the position the table keeps for the unsorted ledger |
| OpenLots.UnrealizedRepeatsRealized | krakenapi_pnl_github.py:172-179 | for a net-long pair, the program's unrealized figure is the FIFO realized gain before rounding plus the paper profit of the open lots |
| OpenLots.CorrectedTotalIsCashFlow | krakenapi_pnl_github.py:260-270 | with the open lots' paper profit as the unrealized figure, realized plus unrealized is the holding's value plus cash received minus cash spent, whatever the sign of the net volume |
| OpenLots.DoubleCountTotal | krakenapi_pnl_github.py:260-270 | on a ledger of buy 2 at 100 and sell 1 at 300, with the price at 300, the program's total is 600 while the cash value of the position is 400 |
| OpenLots.DoubleCountUnrealized | krakenapi_pnl_github.py:125-187 | on that ledger the program's unrealized total is 400 |
| OpenLots.DoubleCountRealized | krakenapi_pnl_github.py:190-229 | on that ledger the program's realized total is 200 |
| OpenLots.DoubleCountExample | krakenapi_pnl_github.py:172-179 | buy 2 at 100, sell 1 at 300, price 300: realized 200, program's unrealized 400 and total 600; the corrected unrealized figure is 200 and the cash value is 400 |

## Left out

- Request signing in `get_kraken_signature` (lines 20-30) is left out because it calls HMAC, SHA and base64 libraries.
- The network side of `fetch_all_trades` is left out because it is I/O and the clock. This covers the HTTP request, JSON decoding, the error branch, the nonce and `time.sleep` (lines 39-74, 82). A page is a parameter of `Ledger.MergeBatch`.
- The pagination loop's control flow is left out for the same reason: the loop that feeds pages in order and stops on an error or an empty page.
- The request's `end` field is left out. It is set only when the cursor is truthy (line 50), so a cursor of exactly 0 would not be sent.
- `get_trade_history_for_pair` (lines 86-100) is left out because no PnL function calls it. Its filter is the one `Report.PairTrades` states.
- `fetch_market_prices` (lines 102-122) is left out because it is a network call. Prices are a given map.
- The scalar-or-dict coercion of the prices (line 173) is left out because prices are treated uniformly as a map.
- Conversion of the exchange's decimal strings with `float(...)` is left out, and so is IEEE double rounding. Every quantity is an exact real.
- Every `print` and the usage text (lines 183-185, 225-227, 272-275, 280-311) are left out. The per-pair amounts that the program prints are returned instead.
- A single pair name passed as a string (lines 152-153, 208-209) is left out. The caller passes a one-element list.
- `calculate_total_pnl` fetches the ledger twice, once per sub-total. `Report.TotalPnl` uses one ledger for both, because the two fetches cannot be told apart without the network.
- Fifo.ReplayLotsPositive: positive trade volumes are a premise. The program never checks them, and the exchange promises them.
- Fifo.MatchSellVolume: this also assumes positive lots. A non-positive lot reaching the front would be matched with a non-positive amount.
- OpenLots.CashFlowSplit: this assumes one pair's trades with positive volumes, no fees (cost is price times volume) and no sell larger than the lots open when it is replayed. The predicates `Consistent` and `Covered` state these premises. A dropped excess sell or a fee breaks the identity.
- OpenLots.UnrealizedRepeatsRealized: this has the same premises, and it speaks of the gains before the per-match rounding to eight decimals.
- OpenLots.CorrectedTotalIsCashFlow: this has the same premises, and it speaks of the gains before rounding.
- The corrected figure, `OpenLots.OpenUnrealized`, is not wired into `Report.TotalPnl`. The report members model the program as written, and the corrected figure stands beside them.

## Findings

| source | as written | input that shows it | evidently intended | confidence | as-written member | corrected member |
|---|---|---|---|---|---|---|
| krakenapi_pnl_github.py:172-179 | unrealized marks the net position against a net cost from which every sale's proceeds were subtracted, so it already contains the realized gain; the total then adds the realized gain again | buy 2 at 100, sell 1 at 300, price 300: realized 200 plus unrealized 400 gives 600, while the holding is worth 300 and 300 came in against 200 spent, 400 | unrealized is the paper profit of the lots still open, so realized plus unrealized equals value plus cash in minus cash out | medium, not executed | OpenLots.UnrealizedRepeatsRealized, OpenLots.DoubleCountTotal | OpenLots.CorrectedTotalIsCashFlow |
