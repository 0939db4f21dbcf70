/** Shared vocabulary of the PnL engine: the optional result, the trade record
    as the exchange reports it (already converted from strings to numbers),
    and the signed contribution a trade makes to a position. */
module Trades {

  /** Python's `None` or a value. */
  datatype Option<+T> = None | Some(value: T) {
    /** The value, or `default` when absent: Python's `if x is None: x = default`. */
    function GetOr(default: T): T {
      match this
      case Some(v) => v
      case None => default
    }
  }

  /** The raw `type` field is compared with "buy" only; every other value is
      treated as a sell. */
  datatype Side = Buy | Sell

  /** One private trade: `pair`, `type`, `vol`, `price`, `cost` and `time` of a
      trade-history record. Nothing forces the numbers to be positive: the
      exchange promises it, the program does not check it. */
  datatype Trade = Trade(pair: string, side: Side, volume: real, price: real, cost: real, time: real)

  /** The two quantities the position table keeps per pair. */
  datatype Measure = Volume | Cost

  /** A trade's contribution to a position: buys add, sells subtract. */
  function Signed(t: Trade, m: Measure): real {
    var q := if m == Volume then t.volume else t.cost;
    if t.side == Buy then q else -q
  }

  /** The set of pairs that occur in a sequence of trades. */
  function PairsOf(s: seq<Trade>): set<string> {
    if |s| == 0 then {} else {s[0].pair} + PairsOf(s[1..])
  }

  /** A pair is in PairsOf(s) exactly when some trade of `s` is in it. */
  lemma {:induction false} PairsOfIndex(s: seq<Trade>)
    ensures forall i :: 0 <= i < |s| ==> s[i].pair in PairsOf(s)
    ensures forall p :: p in PairsOf(s) ==> exists i :: 0 <= i < |s| && s[i].pair == p
  {
    if |s| > 0 {
      PairsOfIndex(s[1..]);
      assert forall i :: 1 <= i < |s| ==> s[i] == s[1..][i - 1];
      forall p | p in PairsOf(s)
        ensures exists i :: 0 <= i < |s| && s[i].pair == p
      {
        if p != s[0].pair {
          var j :| 0 <= j < |s[1..]| && s[1..][j].pair == p;
          assert s[j + 1].pair == p;
        }
      }
    }
  }

  predicate NoDuplicates<T(==)>(s: seq<T>) {
    forall i, j :: 0 <= i < j < |s| ==> s[i] != s[j]
  }

  lemma PairsOfSnoc(s: seq<Trade>)
    requires |s| > 0
    ensures PairsOf(s) == PairsOf(s[..|s| - 1]) + {s[|s| - 1].pair}
  {
    var init := s[..|s| - 1];
    PairsOfIndex(s);
    PairsOfIndex(init);
    forall p | p in PairsOf(s)
      ensures p in PairsOf(init) + {s[|s| - 1].pair}
    {
      var i :| 0 <= i < |s| && s[i].pair == p;
      if i < |s| - 1 {
        assert init[i] == s[i];
      }
    }
    forall p | p in PairsOf(init)
      ensures p in PairsOf(s)
    {
      var i :| 0 <= i < |init| && init[i].pair == p;
      assert s[i] == init[i];
    }
  }

  /** The keys of a dict filled in ledger order: each pair once, in the order
      of its first trade. */
  function PairOrder(s: seq<Trade>): (ps: seq<string>)
    ensures NoDuplicates(ps)
    ensures forall p :: p in ps <==> p in PairsOf(s)
  {
    if |s| == 0 then []
    else
      var rest := PairOrder(s[..|s| - 1]);
      var p := s[|s| - 1].pair;
      PairsOfSnoc(s);
      if p in rest then rest else rest + [p]
  }

  /** What a PnL calculation reports: an amount per pair and a total. */
  datatype Breakdown = Breakdown(perPair: map<string, real>, total: real)

  /** The sum of the entries of `m` listed in `pairs`, counting each listing. */
  function SumListed(pairs: seq<string>, m: map<string, real>): real {
    if |pairs| == 0 then 0.0
    else
      var p := pairs[|pairs| - 1];
      SumListed(pairs[..|pairs| - 1], m) + (if p in m then m[p] else 0.0)
  }

  /** Writing an entry of `m` does not change the sum when the entry is not
      listed, or when it is listed and already holds the value written. */
  lemma {:induction false} SumListedRewrite(pairs: seq<string>, m: map<string, real>, p: string, v: real)
    requires p in pairs ==> p in m && m[p] == v
    ensures SumListed(pairs, m[p := v]) == SumListed(pairs, m)
  {
    if |pairs| > 0 {
      assert p in pairs[..|pairs| - 1] ==> p in pairs;
      SumListedRewrite(pairs[..|pairs| - 1], m, p, v);
    }
  }

  /** The pairs a call covers: those named, or every traded pair once. */
  function Requested(trades: seq<Trade>, request: Option<seq<string>>): (ps: seq<string>)
    ensures request.None? ==> forall p :: p in ps <==> p in PairsOf(trades)
    ensures request.None? ==> NoDuplicates(ps)
    ensures request.Some? ==> ps == request.value
  {
    if request.Some? then request.value else PairOrder(trades)
  }
}
