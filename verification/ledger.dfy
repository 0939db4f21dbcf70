/** The trade ledger built by the pagination walk: a Python dict from trade
    ID to trade, which keeps its keys in insertion order. `dict.update`
    overwrites an existing key in place and appends a new key at the end, so
    re-fetching an overlapping page is harmless. The order matters further on:
    trades with equal timestamps are replayed in ledger order. */
module Ledger {
  import opened Trades

  datatype Entry = Entry(id: string, trade: Trade)

  /** Entries in insertion order; a well-formed dict has no repeated ID. */
  type Dict = seq<Entry>

  predicate UniqueIds(d: Dict) {
    forall i, j :: 0 <= i < j < |d| ==> d[i].id != d[j].id
  }

  function Ids(d: Dict): set<string> {
    set i | 0 <= i < |d| :: d[i].id
  }

  lemma IdsConcat(a: Dict, c: Dict)
    ensures Ids(a + c) == Ids(a) + Ids(c)
  {
    forall id | id in Ids(a + c)
      ensures id in Ids(a) + Ids(c)
    {
      var i :| 0 <= i < |a + c| && (a + c)[i].id == id;
      if i >= |a| { assert c[i - |a|].id == id; }
    }
    forall id | id in Ids(a) + Ids(c)
      ensures id in Ids(a + c)
    {
      if id in Ids(a) {
        var i :| 0 <= i < |a| && a[i].id == id;
        assert (a + c)[i].id == id;
      } else {
        var i :| 0 <= i < |c| && c[i].id == id;
        assert (a + c)[|a| + i].id == id;
      }
    }
  }

  /** The trades of the dict, in insertion order: `d.values()`. */
  function Values(d: Dict): (vs: seq<Trade>)
    ensures |vs| == |d|
    ensures forall i :: 0 <= i < |d| ==> vs[i] == d[i].trade
  {
    if |d| == 0 then [] else [d[0].trade] + Values(d[1..])
  }

  /** `d.get(id)`. */
  function Lookup(d: Dict, id: string): (r: Option<Trade>)
    ensures r.Some? <==> id in Ids(d)
  {
    if |d| == 0 then None
    else if d[0].id == id then Some(d[0].trade)
    else Lookup(d[1..], id)
  }

  /** In a well-formed dict, looking up the ID of an entry finds that entry. */
  lemma {:induction false} LookupAt(d: Dict, i: int)
    requires UniqueIds(d)
    requires 0 <= i < |d|
    ensures Lookup(d, d[i].id) == Some(d[i].trade)
  {
    if i > 0 {
      assert d[0].id != d[i].id;
      assert d[1..][i - 1] == d[i];
      LookupAt(d[1..], i - 1);
    }
  }

  /** The value the LAST entry for `id` in a batch carries: what a sequence of
      assignments `d[id] = ...` leaves behind. */
  function LookupLast(b: Dict, id: string): (r: Option<Trade>)
    ensures r.Some? <==> id in Ids(b)
  {
    if |b| == 0 then None
    else match LookupLast(b[1..], id)
      case Some(t) => Some(t)
      case None => if b[0].id == id then Some(b[0].trade) else None
  }

  /** `d[e.id] = e.trade`: overwrite in place, or append a new key. */
  function Put(d: Dict, e: Entry): (r: Dict)
    ensures Ids(r) == Ids(d) + {e.id}
    ensures forall id :: Lookup(r, id) == if id == e.id then Some(e.trade) else Lookup(d, id)
    ensures e.id in Ids(d) ==> |r| == |d| && forall i :: 0 <= i < |d| ==> r[i].id == d[i].id
    ensures e.id !in Ids(d) ==> r == d + [e]
    ensures UniqueIds(d) ==> UniqueIds(r)
  {
    assert [e][0].id == e.id;
    assert Ids([e]) == {e.id};
    if |d| == 0 then [e]
    else
      assert d == [d[0]] + d[1..];
      IdsConcat([d[0]], d[1..]);
      if d[0].id == e.id then
        IdsConcat([e], d[1..]);
        [e] + d[1..]
      else
        var rest := Put(d[1..], e);
        IdsConcat([d[0]], rest);
        [d[0]] + rest
  }

  /** The keys of the dict, in insertion order: `list(d.keys())`. */
  function Keys(d: Dict): (ks: seq<string>)
    ensures |ks| == |d|
    ensures forall i :: 0 <= i < |d| ==> ks[i] == d[i].id
  {
    if |d| == 0 then [] else [d[0].id] + Keys(d[1..])
  }

  /** The IDs of a batch that are not in `known`, each once, in the order of
      their first occurrence in the batch. */
  function NewIds(known: set<string>, b: Dict): seq<string>
    decreases |b|
  {
    if |b| == 0 then []
    else if b[0].id in known then NewIds(known, b[1..])
    else [b[0].id] + NewIds(known + {b[0].id}, b[1..])
  }

  /** Storing one entry appends its ID to the keys exactly when it is new. */
  lemma {:induction false} PutKeys(d: Dict, e: Entry)
    ensures Keys(Put(d, e)) == Keys(d) + NewIds(Ids(d), [e])
  {
    assert [e][1..] == [];
    if e.id in Ids(d) {
      KeysSame(d, Put(d, e));
    } else {
      KeysSnoc(d, e);
    }
  }

  lemma {:induction false} KeysSame(d: Dict, r: Dict)
    requires |r| == |d| && forall i :: 0 <= i < |d| ==> r[i].id == d[i].id
    ensures Keys(r) == Keys(d)
  {
  }

  lemma {:induction false} KeysSnoc(d: Dict, e: Entry)
    ensures Keys(d + [e]) == Keys(d) + [e.id]
  {
    assert (d + [e])[|d|] == e;
  }

  /** The new IDs of a batch are those its first entry brings followed by
      those the rest of the batch brings. */
  lemma NewIdsStep(known: set<string>, b: Dict, after: set<string>, ks: seq<string>, ksNext: seq<string>, ksLast: seq<string>)
    requires |b| > 0
    requires after == known + {b[0].id}
    requires ksNext == ks + NewIds(known, [b[0]])
    requires ksLast == ksNext + NewIds(after, b[1..])
    ensures ksLast == ks + NewIds(known, b)
  {
    assert [b[0]][1..] == [];
    if b[0].id in known {
      assert after == known;
    }
  }

  /** `d.update(b)`: the batch's entries are assigned one after the other. */
  function Update(d: Dict, b: Dict): (r: Dict)
    ensures Ids(r) == Ids(d) + Ids(b)
    ensures forall id :: Lookup(r, id) == if id in Ids(b) then LookupLast(b, id) else Lookup(d, id)
    ensures |r| >= |d| && forall i :: 0 <= i < |d| ==> r[i].id == d[i].id
    ensures Ids(b) <= Ids(d) ==> |r| == |d|
    ensures UniqueIds(d) ==> UniqueIds(r)
    decreases |b|
  {
    if |b| == 0 then d
    else
      assert b == [b[0]] + b[1..];
      IdsConcat([b[0]], b[1..]);
      Update(Put(d, b[0]), b[1..])
  }

  /** Where `d.update(b)` puts the keys: the old keys keep their places and
      the batch's new IDs follow them, once each, in the order of their first
      occurrence in the batch. */
  lemma {:induction false} UpdateKeyOrder(d: Dict, b: Dict)
    ensures Keys(Update(d, b)) == Keys(d) + NewIds(Ids(d), b)
    decreases |b|
  {
    if |b| > 0 {
      var next := Put(d, b[0]);
      assert Update(d, b) == Update(next, b[1..]);
      UpdateKeyOrder(next, b[1..]);
      PutKeys(d, b[0]);
      NewIdsStep(Ids(d), b, Ids(next), Keys(d), Keys(next), Keys(Update(d, b)));
    }
  }

  /** Two well-formed dicts with the same keys in the same order and the same
      lookups are the same dict. */
  lemma SameKeysSameLookups(a: Dict, c: Dict)
    requires UniqueIds(a) && UniqueIds(c)
    requires |a| == |c| && forall i :: 0 <= i < |a| ==> a[i].id == c[i].id
    requires forall id :: Lookup(a, id) == Lookup(c, id)
    ensures a == c
  {
    forall i | 0 <= i < |a|
      ensures a[i] == c[i]
    {
      LookupAt(a, i);
      LookupAt(c, i);
    }
  }

  /** Merging the same batch twice leaves the ledger as merging it once: an
      overlapping page never duplicates or reorders a trade. */
  lemma UpdateIdempotent(d: Dict, b: Dict)
    requires UniqueIds(d)
    ensures Update(Update(d, b), b) == Update(d, b)
  {
    var once := Update(d, b);
    var twice := Update(once, b);
    SameKeysSameLookups(twice, once);
  }

  /** The smallest timestamp in a non-empty batch. */
  function MinTime(b: Dict): (m: real)
    requires |b| > 0
    ensures exists i :: 0 <= i < |b| && b[i].trade.time == m
    ensures forall i :: 0 <= i < |b| ==> m <= b[i].trade.time
  {
    if |b| == 1 then b[0].trade.time
    else
      var rest := MinTime(b[1..]);
      assert forall i :: 1 <= i < |b| ==> b[1..][i - 1] == b[i];
      if b[0].trade.time <= rest then b[0].trade.time else rest
  }

  /** What the pagination walk has gathered so far: the ledger, the pairs seen,
      and the cursor (`last_trade_time`) for the next request. */
  datatype Walk = Walk(trades: Dict, pairs: set<string>, cursor: Option<real>)

  /** The walk before the first request. */
  const Start: Walk := Walk([], {}, None)

  /** One step of the walk given the batch a request returned: an empty batch
      ends the walk (None); otherwise the batch is merged into the ledger, its
      pairs into the pair set, and the cursor becomes the batch's oldest time. */
  function MergeBatch(w: Walk, b: Dict): (r: Option<Walk>)
    ensures r.None? <==> |b| == 0
    ensures r.Some? ==> r.value.trades == Update(w.trades, b)
    ensures r.Some? ==> r.value.pairs == w.pairs + PairsOf(Values(b))
    ensures r.Some? ==> r.value.cursor.Some?
    ensures r.Some? ==> exists i :: 0 <= i < |b| && b[i].trade.time == r.value.cursor.value
    ensures r.Some? ==> forall i :: 0 <= i < |b| ==> r.value.cursor.value <= b[i].trade.time
  {
    if |b| == 0 then None
    else Some(Walk(Update(w.trades, b), w.pairs + PairsOf(Values(b)), Some(MinTime(b))))
  }

  /** Receiving the same batch twice in a row leaves the walk exactly as
      receiving it once. */
  lemma MergeBatchIdempotent(w: Walk, b: Dict)
    requires UniqueIds(w.trades)
    requires |b| > 0
    ensures MergeBatch(MergeBatch(w, b).value, b) == MergeBatch(w, b)
  {
    UpdateIdempotent(w.trades, b);
  }
}
