/**
  The read-only queries of the book: best prices, depth and the two self-checks, against the reference book.
 */
module Queries {
  import opened Types
  import opened PriceTime
  import opened Spec
  import opened Invariants
  import opened Levels
  import opened BookState
  import opened Matcher
  import opened Commands
  import Cascade
  import SM = StopMap

  /** Price and open quantity of the best price of a side. */
  function Top(os: seq<Order>): Option<(Price, nat)> {
    if os == [] then None else Some((os[0].price, SumAt(os, RankOf(os[0]))))
  }

  method BestOfSide(b: OrderBook, s: Side) returns (r: Option<(Price, nat)>)
    requires b.Threads() && b.NoEmpty()
    ensures r == Top(Resting(b.View(), s))
  {
    hide ThreadsOf, NoEmptyLevel;
    var lv := b.LevelsOf(s);
    BestOf(b, s);
    LevelsKnown(b, s);
    if lv.Keys == {} {
      return None;
    }
    var k := SM.MinKey(lv.Keys);
    r := Some((PriceAt(s, k), lv[k].totalQty));
  }

  method CheckNoCross(b: OrderBook) returns (ok: bool)
    requires b.Threads() && b.NoEmpty()
    ensures ok <==> NoCross(b.View())
  {
    hide ThreadsOf, NoEmptyLevel;
    var bid := BestOfSide(b, Buy);
    var ask := BestOfSide(b, Sell);
    ok := bid.None? || ask.None? || bid.value.0 < ask.value.0;
  }

  // ---------------------------------------------------------------- depth

  /** The first n prices of a side with their open quantities, grouped from the orders. */
  function DepthOf(os: seq<Order>, n: nat): seq<(Price, nat)>
    decreases n
  {
    if os == [] || n == 0 then []
    else [(os[0].price, SumAt(os, RankOf(os[0])))] + DepthOf(os[Pos(os, RankOf(os[0]))..], n - 1)
  }

  /** The entries of a listed sequence of ranks. */
  function Entries(s: Side, os: seq<Order>, ks: seq<int>): seq<(Price, nat)> {
    if ks == [] then [] else [(PriceAt(s, ks[0]), SumAt(os, ks[0]))] + Entries(s, os, ks[1..])
  }

  /** Dropping the orders of the best rank leaves the sums at the other ranks alone. */
  lemma TailSums(os: seq<Order>, k: int)
    requires Sorted(os) && os != []
    ensures var p := Pos(os, RankOf(os[0]));
      && p > 0 && Sorted(os[p..]) && (forall i :: 0 <= i < |os[p..]| ==> RankOf(os[0]) < RankOf(os[p..][i]))
      && (RankOf(os[0]) < k ==> SumAt(os[p..], k) == SumAt(os, k))
  {
    var p := Pos(os, RankOf(os[0]));
    forall i | 0 <= i < |os[p..]| ensures RankOf(os[0]) < RankOf(os[p..][i]) {
      assert os[p..][i] == os[p + i];
      assert RankOf(os[p]) <= RankOf(os[p + i]);
    }
    SumConcat(os[..p], os[p..], k);
    assert os == os[..p] + os[p..];
    if RankOf(os[0]) < k {
      SumAtAbsent(os[..p], k);
    }
  }

  lemma {:induction false} EntriesFrame(s: Side, os: seq<Order>, ps: seq<Order>, ks: seq<int>)
    requires forall k :: k in ks ==> SumAt(os, k) == SumAt(ps, k)
    ensures Entries(s, os, ks) == Entries(s, ps, ks)
  {
    if ks != [] {
      EntriesFrame(s, os, ps, ks[1..]);
    }
  }

  /** ks are the ranks of the orders of side s, in ascending order. */
  ghost predicate Grouped(os: seq<Order>, s: Side, ks: seq<int>) {
    && Sorted(os) && (forall i :: 0 <= i < |os| ==> os[i].side == s && os[i].kind.Limit?)
    && (forall i, j :: 0 <= i < j < |ks| ==> ks[i] < ks[j])
    && (forall i :: 0 <= i < |os| ==> RankOf(os[i]) in ks) && (forall k :: k in ks ==> SumAt(os, k) > 0)
  }

  lemma GroupedEmpty(os: seq<Order>, s: Side, ks: seq<int>)
    requires Grouped(os, s, ks) && os == []
    ensures ks == []
  {
    HeadIn(ks);
  }

  lemma HeadIn(ks: seq<int>)
    ensures ks == [] || ks[0] in ks
  {
  }

  lemma GroupedTail(os: seq<Order>, s: Side, ks: seq<int>)
    requires Grouped(os, s, ks) && os != []
    ensures ks != [] && ks[0] == RankOf(os[0]) && PriceAt(s, ks[0]) == os[0].price
    ensures var p := Pos(os, ks[0]);
      Grouped(os[p..], s, ks[1..]) && forall k :: k in ks[1..] ==> SumAt(os[p..], k) == SumAt(os, k)
  {
    FirstRank(os, ks);
    TailSums(os, ks[0]);
    TailRanks(os, ks);
    var p := Pos(os, ks[0]);
    forall k | k in ks[1..] ensures SumAt(os[p..], k) == SumAt(os, k) && SumAt(os, k) > 0 {
      var i :| 0 <= i < |ks[1..]| && ks[1..][i] == k;
      assert ks[i + 1] == k && k in ks;
      TailSums(os, k);
    }
  }

  /** Reading the levels in key order is grouping the orders by price. */
  lemma {:induction false} EntriesAreDepth(s: Side, os: seq<Order>, ks: seq<int>, n: nat)
    requires Grouped(os, s, ks)
    ensures Entries(s, os, First(ks, n)) == DepthOf(os, n)
    decreases n
  {
    hide Grouped, Pos, SumAt, Entries, DepthOf;
    EntriesNone(s, os, ks);
    DepthUnfold(os, n);
    if os == [] {
      GroupedEmpty(os, s, ks);
    } else if n > 0 {
      GroupedTail(os, s, ks);
      var p := Pos(os, ks[0]);
      var front := First(ks, n);
      EntriesAreDepth(s, os[p..], ks[1..], n - 1);
      assert front[0] == ks[0] && front[1..] == First(ks[1..], n - 1);
      EntriesFrame(s, os, os[p..], front[1..]);
      EntriesHead(s, os, front);
    }
  }

  function First(ks: seq<int>, n: nat): seq<int> {
    if n <= |ks| then ks[..n] else ks
  }

  lemma EntriesHead(s: Side, os: seq<Order>, ks: seq<int>)
    requires ks != []
    ensures Entries(s, os, ks) == [(PriceAt(s, ks[0]), SumAt(os, ks[0]))] + Entries(s, os, ks[1..])
  {
  }

  lemma DepthUnfold(os: seq<Order>, n: nat)
    ensures os == [] || n == 0 ==> DepthOf(os, n) == []
    ensures os != [] && n > 0 ==>
      DepthOf(os, n) == [(os[0].price, SumAt(os, RankOf(os[0])))] + DepthOf(os[Pos(os, RankOf(os[0]))..], n - 1)
  {
  }

  lemma FirstRank(os: seq<Order>, ks: seq<int>)
    requires Sorted(os) && os != []
    requires forall i, j :: 0 <= i < j < |ks| ==> ks[i] < ks[j]
    requires (forall i :: 0 <= i < |os| ==> RankOf(os[i]) in ks) && (forall k :: k in ks ==> SumAt(os, k) > 0)
    ensures ks != [] && ks[0] == RankOf(os[0])
  {
    assert RankOf(os[0]) in ks;
    var i := RankWitness(os, ks[0]);
    assert RankOf(os[0]) <= RankOf(os[i]);
    var j :| 0 <= j < |ks| && ks[j] == RankOf(os[0]);
    assert ks[0] <= ks[j];
  }

  lemma TailRanks(os: seq<Order>, ks: seq<int>)
    requires Sorted(os) && os != [] && ks != [] && ks[0] == RankOf(os[0])
    requires forall i :: 0 <= i < |os| ==> RankOf(os[i]) in ks
    ensures var p := Pos(os, ks[0]); forall i :: 0 <= i < |os[p..]| ==> RankOf(os[p..][i]) in ks[1..]
  {
    var p := Pos(os, ks[0]);
    TailSums(os, ks[0]);
    forall i | 0 <= i < |os[p..]| ensures RankOf(os[p..][i]) in ks[1..] {
      assert os[p..][i] == os[p + i];
      assert ks == [ks[0]] + ks[1..];
    }
  }

  /** The first levels of one side in iteration order. */
  method DepthOfSide(b: OrderBook, s: Side, n: nat) returns (r: seq<(Price, nat)>)
    requires b.Threads() && b.NoEmpty()
    ensures r == DepthOf(Resting(b.View(), s), n)
  {
    hide ThreadsOf, NoEmptyLevel, SM.SortedKeys, DepthOf, Grouped, SumAt, Entries, ViewOf, First;
    var lv := b.LevelsOf(s);
    var ks := SM.SortedKeys(lv.Keys);
    ghost var os := Resting(b.View(), s);
    LevelsKnown(b, s);
    LevelsGrouped(b, s);
    EntriesNone(s, os, ks);
    r := [];
    var i := 0;
    while i < n && i < |ks|
      invariant 0 <= i <= |ks| && i <= n
      invariant r == Entries(s, os, ks[..i])
    {
      EntriesNext(s, os, ks, i);
      r := r + [(PriceAt(s, ks[i]), lv[ks[i]].totalQty)];
      i := i + 1;
    }
    FirstIs(ks, n, i);
    EntriesAreDepth(s, os, ks, n);
  }

  lemma FirstIs(ks: seq<int>, n: nat, i: nat)
    requires i <= n && i <= |ks| && (i == n || i == |ks|)
    ensures First(ks, n) == ks[..i]
  {
    assert ks[..|ks|] == ks;
  }

  lemma {:induction false} EntriesNext(s: Side, os: seq<Order>, ks: seq<int>, i: nat)
    requires i < |ks|
    ensures Entries(s, os, ks[..i + 1]) == Entries(s, os, ks[..i]) + [(PriceAt(s, ks[i]), SumAt(os, ks[i]))]
  {
    hide SumAt;
    if i > 0 {
      var front, longer := ks[..i], ks[..i + 1];
      assert front[0] == ks[0] && longer[0] == ks[0];
      assert front[1..] == ks[1..][..i - 1];
      assert longer[1..] == ks[1..][..i];
      EntriesNext(s, os, ks[1..], i - 1);
    } else {
      assert ks[..1] == [ks[0]] && [ks[0]][1..] == [];
    }
  }

  lemma EntriesNone(s: Side, os: seq<Order>, ks: seq<int>)
    ensures Entries(s, os, ks[..0]) == [] && Entries(s, os, []) == []
  {
  }

  lemma LevelsGrouped(b: OrderBook, s: Side)
    requires b.Threads() && b.NoEmpty()
    ensures Grouped(Resting(b.View(), s), s, SM.SortedKeys(b.LevelsOf(s).Keys))
  {
    hide StopsOk, SlabOk, Sorted, Distinct, Linked, Ended, SM.SortedKeys;
    LevelsKnown(b, s);
  }

  // ---------------------------------------------------------------- depth, told by prices alone

  /** Open quantity at one price. */
  function AtPrice(os: seq<Order>, p: Price): nat {
    if os == [] then 0 else (if os[0].price == p then os[0].remaining else 0) + AtPrice(os[1..], p)
  }

  predicate Better(s: Side, p: Price, q: Price) {
    if s.Buy? then p > q else p < q
  }

  /** Prices from better to worse, each with all the quantity at it; a price that is missing is worse than n others. */
  ghost predicate DepthIs(os: seq<Order>, s: Side, n: nat, d: seq<(Price, nat)>) {
    && |d| <= n
    && (forall i, j :: 0 <= i < j < |d| ==> Better(s, d[i].0, d[j].0))
    && (forall i :: 0 <= i < |d| ==> d[i].1 == AtPrice(os, d[i].0) && d[i].1 > 0)
    && (forall k :: 0 <= k < |os| ==> Listed(d, os[k].price) || (|d| == n && Beyond(s, d, os[k].price)))
  }

  ghost predicate Listed(d: seq<(Price, nat)>, p: Price) {
    exists i :: 0 <= i < |d| && d[i].0 == p
  }

  ghost predicate Beyond(s: Side, d: seq<(Price, nat)>, p: Price) {
    forall i :: 0 <= i < |d| ==> Better(s, d[i].0, p)
  }

  lemma {:induction false} AtPriceIs(os: seq<Order>, s: Side, p: Price)
    requires forall i :: 0 <= i < |os| ==> os[i].side == s && os[i].kind.Limit?
    ensures AtPrice(os, p) == SumAt(os, Rank(s, p))
  {
    if os != [] { AtPriceIs(os[1..], s, p); }
  }

  /** The depth is what its name says, and the best price is the first of it. */
  lemma DepthExactly(os: seq<Order>, s: Side, n: nat)
    requires SideWF(os, s)
    ensures DepthIs(os, s, n, DepthOf(os, n))
    ensures DepthIs(os, s, 1, if Top(os).None? then [] else [Top(os).value])
  {
    hide Distinct, DepthOf, DepthIs, SumAt, Pos;
    DepthByPrice(os, s, n);
    DepthByPrice(os, s, 1);
    DepthUnfold(os, 1);
    if os != [] {
      DepthUnfold(os[Pos(os, RankOf(os[0]))..], 0);
      assert DepthOf(os, 1) == [Top(os).value] + [] == [Top(os).value];
    }
  }

  lemma {:induction false} DepthByPrice(os: seq<Order>, s: Side, n: nat)
    requires Sorted(os)
    requires forall i :: 0 <= i < |os| ==> os[i].side == s && os[i].kind.Limit? && os[i].remaining > 0
    ensures DepthIs(os, s, n, DepthOf(os, n))
    decreases n
  {
    hide Sorted, DepthOf, SumAt, Pos, AtPrice, DepthIs;
    DepthUnfold(os, n);
    if os == [] || n == 0 {
      NoDepth(os, s, n);
    } else {
      var p := Pos(os, RankOf(os[0]));
      TailSums(os, RankOf(os[0]));
      FrontPrices(os, s);
      var d := DepthOf(os[p..], n - 1);
      DepthByPrice(os[p..], s, n - 1);
      DepthTail(os, s, n - 1, d);
      DepthGrows(os, s, p, n, d);
    }
  }

  lemma NoDepth(os: seq<Order>, s: Side, n: nat)
    requires os == [] || n == 0
    ensures DepthIs(os, s, n, [])
  {
  }

  /** The orders of the best price come first, all others are worse. */
  lemma FrontPrices(os: seq<Order>, s: Side)
    requires Sorted(os) && os != [] && forall i :: 0 <= i < |os| ==> os[i].side == s && os[i].kind.Limit?
    ensures var p := Pos(os, RankOf(os[0]));
      && (forall i :: 0 <= i < p ==> os[i].price == os[0].price)
      && (forall i :: p <= i < |os| ==> Better(s, os[0].price, os[i].price))
  {
    hide Pos;
    var p := Pos(os, RankOf(os[0]));
    forall i | 0 <= i < p ensures os[i].price == os[0].price {
      assert RankOf(os[0]) <= RankOf(os[i]);
    }
    forall i | p <= i < |os| ensures Better(s, os[0].price, os[i].price) {
      assert RankOf(os[p]) <= RankOf(os[i]);
    }
  }

  lemma {:induction false} PriceWitness(os: seq<Order>, p: Price) returns (i: nat)
    requires AtPrice(os, p) > 0
    ensures i < |os| && os[i].price == p
  {
    if os[0].price == p {
      i := 0;
    } else {
      i := PriceWitness(os[1..], p);
      i := i + 1;
    }
  }

  /** The depth behind the best price has worse prices only, with the quantities of the whole side. */
  lemma DepthTail(os: seq<Order>, s: Side, n: nat, d: seq<(Price, nat)>)
    requires Sorted(os) && os != []
    requires forall i :: 0 <= i < |os| ==> os[i].side == s && os[i].kind.Limit? && os[i].remaining > 0
    requires DepthIs(os[Pos(os, RankOf(os[0]))..], s, n, d)
    ensures forall i :: 0 <= i < |d| ==> Better(s, os[0].price, d[i].0) && d[i].1 == AtPrice(os, d[i].0)
    ensures AtPrice(os, os[0].price) == SumAt(os, RankOf(os[0])) > 0
  {
    hide Sorted, Pos, SumAt, AtPrice;
    var p := Pos(os, RankOf(os[0]));
    FrontPrices(os, s);
    AtPriceIs(os, s, os[0].price);
    SumAtMember(os, 0);
    forall i | 0 <= i < |d| ensures Better(s, os[0].price, d[i].0) && d[i].1 == AtPrice(os, d[i].0) {
      var j := PriceWitness(os[p..], d[i].0);
      assert os[p..][j] == os[p + j];
      AtPriceIs(os, s, d[i].0);
      AtPriceIs(os[p..], s, d[i].0);
      TailSums(os, Rank(s, d[i].0));
    }
  }

  lemma DepthGrows(os: seq<Order>, s: Side, p: nat, n: nat, d: seq<(Price, nat)>)
    requires os != [] && 0 < p <= |os| && n > 0 && DepthIs(os[p..], s, n - 1, d)
    requires forall i :: 0 <= i < p ==> os[i].price == os[0].price
    requires forall i :: p <= i < |os| ==> Better(s, os[0].price, os[i].price)
    requires forall i :: 0 <= i < |d| ==> Better(s, os[0].price, d[i].0) && d[i].1 == AtPrice(os, d[i].0)
    requires AtPrice(os, os[0].price) == SumAt(os, RankOf(os[0])) > 0
    ensures DepthIs(os, s, n, [(os[0].price, SumAt(os, RankOf(os[0])))] + d)
  {
    hide AtPrice, SumAt, Better, RankOf;
    var e := [(os[0].price, SumAt(os, RankOf(os[0])))] + d;
    forall k | 0 <= k < |os| ensures Listed(e, os[k].price) || (|e| == n && Beyond(s, e, os[k].price)) {
      if k < p {
        assert e[0].0 == os[k].price;
      } else {
        assert os[p..][k - p] == os[k];
        if Listed(d, os[k].price) {
          var i :| 0 <= i < |d| && d[i].0 == os[k].price;
          assert e[i + 1] == d[i];
        }
      }
    }
  }

  // ---------------------------------------------------------------- quantity check

  ghost function MapSum(m: map<int, nat>): nat
    decreases |m|
  {
    if m == map[] then 0
    else
      var k := SM.MinKey(m.Keys);
      m[k] + MapSum(m - {k})
  }

  lemma {:induction false} MapSumDrop(m: map<int, nat>, x: int)
    requires x in m
    ensures MapSum(m) == m[x] + MapSum(m - {x})
    decreases |m|
  {
    var k := SM.MinKey(m.Keys);
    assert m != map[];
    if k != x {
      MapSumDrop(m - {k}, x);
      assert m - {k} - {x} == m - {x} - {k};
      var r := m - {x};
      assert k in r && r != map[];
      MapSumDrop(r, k);
    }
  }

  /** A map from the ids of distinct orders to their open quantities sums to the open quantity of the orders. */
  lemma {:induction false} MapSumOrders(m: map<int, nat>, os: seq<Order>)
    requires Distinct(os) && (forall i :: 0 <= i < |os| ==> os[i].id in m && m[os[i].id] == os[i].remaining)
    requires forall id :: id in m ==> exists i :: 0 <= i < |os| && os[i].id == id
    ensures MapSum(m) == Sum(os)
    decreases |os|
  {
    if os == [] {
      assert m == map[];
    } else {
      var id := os[0].id;
      MapSumDrop(m, id);
      forall x | x in m - {id} ensures exists i :: 0 <= i < |os[1..]| && os[1..][i].id == x {
        var i :| 0 <= i < |os| && os[i].id == x;
        assert os[1..][i - 1].id == x;
      }
      MapSumOrders(m - {id}, os[1..]);
    }
  }

  /** The sum of the cached totals of one side, in 64-bit arithmetic. */
  method LevelTotal(b: OrderBook, s: Side) returns (total: Qty)
    requires b.Threads()
    ensures total == Wrap(Sum(Resting(b.View(), s)))
  {
    hide *;
    var lv := b.LevelsOf(s);
    var ks := SM.SortedKeys(lv.Keys);
    ghost var os := Resting(b.View(), s);
    LevelsKnown(b, s);
    WrapZero();
    SumKeysNext(os, ks, 0);
    assert ks[..0] == [];
    total := 0;
    var i := 0;
    while i < |ks|
      invariant 0 <= i <= |ks|
      invariant total == Wrap(SumKeys(os, ks[..i]))
    {
      assert ks[i] in ks;
      SumKeysNext(os, ks, i);
      WrapStep(SumKeys(os, ks[..i]), lv[ks[i]].totalQty);
      total := WrapAdd(total, lv[ks[i]].totalQty);
      i := i + 1;
    }
    AllRanks(os, ks);
    assert ks[..i] == ks;
  }

  lemma WrapZero()
    ensures Wrap(0) == 0
  {
  }

  lemma WrapStep(a: nat, c: Qty)
    ensures WrapAdd(Wrap(a), c) == Wrap(a + c)
  {
    var m := U64_MAX + 1;
    var q := a / m;
    assert a + c == a % m + c + m * q;
    AddTimes(a % m + c, q);
  }

  lemma {:induction false} AddTimes(a: nat, q: nat)
    ensures Wrap(a + (U64_MAX + 1) * q) == Wrap(a)
  {
    if q > 0 { AddTimes(a, q - 1); }
  }

  lemma AllRanks(os: seq<Order>, ks: seq<int>)
    requires forall i, j :: 0 <= i < j < |ks| ==> ks[i] < ks[j]
    requires forall i :: 0 <= i < |os| ==> RankOf(os[i]) in ks
    ensures SumKeys(os, ks) == Sum(os)
  {
    hide SumKeys, SumWithin;
    var top := if ks == [] then 0 else ks[|ks| - 1];
    forall i | 0 <= i < |os| ensures RankOf(os[i]) <= top {
      var j :| 0 <= j < |ks| && ks[j] == RankOf(os[i]);
    }
    assert ks[..|ks|] == ks;
    SumKeysWithin(os, ks, |ks|, top);
    SumWithinAll(os, top);
  }

  /** The order an id leads to. */
  ghost function OrderAt(b: OrderBook, id: OrderId): Order
    requires b.Sound() && id in b.idIndex
    reads b
  {
    hide Covered, ThreadsOf, NoEmptyLevel, StaleFree;
    b.arena.slots[b.idIndex[id].slot].order
  }

  /** The open quantity the index reaches, id by id. */
  ghost function Indexed(b: OrderBook): map<int, nat>
    requires b.Sound()
    reads b
  {
    map id | id in b.idIndex :: OrderAt(b, id).remaining
  }

  ghost function AllOrders(v: Book): seq<Order> {
    v.bids + v.asks + v.buyStops + v.sellStops
  }

  method IndexTotal(b: OrderBook) returns (total: Qty)
    requires b.Sound()
    ensures total == Wrap(Sum(AllOrders(b.View())))
  {
    hide *;
    ghost var m := Indexed(b);
    var ids := b.idIndex.Keys;
    total := 0;
    WrapZero();
    IndexedKeys(b);
    CountedEnds(m, ids);
    while ids != {}
      invariant ids <= b.idIndex.Keys
      invariant total == Wrap(Counted(m, ids))
      decreases |ids|
    {
      var id :| id in ids;
      IndexedOne(b, id);
      var qty := b.arena.slots[b.idIndex[id].slot].order.remaining;
      CountedNext(m, ids, id);
      WrapStep(Counted(m, ids), qty);
      total := WrapAdd(total, qty);
      ids := ids - {id};
    }
    CountedEnds(m, ids);
    IndexedAll(b);
  }

  /** The sum over the ids that are no longer in ids. */
  ghost function Counted(m: map<int, nat>, ids: set<int>): nat {
    MapSum(m - ids)
  }

  lemma CountedEnds(m: map<int, nat>, ids: set<int>)
    ensures ids == m.Keys ==> Counted(m, ids) == 0
    ensures ids == {} ==> Counted(m, ids) == MapSum(m)
  {
    if ids == m.Keys {
      assert m - ids == map[];
    } else if ids == {} {
      assert m - ids == m;
    }
  }

  lemma CountedNext(m: map<int, nat>, ids: set<int>, id: int)
    requires id in ids && id in m
    ensures Counted(m, ids - {id}) == Counted(m, ids) + m[id]
  {
    hide MapSum;
    var more := m - (ids - {id});
    assert more - {id} == m - ids;
    MapSumDrop(more, id);
  }

  lemma IndexedKeys(b: OrderBook)
    requires b.Sound()
    ensures Indexed(b).Keys == b.idIndex.Keys
  {
  }

  lemma IndexedOne(b: OrderBook, id: OrderId)
    requires b.Sound() && id in b.idIndex
    ensures id in Indexed(b) && b.idIndex[id].slot in b.arena.slots
    ensures Indexed(b)[id] == b.arena.slots[b.idIndex[id].slot].order.remaining
  {
    hide Covered, ThreadsOf, NoEmptyLevel, StaleFree;
  }

  /** The index reaches every order of the book once, and nothing else. */
  lemma IndexedAll(b: OrderBook)
    requires b.Sound()
    ensures MapSum(Indexed(b)) == Sum(AllOrders(b.View()))
  {
    hide MapSum, Sum, WF;
    SoundWF(b);
    AllDistinct(b.View());
    AllIndexed(b);
    assert forall i :: 0 <= i < |AllOrders(b.View())| ==> AllOrders(b.View())[i] in AllOrders(b.View());
    forall id | id in Indexed(b) ensures exists i :: 0 <= i < |AllOrders(b.View())| && AllOrders(b.View())[i].id == id {
      IndexedSome(b, id);
    }
    MapSumOrders(Indexed(b), AllOrders(b.View()));
  }

  lemma IndexedSome(b: OrderBook, id: OrderId)
    requires b.Sound() && id in b.idIndex
    ensures exists i :: 0 <= i < |AllOrders(b.View())| && AllOrders(b.View())[i].id == id
  {
    hide ThreadsOf, NoEmptyLevel, Covered, StaleFree, IndexOk, IndexOf;
    Find(b, id);
    var v := b.View();
    var o := b.arena.slots[b.idIndex[id].slot].order;
    var home := HomeIn(v, o);
    var i := IndexOf(home, id);
    var front := if IsStop(o.kind) then |v.bids| + |v.asks| + (if o.side.Buy? then 0 else |v.buyStops|)
      else if o.side.Buy? then 0 else |v.bids|;
    assert AllOrders(v)[front + i] == home[i];
  }

  lemma AllIndexed(b: OrderBook)
    requires b.Sound()
    ensures forall o :: o in AllOrders(b.View()) ==> o.id in b.idIndex && OrderAt(b, o.id) == o
  {
    hide NoEmptyLevel, Covered, StaleFree, Ladder, StopsOk, SlabOk;
    var v := b.View();
    var q := b.qs.bids + b.qs.asks + b.qs.buyStops + b.qs.sellStops;
    forall i | 0 <= i < |AllOrders(v)|
      ensures var o := AllOrders(v)[i]; o.id in b.idIndex && OrderAt(b, o.id) == o
    {
      assert q[i] in b.arena.slots && AllOrders(v)[i] == b.arena.slots[q[i]].order;
    }
  }

  lemma AllDistinct(v: Book)
    requires WF(v)
    ensures Distinct(AllOrders(v))
  {
    hide Sorted, Distinct, IndexOf;
    DistinctConcat(v.bids, v.asks);
    SharedConcat(v.bids, v.asks, v.buyStops);
    SharedConcat(v.bids, v.asks, v.sellStops);
    DistinctConcat(v.bids + v.asks, v.buyStops);
    SharedConcat(v.bids + v.asks, v.buyStops, v.sellStops);
    DistinctConcat(v.bids + v.asks + v.buyStops, v.sellStops);
  }

  lemma SharedConcat(os: seq<Order>, ps: seq<Order>, rs: seq<Order>)
    requires NoShared(os, rs) && NoShared(ps, rs)
    ensures NoShared(os + ps, rs)
  {
    forall id | Has(os + ps, id) ensures !Has(rs, id) {
      LookupConcat(os, ps, id);
    }
  }

  lemma DistinctConcat(os: seq<Order>, ps: seq<Order>)
    requires Distinct(os) && Distinct(ps) && NoShared(os, ps)
    ensures Distinct(os + ps)
  {
    forall i, j | 0 <= i < |os| && 0 <= j < |ps| ensures os[i].id != ps[j].id {
      assert Has(os, os[i].id);
      NotHas(ps, os[i].id, j);
    }
  }

  lemma {:induction false} StopsOpen(os: seq<Order>, s: Side)
    requires StopsWF(os, s)
    ensures Sum(os) == 0 <==> os == []
  {
  }

  /**
    The whole open quantity is the resting quantity plus the stops; adding the stops shows unless they wrap to
    zero.
   */
  lemma CheckSums(v: Book)
    ensures Sum(AllOrders(v)) == OpenQty(v)
    ensures Wrap(OpenQty(v)) == WrapAdd(Wrap(Sum(v.bids)), Wrap(Sum(v.asks)))
      <==> Wrap(Sum(v.buyStops) + Sum(v.sellStops)) == 0
  {
    hide Sum, Wrap, WrapAdd;
    SumConcat(v.bids, v.asks, 0);
    SumConcat(v.bids + v.asks, v.buyStops, 0);
    SumConcat(v.bids + v.asks + v.buyStops, v.sellStops, 0);
    WrapBoth(Sum(v.bids), Sum(v.asks));
    WrapExtra(Sum(v.bids) + Sum(v.asks), Sum(v.buyStops) + Sum(v.sellStops));
  }

  lemma NoStopsOpen(v: Book)
    requires StopsWF(v.buyStops, Buy) && StopsWF(v.sellStops, Sell) && OpenQty(v) <= U64_MAX
    ensures Wrap(Sum(v.buyStops) + Sum(v.sellStops)) == 0 <==> Pending(v) == 0
  {
    hide Sum, StopsWF;
    StopsOpen(v.buyStops, Buy);
    StopsOpen(v.sellStops, Sell);
  }

  lemma WrapBoth(a: nat, c: nat)
    ensures WrapAdd(Wrap(a), Wrap(c)) == Wrap(a + c)
  {
    var m := U64_MAX + 1;
    WrapStep(a, c % m);
    assert a + c == a + c % m + m * (c / m);
    AddTimes(a + c % m, c / m);
  }

  lemma WrapExtra(a: nat, p: nat)
    ensures Wrap(a + p) == Wrap(a) <==> Wrap(p) == 0
  {
    WrapBoth(a, p);
  }

  /**
    The quantity check compares the index with the levels. It answers yes exactly when the open quantity of the
    pending stops, which are indexed but in no level, is a multiple of 2^64.
   */
  method CheckQtyConservation(b: OrderBook) returns (ok: bool)
    requires b.Sound()
    ensures ok <==> Wrap(Sum(b.View().buyStops) + Sum(b.View().sellStops)) == 0
    ensures OpenQty(b.View()) <= U64_MAX ==> (ok <==> Pending(b.View()) == 0)
  {
    hide ThreadsOf, NoEmptyLevel, Covered, StaleFree, IndexOk, Sum, StopsWF, SideWF, AllOrders, OpenQty, Pending,
      ViewOf;
    hide Wrap, WrapAdd;
    var all := IndexTotal(b);
    var bids := LevelTotal(b, Buy);
    var asks := LevelTotal(b, Sell);
    ok := all == WrapAdd(bids, asks);
    CheckSums(b.View());
    PartsWF(b);
    if OpenQty(b.View()) <= U64_MAX { NoStopsOpen(b.View()); }
  }

  /**
    The two self-checks after any stream of commands whose quantities fit in 64 bits together: the book is never
    crossed, and the quantities agree exactly when no stop is pending.
   */
  method RunAndCheck(symbol: SymbolId, tick: Price, cs: seq<Sequenced>) returns (uncrossed: bool, agree: bool)
    requires MarketStopsOnly(EMPTY, cs) && Submitted(cs) <= U64_MAX
    ensures uncrossed
    ensures agree <==> Pending(Run(EMPTY, cs).book) == 0
  {
    hide ThreadsOf, NoEmptyLevel, Covered, StaleFree, IndexOk, AllPending, Run, MarketStopsOnly, Submitted, ViewOf;
    hide Inv, MarketStops;
    NothingOpen();
    VolumeKeepsScope(EMPTY, cs);
    RunOpen(EMPTY, cs);
    var b, out := Cascade.ApplyFresh(symbol, tick, cs);
    uncrossed := CheckNoCross(b);
    agree := CheckQtyConservation(b);
  }

  lemma NothingOpen()
    ensures OpenQty(EMPTY) == 0 && MarketStops(EMPTY) && Inv(EMPTY)
  {
  }
}
