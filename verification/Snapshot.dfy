/**
  Snapshots of a book: the orders its index reaches, in whatever order the hash map yields them, and a book loaded
  back from such a list.
 */
module Snapshot {
  import opened Types
  import opened PriceTime
  import opened Spec
  import opened Invariants
  import opened Levels
  import opened BookState
  import opened Matcher
  import opened Queries
  import opened Rebuild

  /** The symbol is kept once for the whole snapshot; side, kind and time in force are stored as small numbers. */
  datatype SnapOrder = SnapOrder(
    id: OrderId, side: nat, kind: nat, tif: nat, price: Price, stopPrice: Price, qty: Qty, remaining: Qty,
    seqNo: nat, ts: nat)

  datatype Snap = Snap(symbol: SymbolId, tick: Price, lastSeq: nat, lastTrade: Option<Price>,
    restingOrders: seq<SnapOrder>)

  function KindCode(k: OrderType): nat {
    match k
    case Limit => 0
    case Market => 1
    case Ioc => 2
    case Fok => 3
    case StopMarket => 4
    case StopLimit => 5
  }

  function KindOf(n: nat): OrderType {
    match n
    case 0 => Limit
    case 1 => Market
    case 2 => Ioc
    case 3 => Fok
    case 4 => StopMarket
    case _ => StopLimit
  }

  function SnapOf(o: Order): SnapOrder {
    SnapOrder(o.id, if o.side.Buy? then 0 else 1, KindCode(o.kind), if o.tif.Gtc? then 0 else 1,
              o.price, o.stopPrice, o.qty, o.remaining, o.seqNo, o.ts)
  }

  function Restored(so: SnapOrder, symbol: SymbolId): Order {
    Order(so.id, symbol, if so.side == 0 then Buy else Sell, KindOf(so.kind), if so.tif == 0 then Gtc else Day,
          so.price, so.stopPrice, so.qty, so.remaining, so.seqNo, so.ts)
  }

  lemma RestoredSnap(o: Order, symbol: SymbolId)
    ensures Restored(SnapOf(o), symbol) == o.(symbol := symbol)
  {
  }

  /**
    Two orders as they are stored, with the codes of side, kind and time in force, and one restored from codes that
    nothing stores.
   */
  lemma SnapExample()
    ensures SnapOf(Order(1, 9, Buy, Limit, Gtc, 100, 0, 8, 5, 6, 7)) == SnapOrder(1, 0, 0, 0, 100, 0, 8, 5, 6, 7)
    ensures SnapOf(Order(2, 9, Sell, StopLimit, Day, 90, 95, 4, 4, 3, 2)) == SnapOrder(2, 1, 5, 1, 90, 95, 4, 4, 3, 2)
    ensures KindCode(StopMarket) == 4
    ensures Restored(SnapOrder(3, 7, 9, 2, 50, 60, 4, 4, 3, 2), 8)
         == Order(3, 8, Sell, StopLimit, Day, 50, 60, 4, 4, 3, 2)
  {
  }

  function OrdersOf(s: Snap): (os: seq<Order>)
    ensures |os| == |s.restingOrders|
  {
    seq(|s.restingOrders|, i requires 0 <= i < |s.restingOrders| => Restored(s.restingOrders[i], s.symbol))
  }

  /** All orders of the book carry its symbol. */
  ghost predicate OneSymbol(os: seq<Order>, symbol: SymbolId) {
    forall o :: o in os ==> o.symbol == symbol
  }

  /** The orders with the symbol they are restored under. */
  ghost function Retagged(os: seq<Order>, symbol: SymbolId): (r: seq<Order>)
    ensures |r| == |os|
  {
    seq(|os|, i requires 0 <= i < |os| => os[i].(symbol := symbol))
  }

  lemma RetagSame(os: seq<Order>, symbol: SymbolId)
    ensures OneSymbol(os, symbol) ==> Retagged(os, symbol) == os
  {
    if OneSymbol(os, symbol) {
      forall i | 0 <= i < |os| ensures os[i].(symbol := symbol) == os[i] {
        assert os[i] in os;
      }
    }
  }

  // ---------------------------------------------------------------- save

  /** The index names the orders of the book, each once. */
  lemma IndexLists(b: OrderBook)
    requires b.Sound()
    ensures Distinct(AllOrders(b.View()))
    ensures forall o :: o in AllOrders(b.View()) ==> o.id in b.idIndex && OrderAt(b, o.id) == o
    ensures forall id :: id in b.idIndex ==> OrderAt(b, id) in AllOrders(b.View()) && OrderAt(b, id).id == id
  {
    hide WF, Indexed, AllOrders;
    SoundWF(b);
    AllDistinct(b.View());
    AllIndexed(b);
    forall id | id in b.idIndex ensures OrderAt(b, id) in AllOrders(b.View()) && OrderAt(b, id).id == id {
      IndexedSome(b, id);
      var i :| 0 <= i < |AllOrders(b.View())| && AllOrders(b.View())[i].id == id;
      assert AllOrders(b.View())[i] in AllOrders(b.View());
    }
  }

  /** Save the orders of the book, in any order. */
  method SaveSnapshot(b: OrderBook, lastSeq: nat) returns (s: Snap)
    requires b.Sound()
    ensures s.symbol == b.symbol && s.tick == b.tick && s.lastSeq == lastSeq && s.lastTrade == b.lastTrade
    ensures Relists(OrdersOf(s), Retagged(AllOrders(b.View()), b.symbol))
  {
    hide ThreadsOf, NoEmptyLevel, Covered, StaleFree, IndexOk, AllOrders, KindCode, OrdersOf, Restored, OrderAt,
      Retagged;
    var ids := b.idIndex.Keys;
    var out: seq<SnapOrder> := [];
    IndexLists(b);
    while ids != {}
      invariant ids <= b.idIndex.Keys
      invariant forall i :: 0 <= i < |out| ==>
        out[i].id in b.idIndex && out[i].id !in ids && out[i] == SnapOf(OrderAt(b, out[i].id))
      invariant forall i, j :: 0 <= i < j < |out| ==> out[i].id != out[j].id
      invariant forall id :: id in b.idIndex && id !in ids ==> SnapOf(OrderAt(b, id)) in out
      decreases |ids|
    {
      var id :| id in ids;
      SavedOne(b, id);
      var so := SnapOf(b.arena.slots[b.idIndex[id].slot].order);
      out := out + [so];
      ids := ids - {id};
    }
    s := Snap(b.symbol, b.tick, lastSeq, b.lastTrade, out);
    SavedLists(b, s);
  }

  lemma SavedOne(b: OrderBook, id: OrderId)
    requires b.Sound() && id in b.idIndex
    ensures b.idIndex[id].slot in b.arena.slots && b.arena.slots[b.idIndex[id].slot].order == OrderAt(b, id)
    ensures SnapOf(OrderAt(b, id)).id == id
  {
    hide ThreadsOf, NoEmptyLevel, Covered, StaleFree, KindCode;
  }

  lemma SavedLists(b: OrderBook, s: Snap)
    requires b.Sound() && s.symbol == b.symbol
    requires forall i :: 0 <= i < |s.restingOrders| ==>
      s.restingOrders[i].id in b.idIndex && s.restingOrders[i] == SnapOf(OrderAt(b, s.restingOrders[i].id))
    requires forall i, j :: 0 <= i < j < |s.restingOrders| ==> s.restingOrders[i].id != s.restingOrders[j].id
    requires forall id :: id in b.idIndex ==> SnapOf(OrderAt(b, id)) in s.restingOrders
    ensures Relists(OrdersOf(s), Retagged(AllOrders(b.View()), b.symbol))
  {
    hide ThreadsOf, NoEmptyLevel, Covered, StaleFree, IndexOk, AllOrders, KindCode, Restored, OrderAt;
    IndexLists(b);
    var es, os := OrdersOf(s), AllOrders(b.View());
    var rs := Retagged(os, b.symbol);
    forall i | 0 <= i < |es| ensures es[i] in rs && es[i].id == s.restingOrders[i].id {
      var o := OrderAt(b, s.restingOrders[i].id);
      RestoredSnap(o, s.symbol);
      var j :| 0 <= j < |os| && os[j] == o;
      assert rs[j] == es[i];
    }
    forall j | 0 <= j < |rs| ensures rs[j] in es {
      assert os[j] in os;
      var so := SnapOf(OrderAt(b, os[j].id));
      assert so in s.restingOrders;
      var i :| 0 <= i < |s.restingOrders| && s.restingOrders[i] == so;
      RestoredSnap(os[j], s.symbol);
      assert es[i] == rs[j];
    }
  }

  // ---------------------------------------------------------------- load

  /** Resting orders with distinct ids whose level totals fit in 64 bits. */
  ghost predicate Loadable(es: seq<Order>) {
    && Distinct(es)
    && (forall o :: o in es ==> o.kind.Limit? && 0 < o.remaining <= o.qty && o.price > 0)
    && forall s: Side, k :: SumAt(OnSide(es, s), k) <= U64_MAX
  }

  lemma {:induction false} PrefixSum(es: seq<Order>, i: nat, s: Side, k: int)
    requires i <= |es|
    ensures SumAt(OnSide(es[..i], s), k) <= SumAt(OnSide(es, s), k)
    decreases |es|
  {
    hide OnSide, SumAt;
    if i < |es| {
      var front := es[..|es| - 1];
      assert front[..i] == es[..i] && es == front + [es[|es| - 1]];
      PrefixSum(front, i, s, k);
      SideStep(front, es[|es| - 1], s);
      SumConcat(OnSide(front, s), if es[|es| - 1].side == s then [es[|es| - 1]] else [], k);
    } else {
      assert es[..i] == es;
    }
  }

  /** What the next order finds: its id is new and its level has room. */
  lemma LoadStep(es: seq<Order>, i: nat, last: Option<Price>)
    requires Loadable(es) && i < |es|
    ensures var o := es[i]; var b := Rebuilt(es[..i], last);
      && !HasId(b, o.id) && o.kind.Limit? && 0 < o.remaining <= o.qty && o.price > 0
      && SumAt(Resting(b, o.side), RankOf(o)) + o.remaining <= U64_MAX
      && Rebuilt(es[..i + 1], last) == WithResting(b, o.side, Insert(Resting(b, o.side), o))
  {
    hide OnSide, Stack, SumAt, Distinct, Insert;
    var o, front := es[i], es[..i];
    assert es[..i + 1] == front + [o];
    assert o in es;
    RebuiltStep(front, o, last);
    PrefixSum(es, i + 1, o.side, RankOf(o));
    SideStep(front, o, o.side);
    SumConcat(OnSide(front, o.side), [o], RankOf(o));
    SumAtSingle(o);
    PrefixDistinct(es, i);
    OnSideLists(front, Buy);
    OnSideLists(front, Sell);
    StackLists(OnSide(front, Buy));
    StackLists(OnSide(front, Sell));
    SumAtRelists(Stack(OnSide(front, o.side)), OnSide(front, o.side), RankOf(o));
    NotHasId(Stack(OnSide(front, Buy)), o.id);
    NotHasId(Stack(OnSide(front, Sell)), o.id);
  }

  lemma SumAtSingle(o: Order)
    ensures SumAt([o], RankOf(o)) == o.remaining
  {
    assert [o][1..] == [];
  }

  lemma PrefixDistinct(es: seq<Order>, i: nat)
    requires Distinct(es) && i < |es|
    ensures Distinct(es[..i]) && forall p :: p in es[..i] ==> p.id != es[i].id
  {
  }

  ghost predicate NoStops(es: seq<Order>) {
    forall o :: o in es ==> !IsStop(o.kind)
  }

  /** Every order of the list is indexed, side and limit price included, and in the arena. */
  ghost predicate Reached(slots: Slots, idx: map<OrderId, Location>, es: seq<Order>) {
    forall i :: 0 <= i < |es| ==>
      && es[i].id in idx && idx[es[i].id].price == es[i].price && idx[es[i].id].side == es[i].side
      && idx[es[i].id].slot in slots && slots[idx[es[i].id].slot].order == es[i]
  }

  /** What loading relies on whatever the list holds: a working arena, tails that are in it, and no stop map entries. */
  ghost predicate Loading(b: OrderBook)
    reads b
  {
    && SlabOk(b.arena) && TailsIn(b.arena.slots, b.bids) && TailsIn(b.arena.slots, b.asks)
    && b.stopBuys == map[] && b.stopSells == map[]
  }

  /**
    Load a book: every order goes into the arena, the index and the tail of the level of its limit price. A pending
    stop goes there too, and into no stop map: the book is valid exactly when the list holds no stop.
   */
  method LoadSnapshot(s: Snap) returns (b: OrderBook, lastSeq: nat)
    requires Distinct(OrdersOf(s)) && (NoStops(OrdersOf(s)) ==> Loadable(OrdersOf(s)))
    ensures fresh(b) && b.symbol == s.symbol && b.tick == s.tick && lastSeq == s.lastSeq
    ensures b.lastTrade == s.lastTrade && b.stopBuys == map[] && b.stopSells == map[]
    ensures Reached(b.arena.slots, b.idIndex, OrdersOf(s))
    ensures b.Valid() <==> NoStops(OrdersOf(s))
    ensures b.Valid() ==> b.View() == Rebuilt(OrdersOf(s), s.lastTrade)
  {
    hide Loadable, Stack, OnSide, Insert, Restored, ThreadsOf, Covered, IndexOk, NoEmptyLevel, SumAt, HasId, Rebuilt;
    hide Loading, Reached;
    b := new OrderBook(s.symbol, s.tick);
    b.lastTrade := s.lastTrade;
    NewLoads(b);
    ghost var es := OrdersOf(s);
    NoneRebuilt(s.lastTrade);
    var i := 0;
    assert es[..0] == [];
    while i < |s.restingOrders|
      invariant 0 <= i <= |s.restingOrders|
      invariant fresh(b) && b.symbol == s.symbol && b.tick == s.tick && b.lastTrade == s.lastTrade
      invariant Loading(b) && Reached(b.arena.slots, b.idIndex, es[..i])
      invariant NoStops(es) ==> Filed(b) && b.View() == Rebuilt(es[..i], s.lastTrade)
    {
      if NoStops(es) { LoadStep(es, i, s.lastTrade); }
      PrefixDistinct(es, i);
      LoadOne(b, Restored(s.restingOrders[i], s.symbol), es[..i], NoStops(es));
      assert es[..i + 1] == es[..i] + [es[i]];
      i := i + 1;
    }
    assert es[..i] == es;
    LoadedValid(b, es);
    lastSeq := s.lastSeq;
  }

  /** Load the next order. In an orderly list this is the insertion of the reference. */
  method LoadOne(b: OrderBook, o: Order, ghost front: seq<Order>, ghost orderly: bool)
    requires Loading(b) && Reached(b.arena.slots, b.idIndex, front) && forall p :: p in front ==> p.id != o.id
    requires orderly ==>
      && Filed(b) && !HasId(b.View(), o.id) && o.kind.Limit? && 0 < o.remaining <= o.qty && o.price > 0
      && SumAt(Resting(b.View(), o.side), RankOf(o)) + o.remaining <= U64_MAX
    modifies b`asks, b`bids, b`arena, b`qs, b`idIndex
    ensures Loading(b) && Reached(b.arena.slots, b.idIndex, front + [o])
    ensures orderly ==>
      && Filed(b) && b.View() == WithResting(old(b.View()), o.side, Insert(Resting(old(b.View()), o.side), o))
  {
    hide ThreadsOf, Covered, IndexOk, NoEmptyLevel, Insert, SumAt, Relinked, SlabOk, Reached, TailsIn, WireTail, Has;
    ghost var a0, qs0, idx0 := b.arena, b.qs, b.idIndex;
    ghost var p := if orderly then Pos(Resting(b.View(), o.side), RankOf(o)) else 0;
    var slot := b.arena.NextSlot();
    if orderly {
      FiledSound(b);
      Find(b, o.id);
      EnterFiles(a0, b.bids, b.asks, qs0, idx0, o);
    }
    ReachedStep(a0, b.bids, b.asks, idx0, front, o);
    b.arena := b.arena.Insert(Node(o, None, None));
    b.idIndex := b.idIndex[o.id := Location(o.price, o.side, slot)];
    b.InsertResting(slot, orderly);
    if orderly {
      RestFiles(a0.Insert(Node(o, None, None)), b.arena, qs0, b.qs, idx0, o, slot, p);
    }
  }

  lemma NewLoads(b: OrderBook)
    requires b.arena == Slab(map[], [], 0) && b.bids == map[] && b.asks == map[]
    requires b.stopBuys == map[] && b.stopSells == map[]
    ensures Loading(b) && Reached(b.arena.slots, b.idIndex, [])
  {
  }

  /** A new node is loose until it is wired. */
  lemma EnterFiles(a: Slab, bids: Levels, asks: Levels, qs: Queues, idx: map<OrderId, Location>, o: Order)
    requires ThreadsOf(a, bids, asks, map[], map[], qs) && Covered(a.slots, qs, {}) && IndexOk(a.slots, idx, {})
    ensures var x := a.NextSlot(); var b := a.Insert(Node(o, None, None));
      && ThreadsOf(b, bids, asks, map[], map[], qs) && Covered(b.slots, qs, {x}) && IndexOk(b.slots, idx, {x})
      && Loose(qs, x) && x in b.slots && b.slots[x].order == o
      && forall last :: ViewOf(b, qs, last) == ViewOf(a, qs, last)
  {
    hide Ladder, StopsOk, SlabOk;
    var b := a.Insert(Node(o, None, None));
    SlabInsert(a, Node(o, None, None));
    NewIsLoose(a, bids, asks, map[], map[], qs, a.NextSlot());
    LooseFrame(a, b, bids, asks, map[], map[], qs);
  }

  /** Wiring a new node, whatever its kind, reaches it and all the others. */
  lemma ReachedStep(
    a: Slab, bids: Levels, asks: Levels, idx: map<OrderId, Location>, front: seq<Order>, o: Order)
    requires SlabOk(a) && TailsIn(a.slots, bids) && TailsIn(a.slots, asks) && Reached(a.slots, idx, front)
    requires forall p :: p in front ==> p.id != o.id
    ensures var x := a.NextSlot(); var b := a.Insert(Node(o, None, None)); var k := Rank(o.side, o.price);
      var lv := if o.side.Buy? then bids else asks; var l := LevelAt(lv, k);
      && x in b.slots && b.slots[x].order == o && TailsIn(b.slots, lv) && (l.tail.Some? ==> l.tail.value in b.slots)
      && var slots := WireTail(b.slots, x, o, l.tail);
         && SlabOk(b.(slots := slots)) && TailsIn(slots, if o.side.Buy? then asks else bids)
         && TailsIn(slots, lv[k := l.PushBack(x, o.remaining)])
         && Reached(slots, idx[o.id := Location(o.price, o.side, x)], front + [o])
  {
    hide SlabOk, WireTail, Reached, Slab.Insert, TailsIn;
    var x, b, k := a.NextSlot(), a.Insert(Node(o, None, None)), Rank(o.side, o.price);
    var lv := if o.side.Buy? then bids else asks;
    SlabInsert(a, Node(o, None, None));
    TailsGrow(a.slots, b.slots, bids);
    TailsGrow(a.slots, b.slots, asks);
    TailKnown(b.slots, lv, k);
    WireKeeps(b, x, o, LevelAt(lv, k).tail);
    var slots := WireTail(b.slots, x, o, LevelAt(lv, k).tail);
    TailsGrow(b.slots, slots, bids);
    TailsGrow(b.slots, slots, asks);
    TailPushed(slots, lv, k, x, o.remaining);
    ReachedNext(a.slots, slots, idx, front, o, x);
  }

  lemma TailsGrow(a: Slots, b: Slots, lv: Levels)
    requires TailsIn(a, lv) && a.Keys <= b.Keys
    ensures TailsIn(b, lv)
  {
  }

  lemma TailKnown(slots: Slots, lv: Levels, k: int)
    requires TailsIn(slots, lv)
    ensures var l := LevelAt(lv, k); l.tail.Some? ==> l.tail.value in slots
  {
  }

  lemma TailPushed(slots: Slots, lv: Levels, k: int, x: Slot, qty: Qty)
    requires TailsIn(slots, lv) && x in slots
    ensures TailsIn(slots, lv[k := LevelAt(lv, k).PushBack(x, qty)])
  {
  }

  lemma WireKeeps(a: Slab, x: Slot, o: Order, tail: Option<Slot>)
    requires SlabOk(a) && x in a.slots && a.slots[x].order == o && (tail.Some? ==> tail.value in a.slots)
    ensures var slots := WireTail(a.slots, x, o, tail);
      SameOrders(a.slots, slots) && SlabOk(a.(slots := slots))
  {
    assert WireTail(a.slots, x, o, tail).Keys == a.slots.Keys;
  }

  lemma ReachedNext(a: Slots, b: Slots, idx: map<OrderId, Location>, front: seq<Order>, o: Order, x: Slot)
    requires Reached(a, idx, front) && forall p :: p in front ==> p.id != o.id
    requires x in b && b[x].order == o && forall y :: y in a ==> y in b && b[y].order == a[y].order
    ensures Reached(b, idx[o.id := Location(o.price, o.side, x)], front + [o])
  {
  }

  /** With no entry in the stop maps, a stop in the arena is in no queue. */
  lemma LoadedValid(b: OrderBook, es: seq<Order>)
    requires Loading(b) && Reached(b.arena.slots, b.idIndex, es) && (NoStops(es) ==> Filed(b))
    ensures b.stopBuys == map[] && b.stopSells == map[] && (b.Valid() <==> NoStops(es))
  {
    hide Ladder, SlabOk, NoEmptyLevel, IndexOk, StaleFree, TailsIn, StopsOk;
    if NoStops(es) {
      FiledSound(b);
    } else {
      var o :| o in es && IsStop(o.kind);
      var i :| 0 <= i < |es| && es[i] == o;
      if b.Valid() {
        NoEntries(b.arena.slots, b.qs.Stops(o.side), o.side);
        assert false;
      }
    }
  }

  lemma NoEntries(slots: Slots, q: seq<Slot>, s: Side)
    requires StopsOk(slots, map[], q, s)
    ensures q == []
  {
  }

  lemma NoneRebuilt(last: Option<Price>)
    ensures Rebuilt([], last) == EMPTY.(lastTrade := last)
  {
  }

  lemma FiledSound(b: OrderBook)
    requires Filed(b) && b.stopBuys == map[] && b.stopSells == map[]
    ensures b.Valid()
  {
    hide ThreadsOf, Covered, IndexOk, NoEmptyLevel;
  }

  // ---------------------------------------------------------------- save and load

  lemma SavedLoadable(b: OrderBook, es: seq<Order>)
    requires b.Valid() && NoCross(b.View()) && Pending(b.View()) == 0 && Relists(es, AllOrders(b.View()))
    ensures Enumerates(es, b.View()) && Loadable(es) && Inv(b.View())
  {
    hide ThreadsOf, Covered, IndexOk, NoEmptyLevel, StaleFree, AllPending, Distinct, Sorted, OnSide, SumAt;
    var v := b.View();
    SoundWF(b);
    assert AllOrders(v) == v.bids + v.asks;
    forall o | o in es ensures o.kind.Limit? && 0 < o.remaining <= o.qty && o.price > 0 {
      assert o in v.bids || o in v.asks;
    }
    forall s: Side, k ensures SumAt(OnSide(es, s), k) <= U64_MAX {
      SideRelists(es, v, s);
      SumAtRelists(OnSide(es, s), Resting(v, s), k);
      LevelFits(b, s, k);
    }
  }

  /** The cached totals are 64-bit numbers, so the levels of a book always fit. */
  lemma LevelFits(b: OrderBook, s: Side, k: int)
    requires b.Threads()
    ensures SumAt(Resting(b.View(), s), k) <= U64_MAX
  {
    hide ThreadsOf, SumAt;
    LevelsKnown(b, s);
    if k !in b.LevelsOf(s) {
      SumAtAbsent(Resting(b.View(), s), k);
    }
  }

  /** A saved list holds a stop exactly when the book does; without stops it can be loaded in order. */
  lemma SavedStops(b: OrderBook, es: seq<Order>)
    requires b.Valid() && NoCross(b.View()) && Relists(es, AllOrders(b.View()))
    ensures Distinct(es) && (NoStops(es) <==> Pending(b.View()) == 0)
    ensures NoStops(es) ==> Enumerates(es, b.View()) && Loadable(es) && Inv(b.View())
  {
    hide ThreadsOf, Covered, IndexOk, NoEmptyLevel, StaleFree, AllPending, Sorted, Distinct, Enumerates, Loadable;
    hide ViewOf;
    var v := b.View();
    SoundWF(b);
    if Pending(v) == 0 {
      SavedLoadable(b, es);
      LimitsOnly(es);
    } else {
      var o := (v.buyStops + v.sellStops)[0];
      assert o in v.buyStops || o in v.sellStops;
      assert o in es && IsStop(o.kind);
    }
  }

  lemma LimitsOnly(es: seq<Order>)
    requires Loadable(es)
    ensures NoStops(es) && Distinct(es)
  {
  }

  /**
    A book saved and loaded is valid exactly when no stop was pending. It then is well formed, with the same orders,
    level totals, best prices and depth, and it is the same book exactly when the saved list keeps every price level
    in time order.
   */
  method Reload(b: OrderBook, lastSeq: nat) returns (c: OrderBook, s: Snap)
    requires b.Valid() && NoCross(b.View()) && OneSymbol(AllOrders(b.View()), b.symbol)
    ensures c.symbol == b.symbol && c.tick == b.tick && s.lastSeq == lastSeq && c.lastTrade == b.lastTrade
    ensures c.stopBuys == map[] && c.stopSells == map[] && (c.Valid() <==> Pending(b.View()) == 0)
    ensures c.Valid() ==>
      && Inv(c.View())
      && (forall t: Side :: Relists(Resting(c.View(), t), Resting(b.View(), t)))
      && (forall t: Side, k :: SumAt(Resting(c.View(), t), k) == SumAt(Resting(b.View(), t), k))
      && (forall t: Side, n: nat :: DepthOf(Resting(c.View(), t), n) == DepthOf(Resting(b.View(), t), n))
      && (c.View() == b.View() <==> KeepsTime(OrdersOf(s), b.View()))
  {
    hide ThreadsOf, Covered, IndexOk, NoEmptyLevel, StaleFree, AllPending, Relists, Loadable, Stack, OnSide, Inv,
      KeepsTime, AllOrders, Pending;
    hide OneSymbol, Retagged, OrdersOf;
    s := SaveSnapshot(b, lastSeq);
    RetagSame(AllOrders(b.View()), b.symbol);
    SavedStops(b, OrdersOf(s));
    if Pending(b.View()) == 0 {
      RebuiltSame(OrdersOf(s), b.View(), b.lastTrade);
      RebuiltExactly(OrdersOf(s), b.View());
    }
    var last;
    c, last := LoadSnapshot(s);
  }
}
