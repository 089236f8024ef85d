/**
  The order book as it is laid out in memory: an arena of linked nodes, one ordered map of price
  levels per side, an index by order id and the maps of waiting stops. Ghost queues hold the slots of each
  side in price-time order; View reads the reference book off them.
 */
module BookState {
  import opened Types
  import opened PriceTime
  import opened Spec
  import opened Invariants
  import opened Levels
  import SM = StopMap

  datatype Location = Location(price: Price, side: Side, slot: Slot)

  /** Where a live order is filed. */
  function LocationOf(o: Order, slot: Slot): Location {
    Location(if IsStop(o.kind) then o.stopPrice else o.price, o.side, slot)
  }

  /** An arena that hands out the slot freed last, or a new one at the end. */
  datatype Slab = Slab(slots: Slots, vacant: seq<Slot>, entries: nat) {
    function NextSlot(): Slot {
      if vacant == [] then entries else vacant[0]
    }

    function Insert(node: Node): Slab {
      if vacant == [] then Slab(slots[entries := node], [], entries + 1)
      else Slab(slots[vacant[0] := node], vacant[1..], entries)
    }

    function Remove(slot: Slot): Slab {
      Slab(slots - {slot}, [slot] + vacant, entries)
    }

    function Set(slot: Slot, node: Node): Slab {
      Slab(slots[slot := node], vacant, entries)
    }
  }

  ghost predicate SlabOk(a: Slab) {
    && (forall x :: x in a.slots ==> x < a.entries)
    && (forall i :: 0 <= i < |a.vacant| ==> a.vacant[i] < a.entries && a.vacant[i] !in a.slots)
    && (forall i, j :: 0 <= i < j < |a.vacant| ==> a.vacant[i] != a.vacant[j])
  }

  lemma SlabInsert(a: Slab, node: Node)
    requires SlabOk(a)
    ensures a.NextSlot() !in a.slots && SlabOk(a.Insert(node)) && a.Insert(node).slots == a.slots[a.NextSlot() := node]
  {
  }

  lemma SlabRemove(a: Slab, slot: Slot)
    requires SlabOk(a) && slot in a.slots
    ensures SlabOk(a.Remove(slot))
  {
  }

  // ---------------------------------------------------------------- invariants of the parts

  ghost predicate SameOrders(a: Slots, b: Slots) {
    a.Keys == b.Keys && forall x :: x in a ==> b[x].order == a[x].order
  }

  /** The live entries of a stop map, in key order, are the queue q of pending stops. */
  ghost predicate StopsOk(slots: Slots, m: SM.Waiting, q: seq<Slot>, s: Side): (b: bool)
    ensures b ==> InArena(slots, q)
  {
    && InArena(slots, q) && StopsWF(Orders(slots, q), s)
    && (forall i :: 0 <= i < |q| ==> slots[q[i]] == Node(slots[q[i]].order, None, None))
    && SM.Keep(SM.Flatten(m), q) == q
    && (forall k, x :: k in m && x in m[k] && x in q ==> RankOf(slots[x].order) == k)
  }

  /** Every entry of a stop map is a pending stop. */
  ghost predicate AllPending(m: SM.Waiting, q: seq<Slot>) {
    forall k, x :: k in m && x in m[k] ==> x in q
  }

  /** An entry that is no pending stop points at a free slot. */
  ghost predicate StaleFree(slots: Slots, m: SM.Waiting, q: seq<Slot>) {
    forall k, x :: k in m && x in m[k] && x !in q ==> x !in slots
  }

  /** The index and the arena agree, apart from the slots in out. */
  ghost predicate IndexOk(slots: Slots, idx: map<OrderId, Location>, out: set<Slot>) {
    && (forall id :: id in idx ==>
          var x := idx[id].slot;
          x in slots && x !in out && slots[x].order.id == id && idx[id] == LocationOf(slots[x].order, x))
    && (forall x :: x in slots && x !in out ==> slots[x].order.id in idx && idx[slots[x].order.id].slot == x)
  }

  datatype Queues = Queues(bids: seq<Slot>, asks: seq<Slot>, buyStops: seq<Slot>, sellStops: seq<Slot>) {
    function Resting(s: Side): seq<Slot> {
      if s.Buy? then bids else asks
    }

    function Stops(s: Side): seq<Slot> {
      if s.Buy? then buyStops else sellStops
    }

    function WithResting(s: Side, q: seq<Slot>): Queues {
      if s.Buy? then this.(bids := q) else this.(asks := q)
    }

    function WithStops(s: Side, q: seq<Slot>): Queues {
      if s.Buy? then this.(buyStops := q) else this.(sellStops := q)
    }

    /** The queue an order belongs to. */
    function HomeOf(o: Order): seq<Slot> {
      if IsStop(o.kind) then Stops(o.side) else Resting(o.side)
    }
  }

  /** Every slot but the loose ones is in the queue its order belongs to, and the loose ones are in none. */
  ghost predicate Covered(slots: Slots, qs: Queues, loose: set<Slot>) {
    && (forall x :: x in slots && x !in loose ==> x in qs.HomeOf(slots[x].order))
    && (forall x :: x in loose ==>
       x in slots && x !in qs.bids && x !in qs.asks && x !in qs.buyStops && x !in qs.sellStops)
  }

  lemma StopsFrame(slots: Slots, slots': Slots, m: SM.Waiting, q: seq<Slot>, s: Side)
    requires StopsOk(slots, m, q, s)
    requires forall i :: 0 <= i < |q| ==> q[i] in slots' && slots'[q[i]] == slots[q[i]]
    ensures StopsOk(slots', m, q, s) && Orders(slots', q) == Orders(slots, q)
  {
    hide StopsWF;
    OrdersFrame(slots, slots', q);
  }

  lemma InSlots(slots: Slots, q: seq<Slot>, x: Slot)
    requires InArena(slots, q) && x in q
    ensures x in slots && exists i :: 0 <= i < |q| && q[i] == x && Orders(slots, q)[i] == slots[x].order
  {
    var i :| 0 <= i < |q| && q[i] == x;
    assert Orders(slots, q)[i] == slots[x].order;
  }

  /** An id that is not indexed names no order of a queue. */
  lemma NotIndexed(slots: Slots, idx: map<OrderId, Location>, out: set<Slot>, q: seq<Slot>, id: OrderId)
    requires IndexOk(slots, idx, out) && InArena(slots, q) && (forall x :: x in q ==> x !in out)
    ensures Has(Orders(slots, q), id) ==> id in idx && idx[id].slot in q
  {
    var i := IndexOf(Orders(slots, q), id);
    if i < |q| {
      assert q[i] in q;
    }
  }

  lemma IndexedHas(slots: Slots, q: seq<Slot>, x: Slot)
    requires InArena(slots, q) && x in q
    ensures Has(Orders(slots, q), slots[x].order.id)
  {
    var i :| 0 <= i < |q| && q[i] == x;
    assert Orders(slots, q)[i].id == slots[x].order.id;
  }

  /** Only links have changed, and only in nodes of q. */
  ghost predicate Relinked(a: Slab, b: Slab, q: seq<Slot>) {
    && SameOrders(a.slots, b.slots) && b.vacant == a.vacant && b.entries == a.entries
    && forall x :: x in a.slots && x !in q ==> b.slots[x] == a.slots[x]
  }

  ghost predicate Disjoint(p: seq<Slot>, q: seq<Slot>) {
    forall x :: x in p ==> x !in q
  }

  lemma SidesApart(slots: Slots, lv: Levels, q: seq<Slot>, s: Side, lv2: Levels, q2: seq<Slot>)
    requires Ladder(slots, lv, q, s) && Ladder(slots, lv2, q2, s.Opposite())
    ensures Disjoint(q2, q)
  {
    hide Sorted, Distinct, Linked, Ended, Totalled;
    forall x | x in q2 ensures x !in q {
      InSlots(slots, q2, x);
      if x in q { InSlots(slots, q, x); }
    }
  }

  lemma StopsApart(slots: Slots, lv: Levels, q: seq<Slot>, s: Side, m: SM.Waiting, sq: seq<Slot>, t: Side)
    requires Ladder(slots, lv, q, s) && StopsOk(slots, m, sq, t)
    ensures Disjoint(sq, q)
  {
    hide Sorted, Distinct, Linked, Ended, Totalled, SM.Keep, SM.Flatten;
    forall x | x in sq ensures x !in q {
      InSlots(slots, sq, x);
      if x in q { InSlots(slots, q, x); }
    }
  }

  /** All four queues are in order. */
  ghost predicate ThreadsOf(
    a: Slab, bids: Levels, asks: Levels, buys: SM.Waiting, sells: SM.Waiting, qs: Queues): (b: bool)
    ensures b ==> InArena(a.slots, qs.bids) && InArena(a.slots, qs.asks)
    ensures b ==> InArena(a.slots, qs.buyStops) && InArena(a.slots, qs.sellStops)
  {
    && SlabOk(a)
    && Ladder(a.slots, bids, qs.bids, Buy) && Ladder(a.slots, asks, qs.asks, Sell)
    && StopsOk(a.slots, buys, qs.buyStops, Buy) && StopsOk(a.slots, sells, qs.sellStops, Sell)
  }

  ghost function ViewOf(a: Slab, qs: Queues, last: Option<Price>): Book
    requires InArena(a.slots, qs.bids) && InArena(a.slots, qs.asks) && InArena(a.slots, qs.buyStops)
      && InArena(a.slots, qs.sellStops)
  {
    Book(Orders(a.slots, qs.bids), Orders(a.slots, qs.asks), Orders(a.slots, qs.buyStops),
      Orders(a.slots, qs.sellStops), last)
  }

  /** Relinking one side, up to slots of no other queue, leaves the other side and the stops alone. */
  lemma RelinkFrame(a: Slab, b: Slab, touched: seq<Slot>, s: Side, bids: Levels, asks: Levels,
                    buys: SM.Waiting, sells: SM.Waiting, qs: Queues)
    requires ThreadsOf(a, bids, asks, buys, sells, qs) && Relinked(a, b, touched)
    requires Disjoint(qs.Resting(s.Opposite()), touched) && Disjoint(qs.buyStops, touched)
      && Disjoint(qs.sellStops, touched)
    ensures SlabOk(b)
    ensures var q := qs.Resting(s.Opposite());
      Ladder(b.slots, if s.Buy? then asks else bids, q, s.Opposite()) && Orders(b.slots, q) == Orders(a.slots, q)
    ensures StopsOk(b.slots, buys, qs.buyStops, Buy) && Orders(b.slots, qs.buyStops) == Orders(a.slots, qs.buyStops)
    ensures StopsOk(b.slots, sells, qs.sellStops, Sell)
      && Orders(b.slots, qs.sellStops) == Orders(a.slots, qs.sellStops)
  {
    hide Ladder, StopsOk;
    LadderFrame(a.slots, b.slots, if s.Buy? then asks else bids, qs.Resting(s.Opposite()), s.Opposite());
    StopsFrame(a.slots, b.slots, buys, qs.buyStops, Buy);
    StopsFrame(a.slots, b.slots, sells, qs.sellStops, Sell);
  }

  lemma AllApart(a: Slab, bids: Levels, asks: Levels, buys: SM.Waiting, sells: SM.Waiting, qs: Queues, s: Side)
    requires ThreadsOf(a, bids, asks, buys, sells, qs)
    ensures var q := qs.Resting(s);
      Disjoint(qs.Resting(s.Opposite()), q) && Disjoint(qs.buyStops, q) && Disjoint(qs.sellStops, q)
  {
    hide Ladder, StopsOk, Disjoint;
    if s.Buy? {
      SidesApart(a.slots, bids, qs.bids, Buy, asks, qs.asks);
      StopsApart(a.slots, bids, qs.bids, Buy, buys, qs.buyStops, Buy);
      StopsApart(a.slots, bids, qs.bids, Buy, sells, qs.sellStops, Sell);
    } else {
      SidesApart(a.slots, asks, qs.asks, Sell, bids, qs.bids);
      StopsApart(a.slots, asks, qs.asks, Sell, buys, qs.buyStops, Buy);
      StopsApart(a.slots, asks, qs.asks, Sell, sells, qs.sellStops, Sell);
    }
  }

  /** One side has been rewritten, at the nodes of touched, into levels lv and queue q; all else stands. */
  lemma Rewrite(a: Slab, b: Slab, touched: seq<Slot>, s: Side, bids: Levels, asks: Levels,
                buys: SM.Waiting, sells: SM.Waiting, qs: Queues, lv: Levels, q: seq<Slot>)
    requires ThreadsOf(a, bids, asks, buys, sells, qs) && Relinked(a, b, touched) && Ladder(b.slots, lv, q, s)
    requires forall x :: x in touched ==> x in qs.Resting(s) || Loose(qs, x)
    ensures ThreadsOf(b, if s.Buy? then lv else bids, if s.Buy? then asks else lv, buys, sells, qs.WithResting(s, q))
    ensures forall last ::
      ViewOf(b, qs.WithResting(s, q), last) == WithResting(ViewOf(a, qs, last), s, Orders(b.slots, q))
  {
    hide Ladder, StopsOk, SlabOk, Relinked;
    AllApart(a, bids, asks, buys, sells, qs, s);
    RelinkFrame(a, b, touched, s, bids, asks, buys, sells, qs);
  }

  ghost predicate Loose(qs: Queues, x: Slot) {
    x !in qs.bids && x !in qs.asks && x !in qs.buyStops && x !in qs.sellStops
  }

  /** Nodes in no queue can change, come and go. */
  lemma LooseFrame(a: Slab, b: Slab, bids: Levels, asks: Levels, buys: SM.Waiting, sells: SM.Waiting, qs: Queues)
    requires ThreadsOf(a, bids, asks, buys, sells, qs) && SlabOk(b)
    requires forall x :: x in a.slots && !Loose(qs, x) ==> x in b.slots && b.slots[x] == a.slots[x]
    ensures ThreadsOf(b, bids, asks, buys, sells, qs)
    ensures forall last :: ViewOf(b, qs, last) == ViewOf(a, qs, last)
  {
    hide Ladder, StopsOk, SlabOk;
    LadderFrame(a.slots, b.slots, bids, qs.bids, Buy);
    LadderFrame(a.slots, b.slots, asks, qs.asks, Sell);
    StopsFrame(a.slots, b.slots, buys, qs.buyStops, Buy);
    StopsFrame(a.slots, b.slots, sells, qs.sellStops, Sell);
  }

  // ---------------------------------------------------------------- the book

  class OrderBook {
    const symbol: SymbolId
    const tick: Price
    /** Keyed by rank: the price for asks, the reversed price for bids. */
    var asks: Levels
    var bids: Levels
    var idIndex: map<OrderId, Location>
    var arena: Slab
    /** Keyed by trigger rank: the stop price for buys, the reversed stop price for sells. */
    var stopBuys: SM.Waiting
    var stopSells: SM.Waiting
    var lastTrade: Option<Price>
    ghost var qs: Queues

    function LevelsOf(s: Side): Levels
      reads this
    {
      if s.Buy? then bids else asks
    }

    function StopsOf(s: Side): SM.Waiting
      reads this
    {
      if s.Buy? then stopBuys else stopSells
    }

    /** Both sides and both stop maps are in order, except that a level may be left empty in passing. */
    ghost predicate Threads()
      reads this
    {
      ThreadsOf(arena, bids, asks, stopBuys, stopSells, qs)
    }

    ghost predicate NoEmpty()
      reads this
    {
      NoEmptyLevel(bids) && NoEmptyLevel(asks)
    }

    /** The state between two steps of a cascade. */
    ghost predicate Sound()
      reads this
    {
      && Threads() && NoEmpty() && Covered(arena.slots, qs, {}) && IndexOk(arena.slots, idIndex, {})
      && StaleFree(arena.slots, stopBuys, qs.buyStops) && StaleFree(arena.slots, stopSells, qs.sellStops)
    }

    ghost predicate NoStale()
      reads this
    {
      AllPending(stopBuys, qs.buyStops) && AllPending(stopSells, qs.sellStops)
    }

    /** The state between two commands. */
    ghost predicate Valid()
      reads this
    {
      Sound() && NoStale()
    }

    /** The reference book this book stands for. */
    ghost function View(): Book
      requires Threads()
      reads this
    {
      ViewOf(arena, qs, lastTrade)
    }

    constructor (symbol: SymbolId, tick: Price)
      ensures Valid() && View() == EMPTY && this.symbol == symbol && this.tick == tick
      ensures stopBuys == map[] && stopSells == map[] && bids == map[] && asks == map[] && arena == Slab(map[], [], 0)
    {
      hide *;
      this.symbol, this.tick := symbol, tick;
      asks, bids, idIndex, stopBuys, stopSells := map[], map[], map[], map[], map[];
      arena := Slab(map[], [], 0);
      lastTrade := None;
      qs := Queues([], [], [], []);
      new;
      EmptyValid(this);
    }

    /**
      Take the head off level k of side s. The level stays, even when this empties it. i is the place of the
      head in the queue: the first order of its rank.
     */
    method PopHead(s: Side, k: int) returns (slot: Option<Slot>, ghost i: nat)
      requires Threads()
      modifies `asks, `bids, `arena, `qs
      ensures Threads()
      ensures slot == LevelAt(old(LevelsOf(s)), k).head
      ensures slot.None? ==> asks == old(asks) && bids == old(bids) && arena == old(arena) && qs == old(qs)
      ensures slot.Some? ==>
        var q := old(qs.Resting(s));
        var os := old(Orders(arena.slots, qs.Resting(s)));
        && i < |q| && q[i] == slot.value && RankOf(os[i]) == k && !Joined(os, i - 1)
        && qs == old(qs).WithResting(s, Cut(q, i))
        && View() == WithResting(old(View()), s, Cut(os, i))
        && Relinked(old(arena), arena, q)
        && LevelsOf(s.Opposite()) == old(LevelsOf(s.Opposite()))
        && LevelsOf(s).Keys == old(LevelsOf(s)).Keys
        && (forall j :: j in LevelsOf(s) && j != k ==> LevelsOf(s)[j] == old(LevelsOf(s))[j])
        && LevelsOf(s)[k].totalQty + os[i].remaining == old(LevelsOf(s))[k].totalQty
        && (LevelsOf(s)[k].head.None? <==> LevelsOf(s)[k].totalQty == 0)
    {
      hide Ladder, StopsOk, SlabOk, LinkAt, InArena, SameOrders, Relinked, RankOf, NoEmptyLevel, Has, SumAt, Wrap;
      slot, i := None, 0;
      var lv := LevelsOf(s);
      if k !in lv || lv[k].head.None? {
        return;
      }
      ghost var q := qs.Resting(s);
      ghost var before := arena;
      i := HeadIndex(arena.slots, lv, q, s, k);
      slot := lv[k].head;
      var node := arena.slots[slot.value];
      var level := lv[k].PopFront(node.order.remaining);
      level := level.(head := node.next, tail := if node.next.None? then None else level.tail);
      var lv' := lv[k := level];
      Unlink(arena.slots, lv, lv', q, s, i);
      if node.next.Some? {
        arena := arena.Set(node.next.value, arena.slots[node.next.value].(prev := None));
      }
      assert arena.slots == Stitch(before.slots, node.prev, node.next);
      StitchRelinks(before, arena, q, i);
      Rewrite(before, arena, q, s, bids, asks, stopBuys, stopSells, qs, lv', Cut(q, i));
      qs := qs.WithResting(s, Cut(q, i));
      if s.Buy? {
        bids := lv';
      } else {
        asks := lv';
      }
    }

    /** Drop level k of side s if it is empty. */
    method RemoveEmpty(s: Side, k: int)
      requires Threads()
      modifies `asks, `bids
      ensures Threads()
      ensures LevelsOf(s.Opposite()) == old(LevelsOf(s.Opposite()))
      ensures LevelsOf(s) ==
        if LevelAt(old(LevelsOf(s)), k).head.None? then old(LevelsOf(s)) - {k} else old(LevelsOf(s))
    {
      hide Ladder, StopsOk, SlabOk;
      var lv := LevelsOf(s);
      if k in lv && lv[k].IsEmpty() {
        DropEmpty(arena.slots, lv, qs.Resting(s), s, k);
        if s.Buy? {
          bids := bids - {k};
        } else {
          asks := asks - {k};
        }
      }
    }

    /** Put a loose order, at least as good as all of its side, back at the head of its level. */
    method ReinsertAtHead(slot: Slot, k: int, s: Side)
      requires Threads() && slot in arena.slots && Loose(qs, slot)
      requires var o := arena.slots[slot].order;
        && o.side == s && o.kind.Limit? && 0 < o.remaining <= o.qty && o.price > 0 && RankOf(o) == k
        && !Has(Resting(View(), s), o.id) && (Resting(View(), s) != [] ==> k <= RankOf(Resting(View(), s)[0]))
      requires var l := LevelAt(LevelsOf(s), k);
        l.totalQty + arena.slots[slot].order.remaining <= U64_MAX && (l.head.None? ==> l.totalQty == 0)
      modifies `asks, `bids, `arena, `qs
      ensures Threads()
      ensures qs == old(qs).WithResting(s, [slot] + old(qs.Resting(s)))
      ensures View() == WithResting(old(View()), s, [old(arena.slots[slot].order)] + Resting(old(View()), s))
      ensures Relinked(old(arena), arena, [slot] + old(qs.Resting(s)))
      ensures LevelsOf(s.Opposite()) == old(LevelsOf(s.Opposite()))
      ensures k in LevelsOf(s) && LevelsOf(s)[k].head.Some?
      ensures LevelsOf(s).Keys == old(LevelsOf(s)).Keys + {k}
      ensures forall j :: j in LevelsOf(s) && j != k ==> LevelsOf(s)[j] == old(LevelsOf(s))[j]
    {
      hide ThreadsOf, Relinked, RankOf, Has, Wrap;
      ghost var q, before := qs.Resting(s), arena;
      var lv := LevelsOf(s);
      var o := arena.slots[slot].order;
      var level := LevelAt(lv, k);
      var oldHead := level.head;
      PrependHead(arena, bids, asks, stopBuys, stopSells, qs, slot);
      level := PriceLevel(Some(slot), if level.tail.None? then Some(slot) else level.tail,
                          WrapAdd(level.totalQty, o.remaining), level.count + 1);
      arena := arena.Set(slot, Node(o, oldHead, None));
      if oldHead.Some? {
        arena := arena.Set(oldHead.value, arena.slots[oldHead.value].(prev := Some(slot)));
      }
      assert arena.slots == WireHead(before.slots, slot, o, oldHead);
      qs := qs.WithResting(s, [slot] + q);
      if s.Buy? {
        bids := bids[k := level];
      } else {
        asks := asks[k := level];
      }
    }

    /**
      Append a loose order to the tail of its level. For a sound book and a limit order (orderly) this is the insertion
      of the reference; in any case node and level are wired as stated.
     */
    method InsertResting(slot: Slot, ghost orderly: bool)
      requires slot in arena.slots
      requires var o := arena.slots[slot].order;
        if orderly then
          && Threads() && NoEmpty() && Loose(qs, slot)
          && o.kind.Limit? && 0 < o.remaining <= o.qty && o.price > 0 && !Has(Resting(View(), o.side), o.id)
          && SumAt(Resting(View(), o.side), RankOf(o)) + o.remaining <= U64_MAX
        else
          TailsIn(arena.slots, LevelsOf(o.side))
      modifies `asks, `bids, `arena, `qs
      ensures var o := old(arena.slots[slot].order);
        var lv, k := old(LevelsOf(o.side)), Rank(o.side, o.price);
        var tail := LevelAt(lv, k).tail;
        && LevelsOf(o.side) == lv[k := LevelAt(lv, k).PushBack(slot, o.remaining)]
        && LevelsOf(o.side.Opposite()) == old(LevelsOf(o.side.Opposite()))
        && (tail.Some? ==> tail.value in old(arena.slots))
        && arena == old(arena).(slots := WireTail(old(arena.slots), slot, o, tail))
      ensures orderly ==>
        var o := old(arena.slots[slot].order);
        var q := old(qs.Resting(o.side));
        && Threads() && NoEmpty()
        && View() == WithResting(old(View()), o.side, Insert(Resting(old(View()), o.side), o))
        && qs == old(qs).WithResting(o.side, Put(q, Pos(Resting(old(View()), o.side), RankOf(o)), slot))
        && Relinked(old(arena), arena, [slot] + q)
    {
      hide ThreadsOf, Relinked, RankOf, NoEmptyLevel, Has, SumAt, Wrap, Insert, Pos;
      var o := arena.slots[slot].order;
      var s, k := o.side, Rank(o.side, o.price);
      ghost var q, before := qs.Resting(s), arena;
      ghost var p := if orderly then Pos(Resting(View(), s), k) else 0;
      var lv := LevelsOf(s);
      var level := LevelAt(lv, k);
      var oldTail := level.tail;
      if orderly {
        LimitRank(o);
        AppendTail(arena, bids, asks, stopBuys, stopSells, qs, slot);
      }
      level := level.PushBack(slot, o.remaining);
      arena := arena.Set(slot, Node(o, None, oldTail));
      if oldTail.Some? {
        arena := arena.Set(oldTail.value, arena.slots[oldTail.value].(next := Some(slot)));
      }
      assert arena.slots == WireTail(before.slots, slot, o, oldTail);
      if orderly {
        qs := qs.WithResting(s, Put(q, p, slot));
      }
      if s.Buy? {
        bids := bids[k := level];
      } else {
        asks := asks[k := level];
      }
    }

    /**
      Unlink a slot from level k of side s and take qty off the level. i is the place of a resting order in its
      queue; without it the slot is linked to nothing, as a pending stop is, and only level k moves.
     */
    method RemoveSlot(slot: Slot, s: Side, k: int, qty: Qty, ghost i: Option<nat>)
      requires Threads() && NoEmpty() && slot in arena.slots
      requires match i
        case Some(j) =>
          && j < |qs.Resting(s)| && qs.Resting(s)[j] == slot
          && RankOf(arena.slots[slot].order) == k && arena.slots[slot].order.remaining == qty
        case None =>
          && arena.slots[slot].prev.None? && arena.slots[slot].next.None?
          && arena.slots[slot].order.remaining == qty
      modifies `asks, `bids, `arena, `qs
      ensures LevelsOf(s.Opposite()) == old(LevelsOf(s.Opposite()))
      ensures LevelsOf(s) == Struck(old(LevelsOf(s)), k, slot, old(arena.slots[slot]))
      ensures i.None? ==> arena == old(arena) && qs == old(qs)
      ensures i.Some? ==>
        && Threads() && NoEmpty()
        && qs == old(qs).WithResting(s, Cut(old(qs.Resting(s)), i.value))
        && View() == WithResting(old(View()), s, Cut(Resting(old(View()), s), i.value))
        && Relinked(old(arena), arena, old(qs.Resting(s)))
    {
      hide ThreadsOf, LinkAt, Relinked, RankOf, NoEmptyLevel, Cut;
      ghost var q, before := qs.Resting(s), arena;
      var lv := LevelsOf(s);
      var prev, next := arena.slots[slot].prev, arena.slots[slot].next;
      if i.Some? {
        StrikeSlot(before, bids, asks, stopBuys, stopSells, qs, s, i.value);
      }
      if prev.Some? {
        arena := arena.Set(prev.value, arena.slots[prev.value].(next := next));
      }
      if next.Some? {
        arena := arena.Set(next.value, arena.slots[next.value].(prev := prev));
      }
      if k in lv {
        var level := lv[k];
        level := level.(head := if level.head == Some(slot) then next else level.head);
        level := level.(tail := if level.tail == Some(slot) then prev else level.tail);
        level := level.Remove(qty);
        lv := if level.IsEmpty() then lv - {k} else lv[k := level];
      }
      assert lv == Struck(old(LevelsOf(s)), k, slot, before.slots[slot]);
      if i.Some? {
        qs := qs.WithResting(s, Cut(q, i.value));
      }
      if s.Buy? {
        bids := lv;
      } else {
        asks := lv;
      }
    }
  }

  lemma EmptyValid(b: OrderBook)
    requires b.arena == Slab(map[], [], 0) && b.bids == map[] && b.asks == map[] && b.idIndex == map[]
    requires b.stopBuys == map[] && b.stopSells == map[] && b.qs == Queues([], [], [], []) && b.lastTrade == None
    ensures b.Valid() && b.View() == EMPTY
  {
    EmptyThreads();
  }

  lemma EmptyThreads()
    ensures ThreadsOf(Slab(map[], [], 0), map[], map[], map[], map[], Queues([], [], [], []))
    ensures ViewOf(Slab(map[], [], 0), Queues([], [], [], []), None) == EMPTY
  {
  }

  /** The tails of the levels are in the arena. */
  ghost predicate TailsIn(slots: Slots, lv: Levels) {
    forall k :: k in lv && lv[k].tail.Some? ==> lv[k].tail.value in slots
  }

  lemma LimitRank(o: Order)
    ensures o.kind.Limit? ==> RankOf(o) == Rank(o.side, o.price)
  {
  }

  /** The levels once slot is taken off level k, if there is such a level. */
  function Struck(lv: Levels, k: int, slot: Slot, node: Node): Levels {
    if k in lv then Shortened(lv, k, slot, node) else lv
  }

  /** Level k without slot. */
  function Shortened(lv: Levels, k: int, slot: Slot, node: Node): Levels
    requires k in lv
  {
    var level := PriceLevel(
      if lv[k].head == Some(slot) then node.next else lv[k].head,
      if lv[k].tail == Some(slot) then node.prev else lv[k].tail,
      lv[k].totalQty, lv[k].count).Remove(node.order.remaining);
    if level.IsEmpty() then lv - {k} else lv[k := level]
  }

  lemma UnlinkSlot(a: Slab, lv: Levels, q: seq<Slot>, s: Side, i: nat)
    requires i < |q| && Ladder(a.slots, lv, q, s) && NoEmptyLevel(lv)
    ensures var node := a.slots[q[i]]; var k := RankOf(node.order);
      && (node.prev.Some? ==> node.prev.value in a.slots) && (node.next.Some? ==> node.next.value in a.slots)
      && (node.prev.Some? && node.next.Some? ==> node.prev != node.next)
      && k in lv
      && var b := a.(slots := Stitch(a.slots, node.prev, node.next)); var lv' := Shortened(lv, k, q[i], node);
      && Relinked(a, b, q) && Ladder(b.slots, lv', Cut(q, i), s) && NoEmptyLevel(lv')
      && Orders(b.slots, Cut(q, i)) == Cut(Orders(a.slots, q), i)
  {
    hide Ladder, LinkAt;
    SlotLinks(a.slots, lv, q, s, i);
    var node := a.slots[q[i]];
    var k := RankOf(node.order);
    var b := a.(slots := Stitch(a.slots, node.prev, node.next));
    StitchRelinks(a, b, q, i);
    var level := PriceLevel(
      if lv[k].head == Some(q[i]) then node.next else lv[k].head,
      if lv[k].tail == Some(q[i]) then node.prev else lv[k].tail,
      lv[k].totalQty, lv[k].count).Remove(node.order.remaining);
    Unlink(a.slots, lv, lv[k := level], q, s, i);
    if level.IsEmpty() {
      DropEmpty(b.slots, lv[k := level], Cut(q, i), s, k);
      assert lv[k := level] - {k} == lv - {k};
    }
  }

  /** Unlinking a resting order cuts it out of its side; everything else stands. */
  lemma StrikeSlot(
    a: Slab, bids: Levels, asks: Levels, buys: SM.Waiting, sells: SM.Waiting, qs: Queues, s: Side, i: nat)
    requires ThreadsOf(a, bids, asks, buys, sells, qs) && i < |qs.Resting(s)|
    requires NoEmptyLevel(if s.Buy? then bids else asks)
    ensures var q := qs.Resting(s); var node := a.slots[q[i]]; var k := RankOf(node.order);
      var lv := if s.Buy? then bids else asks;
      && (node.prev.Some? ==> node.prev.value in a.slots) && (node.next.Some? ==> node.next.value in a.slots)
      && (node.prev.Some? && node.next.Some? ==> node.prev != node.next)
      && k in lv
      && var b := a.(slots := Stitch(a.slots, node.prev, node.next)); var lv' := Shortened(lv, k, q[i], node);
         var qs' := qs.WithResting(s, Cut(q, i));
         && ThreadsOf(b, if s.Buy? then lv' else bids, if s.Buy? then asks else lv', buys, sells, qs')
         && NoEmptyLevel(lv') && Relinked(a, b, q)
         && forall last :: ViewOf(b, qs', last) == WithResting(ViewOf(a, qs, last), s, Cut(Orders(a.slots, q), i))
  {
    hide Ladder, StopsOk, SlabOk, Relinked, NoEmptyLevel, Shortened, Stitch, Cut;
    var lv, q := if s.Buy? then bids else asks, qs.Resting(s);
    UnlinkSlot(a, lv, q, s, i);
    var node := a.slots[q[i]];
    Rewrite(a, a.(slots := Stitch(a.slots, node.prev, node.next)), q, s, bids, asks, buys, sells, qs,
      Shortened(lv, RankOf(node.order), q[i], node), Cut(q, i));
  }

  /** A slot of a resting queue is in no other queue. */
  lemma ApartFrom(
    a: Slab, bids: Levels, asks: Levels, buys: SM.Waiting, sells: SM.Waiting, qs: Queues, s: Side, x: Slot)
    requires ThreadsOf(a, bids, asks, buys, sells, qs) && x in qs.Resting(s)
    ensures x in a.slots && x !in qs.Resting(s.Opposite()) && x !in qs.buyStops && x !in qs.sellStops
    ensures Unrepeated(qs.Resting(s))
    ensures a.slots[x].order.side == s && a.slots[x].order.kind.Limit?
  {
    AllApart(a, bids, asks, buys, sells, qs, s);
    DistinctSlots(a.slots, qs.Resting(s));
    InSlots(a.slots, qs.Resting(s), x);
  }

  lemma SlotLinks(slots: Slots, lv: Levels, q: seq<Slot>, s: Side, i: nat)
    requires i < |q| && Ladder(slots, lv, q, s)
    ensures var node := slots[q[i]];
      && node.order == Orders(slots, q)[i] && RankOf(node.order) in lv && LinkAt(slots, q, Orders(slots, q), i)
      && (node.prev.Some? ==> node.prev.value in slots) && (node.next.Some? ==> node.next.value in slots)
      && (node.prev.Some? && node.next.Some? ==> node.prev != node.next)
  {
    var os := Orders(slots, q);
    assert LinkAt(slots, q, os, i) && EndAt(lv, q, os, i);
    if Joined(os, i) && Joined(os, i - 1) {
      NoRepeats(slots, q, i - 1, i + 1);
    }
  }

  lemma StitchRelinks(a: Slab, b: Slab, q: seq<Slot>, i: nat)
    requires i < |q| && InArena(a.slots, q) && LinkAt(a.slots, q, Orders(a.slots, q), i)
    requires var node := a.slots[q[i]]; b == a.(slots := Stitch(a.slots, node.prev, node.next))
    ensures Relinked(a, b, q)
  {
    var node := a.slots[q[i]];
    assert node.prev.Some? ==> node.prev.value in q;
    assert node.next.Some? ==> node.next.value in q;
  }

  lemma HeadRelinks(a: Slab, b: Slab, q: seq<Slot>, slot: Slot, head: Option<Slot>)
    requires slot in a.slots && InArena(a.slots, q) && (head.Some? ==> head.value in q)
    requires b == a.(slots := WireHead(a.slots, slot, a.slots[slot].order, head))
    ensures Relinked(a, b, [slot] + q)
  {
    assert slot in [slot] + q;
    assert head.Some? ==> head.value in [slot] + q;
  }

  /** A limit order wired before the head of its level heads its side; everything else stands. */
  lemma PrependHead(a: Slab, bids: Levels, asks: Levels, buys: SM.Waiting, sells: SM.Waiting, qs: Queues, slot: Slot)
    requires ThreadsOf(a, bids, asks, buys, sells, qs) && slot in a.slots && Loose(qs, slot)
    requires var o := a.slots[slot].order; var os := Orders(a.slots, qs.Resting(o.side));
      && o.kind.Limit? && 0 < o.remaining <= o.qty && o.price > 0 && !Has(os, o.id)
      && (os != [] ==> RankOf(o) <= RankOf(os[0]))
    requires var o := a.slots[slot].order; var l := LevelAt(if o.side.Buy? then bids else asks, RankOf(o));
      l.totalQty + o.remaining <= U64_MAX && (l.head.None? ==> l.totalQty == 0)
    ensures var o := a.slots[slot].order; var s := o.side; var q := qs.Resting(s);
      var lv := if s.Buy? then bids else asks; var l := LevelAt(lv, RankOf(o));
      && (l.head.Some? ==> l.head.value in a.slots)
      && var b := a.(slots := WireHead(a.slots, slot, o, l.head));
         var lv' := lv[RankOf(o) := PushFront(l, slot, o.remaining)];
         var qs' := qs.WithResting(s, [slot] + q);
         && ThreadsOf(b, if s.Buy? then lv' else bids, if s.Buy? then asks else lv', buys, sells, qs')
         && Relinked(a, b, [slot] + q)
         && forall last :: ViewOf(b, qs', last) == WithResting(ViewOf(a, qs, last), s, [o] + Orders(a.slots, q))
  {
    hide Ladder, StopsOk, SlabOk, Relinked, RankOf, Has;
    var o := a.slots[slot].order;
    var s, q := o.side, qs.Resting(o.side);
    var lv := if s.Buy? then bids else asks;
    var l := LevelAt(lv, RankOf(o));
    LinkHead(a.slots, lv, q, s, slot, o);
    var b := a.(slots := WireHead(a.slots, slot, o, l.head));
    HeadRelinks(a, b, q, slot, l.head);
    Rewrite(a, b, [slot] + q, s, bids, asks, buys, sells, qs, lv[RankOf(o) := PushFront(l, slot, o.remaining)],
      [slot] + q);
  }

  lemma TailRelinks(a: Slab, b: Slab, q: seq<Slot>, slot: Slot, tail: Option<Slot>)
    requires slot in a.slots && InArena(a.slots, q) && (tail.Some? ==> tail.value in q)
    requires b == a.(slots := WireTail(a.slots, slot, a.slots[slot].order, tail))
    ensures Relinked(a, b, [slot] + q)
  {
    assert slot in [slot] + q;
    assert tail.Some? ==> tail.value in [slot] + q;
  }

  /** A limit order wired behind the tail of its level is inserted into its side; everything else stands. */
  lemma AppendTail(a: Slab, bids: Levels, asks: Levels, buys: SM.Waiting, sells: SM.Waiting, qs: Queues, slot: Slot)
    requires ThreadsOf(a, bids, asks, buys, sells, qs) && slot in a.slots && Loose(qs, slot)
    requires NoEmptyLevel(if a.slots[slot].order.side.Buy? then bids else asks)
    requires var o := a.slots[slot].order; var os := Orders(a.slots, qs.Resting(o.side));
      && o.kind.Limit? && 0 < o.remaining <= o.qty && o.price > 0 && !Has(os, o.id)
      && SumAt(os, RankOf(o)) + o.remaining <= U64_MAX
    ensures var o := a.slots[slot].order; var s := o.side; var q := qs.Resting(s);
      var lv := if s.Buy? then bids else asks; var l := LevelAt(lv, RankOf(o));
      && (l.tail.Some? ==> l.tail.value in a.slots)
      && var b := a.(slots := WireTail(a.slots, slot, o, l.tail));
         var lv' := lv[RankOf(o) := l.PushBack(slot, o.remaining)];
         var qs' := qs.WithResting(s, Put(q, Pos(Orders(a.slots, q), RankOf(o)), slot));
         && ThreadsOf(b, if s.Buy? then lv' else bids, if s.Buy? then asks else lv', buys, sells, qs')
         && NoEmptyLevel(lv') && Relinked(a, b, [slot] + q)
         && forall last :: ViewOf(b, qs', last) == WithResting(ViewOf(a, qs, last), s, Insert(Orders(a.slots, q), o))
  {
    hide Ladder, StopsOk, SlabOk, Relinked, RankOf, NoEmptyLevel, Has, SumAt;
    var o := a.slots[slot].order;
    var s, k, q := o.side, RankOf(o), qs.Resting(o.side);
    var lv := if s.Buy? then bids else asks;
    var l := LevelAt(lv, k);
    LinkTail(a.slots, lv, q, s, slot, o);
    var b := a.(slots := WireTail(a.slots, slot, o, l.tail));
    TailRelinks(a, b, q, slot, l.tail);
    Rewrite(a, b, [slot] + q, s, bids, asks, buys, sells, qs, lv[k := l.PushBack(slot, o.remaining)],
      Put(q, Pos(Orders(a.slots, q), k), slot));
  }
}
