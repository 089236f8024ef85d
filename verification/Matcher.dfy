/**
  The matcher on the linked book. Every method is proved to compute what module Spec defines on the
  price-time sequences of View, events included.
 */
module Matcher {
  import opened Types
  import opened PriceTime
  import opened Spec
  import opened Invariants
  import opened Scope
  import opened Levels
  import opened BookState
  import SM = StopMap

  // ---------------------------------------------------------------- filing lemmas

  /** A taker in its own slot, in no queue and not indexed, while the rest of the book is in order. */
  ghost predicate Taking(b: OrderBook, slot: Slot)
    reads b
  {
    && b.Threads() && b.NoEmpty() && slot in b.arena.slots
    && Covered(b.arena.slots, b.qs, {slot}) && IndexOk(b.arena.slots, b.idIndex, {slot})
  }

  /** An order keeps its place when only its open quantity changes. */
  ghost predicate SameFile(o: Order, p: Order) {
    p == o.(remaining := p.remaining)
  }

  ghost predicate SameFiles(a: Slots, b: Slots) {
    a.Keys == b.Keys && forall x :: x in a ==> SameFile(a[x].order, b[x].order)
  }

  lemma FilesFrame(a: Slots, b: Slots, qs: Queues, idx: map<OrderId, Location>, loose: set<Slot>, out: set<Slot>)
    requires Covered(a, qs, loose) && IndexOk(a, idx, out) && SameFiles(a, b)
    ensures Covered(b, qs, loose) && IndexOk(b, idx, out)
  {
    forall x | x in b && x !in loose ensures x in qs.HomeOf(b[x].order) {
      assert SameFile(a[x].order, b[x].order);
    }
  }

  /** A slot cut out of its queue is loose. */
  lemma CutCovered(a: Slots, qs: Queues, s: Side, i: nat, loose: set<Slot>)
    requires Covered(a, qs, loose) && i < |qs.Resting(s)| && Unrepeated(qs.Resting(s))
    requires var x := qs.Resting(s)[i];
      x in a && x !in qs.Resting(s.Opposite()) && x !in qs.buyStops && x !in qs.sellStops
    ensures Covered(a, qs.WithResting(s, Cut(qs.Resting(s), i)), loose + {qs.Resting(s)[i]})
  {
    var q := qs.Resting(s);
    var qs' := qs.WithResting(s, Cut(q, i));
    CutMembers(q, i);
    forall x | x in a && x !in loose + {q[i]} ensures x in qs'.HomeOf(a[x].order) {
      assert x in qs.HomeOf(a[x].order);
    }
  }

  lemma CutMembers(q: seq<Slot>, i: nat)
    requires i < |q| && Unrepeated(q)
    ensures forall x :: x in Cut(q, i) <==> x in q && x != q[i]
  {
    forall x ensures x in Cut(q, i) <==> x in q && x != q[i] {
      if x in q && x != q[i] {
        var j :| 0 <= j < |q| && q[j] == x;
        assert Cut(q, i)[if j < i then j else j - 1] == x;
      }
      if x in Cut(q, i) {
        var j :| 0 <= j < |Cut(q, i)| && Cut(q, i)[j] == x;
        assert q[if j < i then j else j + 1] == x;
      }
    }
  }

  /** A loose slot put into its queue is loose no more. */
  lemma PutCovered(a: Slots, qs: Queues, s: Side, q': seq<Slot>, x: Slot, loose: set<Slot>)
    requires Covered(a, qs, loose) && x in loose && a[x].order.side == s && !IsStop(a[x].order.kind)
    requires forall y :: y in q' <==> y in qs.Resting(s) || y == x
    ensures Covered(a, qs.WithResting(s, q'), loose - {x})
  {
    var qs' := qs.WithResting(s, q');
    forall y | y in a && y !in loose - {x} ensures y in qs'.HomeOf(a[y].order) {
      if y != x { assert y in qs.HomeOf(a[y].order); }
    }
  }

  /** A loose slot that is freed, with its id struck from the index. */
  lemma FreeFiles(a: Slots, qs: Queues, idx: map<OrderId, Location>, loose: set<Slot>, out: set<Slot>, x: Slot)
    requires Covered(a, qs, loose) && IndexOk(a, idx, out) && x in loose
    ensures Covered(a - {x}, qs, loose - {x})
    ensures IndexOk(a - {x}, if x in out then idx else idx - {a[x].order.id}, out - {x})
  {
    var a' := a - {x};
    forall y | y in a' && y !in loose - {x} ensures y in qs.HomeOf(a'[y].order) {
      assert y in qs.HomeOf(a[y].order);
    }
  }

  /** Slots only get free, orders keep their place, and pending stops do not change at all. */
  ghost predicate Kept(a: Slots, b: Slots): (r: bool)
    ensures r ==> b.Keys <= a.Keys
  {
    b.Keys <= a.Keys && forall x :: x in b ==>
      SameFile(a[x].order, b[x].order) && (IsStop(a[x].order.kind) ==> b[x].order == a[x].order)
  }

  lemma KeptSelf(a: Slots)
    ensures Kept(a, a)
  {
  }

  lemma KeptTwice(a: Slots, b: Slots, c: Slots)
    requires Kept(a, b) && Kept(b, c)
    ensures Kept(a, c)
  {
    forall x | x in c
      ensures SameFile(a[x].order, c[x].order) && (IsStop(a[x].order.kind) ==> c[x].order == a[x].order)
    {
      assert x in b && SameFile(a[x].order, b[x].order) && SameFile(b[x].order, c[x].order);
    }
  }

  // ---------------------------------------------------------------- one trade

  /** The maker in slot x is off the head of level k of side s, and level k may be empty. */
  ghost predicate Holding(b: OrderBook, slot: Slot, x: Slot, s: Side, k: int)
    reads b
  {
    && b.Threads() && slot in b.arena.slots && x in b.arena.slots && slot != x
    && Covered(b.arena.slots, b.qs, {slot, x}) && IndexOk(b.arena.slots, b.idIndex, {slot})
    && NoEmptyLevel(b.LevelsOf(s.Opposite()))
    && k in b.LevelsOf(s) && (b.LevelsOf(s)[k].head.None? <==> b.LevelsOf(s)[k].totalQty == 0)
    && forall j :: j in b.LevelsOf(s) && j != k ==> b.LevelsOf(s)[j].head.Some?
  }

  /** What may follow the head of a side: orders of no better rank, with other ids. */
  ghost predicate CanHead(o: Order, rest: seq<Order>, s: Side) {
    && o.side == s && o.kind.Limit? && 0 < o.remaining <= o.qty && o.price > 0
    && !Has(rest, o.id) && (rest != [] ==> RankOf(o) <= RankOf(rest[0]))
  }

  lemma HeadLess(o: Order, rest: seq<Order>, s: Side, t: Qty)
    requires CanHead(o, rest, s) && t <= o.remaining
    ensures o.kind.Limit? && o.side == s && o.price > 0 && o.remaining > 0
    ensures var p := o.(remaining := o.remaining - t); t < o.remaining ==> CanHead(p, rest, s) && RankOf(p) == RankOf(o)
  {
  }

  lemma HeadFirst(slots: Slots, lv: Levels, q: seq<Slot>, s: Side)
    requires Ladder(slots, lv, q, s) && q != []
    ensures var os := Orders(slots, q);
      CanHead(os[0], os[1..], s) && Cut(os, 0) == os[1..] && os[0] == slots[q[0]].order
  {
    var os := Orders(slots, q);
    assert forall i :: 0 <= i < |os[1..]| ==> os[1..][i] == os[i + 1];
  }

  method PopBest(b: OrderBook, slot: Slot, s: Side, k: int) returns (x: Slot)
    requires Taking(b, slot)
    requires k in b.LevelsOf(s) && forall j :: j in b.LevelsOf(s) ==> k <= j
    modifies b`asks, b`bids, b`arena, b`qs
    ensures Holding(b, slot, x, s, k)
    ensures var makers := old(Resting(b.View(), s));
      && makers != [] && RankOf(makers[0]) == k && CanHead(makers[0], makers[1..], s)
      && b.arena.slots[x].order == makers[0] && b.arena.slots[slot].order == old(b.arena.slots[slot].order)
      && b.View() == WithResting(old(b.View()), s, makers[1..])
      && b.LevelsOf(s)[k].totalQty + makers[0].remaining <= U64_MAX
    ensures b.arena.slots.Keys == old(b.arena.slots.Keys) && Kept(old(b.arena.slots), b.arena.slots)
    ensures b.qs.buyStops == old(b.qs.buyStops) && b.qs.sellStops == old(b.qs.sellStops)
  {
    hide Ladder, StopsOk, SlabOk, Covered, IndexOk, CanHead, Relinked, SameFiles, Unrepeated, Joined, Kept;
    ghost var q, before, qs0 := b.qs.Resting(s), b.arena, b.qs;
    BestKey(b.arena.slots, b.LevelsOf(s), q, s, k);
    ApartFrom(b.arena, b.bids, b.asks, b.stopBuys, b.stopSells, b.qs, s, q[0]);
    HeadFirst(b.arena.slots, b.LevelsOf(s), q, s);
    LooseIn(b.arena.slots, b.qs, {slot}, slot);
    ghost var i: nat;
    var popped: Option<Slot>;
    popped, i := b.PopHead(s, k);
    x := popped.value;
    Unequal(q, i, 0);
    RelinkFacts(before, b.arena, q, x, slot);
    CutCovered(before.slots, qs0, s, 0, {slot});
    assert {slot} + {x} == {slot, x};
    FilesFrame(before.slots, b.arena.slots, b.qs, b.idIndex, {slot, x}, {slot});
  }

  lemma RelinkFacts(a: Slab, b: Slab, q: seq<Slot>, x: Slot, y: Slot)
    requires Relinked(a, b, q) && x in a.slots && y in a.slots
    ensures SameFiles(a.slots, b.slots) && a.slots.Keys == b.slots.Keys && Kept(a.slots, b.slots)
    ensures b.slots[x].order == a.slots[x].order && b.slots[y].order == a.slots[y].order
  {
  }

  lemma SameIsFiled(a: Slots, b: Slots)
    requires SameOrders(a, b)
    ensures SameFiles(a, b) && Kept(a, b)
  {
  }

  /** A maker with nothing left leaves the index, the arena and, with it, an empty level. */
  method CompleteMaker(b: OrderBook, slot: Slot, x: Slot, s: Side, k: int)
    requires Holding(b, slot, x, s, k)
    modifies b`asks, b`bids, b`arena, b`idIndex
    ensures Taking(b, slot)
    ensures b.View() == old(b.View()) && b.arena.slots[slot] == old(b.arena.slots[slot])
    ensures b.arena.slots.Keys == old(b.arena.slots.Keys) - {x} && b.idIndex.Keys <= old(b.idIndex.Keys)
    ensures Kept(old(b.arena.slots), b.arena.slots)
  {
    hide Ladder, StopsOk, SlabOk, Covered, IndexOk;
    ghost var before, idx := b.arena, b.idIndex;
    var makerId := b.arena.slots[x].order.id;
    b.idIndex := b.idIndex - {makerId};
    b.arena := b.arena.Remove(x);
    SlabRemove(before, x);
    LooseIn(before.slots, b.qs, {slot, x}, x);
    LooseFrame(before, b.arena, b.bids, b.asks, b.stopBuys, b.stopSells, b.qs);
    FreeFiles(before.slots, b.qs, idx, {slot, x}, {slot}, x);
    assert {slot, x} - {x} == {slot} && {slot} - {x} == {slot};
    b.RemoveEmpty(s, k);
  }

  lemma LooseIn(a: Slots, qs: Queues, loose: set<Slot>, x: Slot)
    requires Covered(a, qs, loose) && x in loose
    ensures Loose(qs, x)
  {
  }

  /** A maker with quantity left goes back to the head of its level and keeps its priority. */
  method KeepMaker(b: OrderBook, slot: Slot, x: Slot, s: Side, k: int)
    requires Holding(b, slot, x, s, k)
    requires var o := b.arena.slots[x].order;
      CanHead(o, Resting(b.View(), s), s) && RankOf(o) == k && b.LevelsOf(s)[k].totalQty + o.remaining <= U64_MAX
    modifies b`asks, b`bids, b`arena, b`qs
    ensures Taking(b, slot)
    ensures b.View() == WithResting(old(b.View()), s, [old(b.arena.slots[x].order)] + Resting(old(b.View()), s))
    ensures b.arena.slots[slot].order == old(b.arena.slots[slot].order) && b.arena.slots.Keys == old(b.arena.slots.Keys)
    ensures Kept(old(b.arena.slots), b.arena.slots)
    ensures b.qs.buyStops == old(b.qs.buyStops) && b.qs.sellStops == old(b.qs.sellStops)
  {
    hide Ladder, StopsOk, SlabOk, Covered, IndexOk;
    ghost var before, qs0 := b.arena, b.qs;
    LooseIn(b.arena.slots, b.qs, {slot, x}, x);
    b.ReinsertAtHead(x, k, s);
    SameIsFiled(before.slots, b.arena.slots);
    PutCovered(before.slots, qs0, s, [x] + qs0.Resting(s), x, {slot, x});
    assert {slot, x} - {x} == {slot};
    FilesFrame(before.slots, b.arena.slots, b.qs, b.idIndex, {slot}, {slot});
  }

  /** Two loose nodes can change at once. */
  lemma TwoLoose(
    a: Slab, bids: Levels, asks: Levels, buys: SM.Waiting, sells: SM.Waiting, qs: Queues,
    x: Slot, n: Node, y: Slot, m: Node)
    requires ThreadsOf(a, bids, asks, buys, sells, qs) && Loose(qs, x) && Loose(qs, y) && x in a.slots && y in a.slots
    ensures var b := a.Set(x, n).Set(y, m);
      && ThreadsOf(b, bids, asks, buys, sells, qs) && b.slots == a.slots[x := n][y := m] && b.slots.Keys == a.slots.Keys
      && forall last :: ViewOf(b, qs, last) == ViewOf(a, qs, last)
  {
    hide Ladder, StopsOk, ViewOf;
    var b := a.Set(x, n).Set(y, m);
    assert b.slots.Keys == a.slots.Keys;
    LooseFrame(a, b, bids, asks, buys, sells, qs);
  }

  /** The quantities of taker and maker go down by the traded quantity. */
  method Settle(b: OrderBook, slot: Slot, x: Slot, s: Side, k: int, t: Qty)
    requires Holding(b, slot, x, s, k)
    requires t <= b.arena.slots[slot].order.remaining && t <= b.arena.slots[x].order.remaining
    requires !IsStop(b.arena.slots[slot].order.kind) && !IsStop(b.arena.slots[x].order.kind)
    modifies b`arena
    ensures Holding(b, slot, x, s, k)
    ensures b.View() == old(b.View()) && b.arena.slots.Keys == old(b.arena.slots.Keys)
      && Kept(old(b.arena.slots), b.arena.slots)
    ensures b.arena.slots[slot].order
      == old(b.arena.slots[slot].order).(remaining := old(b.arena.slots[slot].order.remaining) - t)
    ensures b.arena.slots[x].order
      == old(b.arena.slots[x].order).(remaining := old(b.arena.slots[x].order.remaining) - t)
  {
    hide ThreadsOf, Covered, IndexOk, ViewOf;
    ghost var before := b.arena;
    var taker, maker := b.arena.slots[slot], b.arena.slots[x];
    b.arena := b.arena.Set(slot, taker.(order := taker.order.(remaining := taker.order.remaining - t)));
    b.arena := b.arena.Set(x, maker.(order := maker.order.(remaining := maker.order.remaining - t)));
    LooseIn(before.slots, b.qs, {slot, x}, x);
    LooseIn(before.slots, b.qs, {slot, x}, slot);
    TwoLoose(before, b.bids, b.asks, b.stopBuys, b.stopSells, b.qs, slot, b.arena.slots[slot], x, b.arena.slots[x]);
    FilesFrame(before.slots, b.arena.slots, b.qs, b.idIndex, {slot, x}, {slot});
  }

  /** After its trade the maker is completed or put back. */
  method Dispose(b: OrderBook, slot: Slot, x: Slot, s: Side, k: int, t: Qty, sq: nat) returns (note: OutputEvent)
    requires Holding(b, slot, x, s, k)
    requires var o := b.arena.slots[x].order; o.remaining > 0 ==>
      CanHead(o, Resting(b.View(), s), s) && RankOf(o) == k && b.LevelsOf(s)[k].totalQty + o.remaining <= U64_MAX
    modifies b`asks, b`bids, b`arena, b`qs, b`idIndex
    ensures Taking(b, slot)
    ensures var o := old(b.arena.slots[x].order);
      && note == (if o.remaining == 0 then Filled(o.id, sq) else PartiallyFilled(o.id, t, o.remaining, sq))
      && b.View() == WithResting(old(b.View()), s, (if o.remaining == 0 then [] else [o]) + Resting(old(b.View()), s))
    ensures b.arena.slots[slot].order == old(b.arena.slots[slot].order)
    ensures b.qs.buyStops == old(b.qs.buyStops) && b.qs.sellStops == old(b.qs.sellStops)
    ensures Kept(old(b.arena.slots), b.arena.slots) && b.idIndex.Keys <= old(b.idIndex.Keys)
  {
    hide ThreadsOf, Covered, IndexOk, NoEmptyLevel, Kept;
    var maker := b.arena.slots[x].order;
    if maker.remaining == 0 {
      note := Filled(maker.id, sq);
      CompleteMaker(b, slot, x, s, k);
    } else {
      note := PartiallyFilled(maker.id, t, maker.remaining, sq);
      KeepMaker(b, slot, x, s, k);
    }
  }

  /** The makers once the first of them has traded t. */
  function MakersLeft(makers: seq<Order>, t: Qty): seq<Order>
    requires makers != [] && t <= makers[0].remaining
  {
    (if t == makers[0].remaining then [] else [makers[0].(remaining := makers[0].remaining - t)]) + makers[1..]
  }

  function TurnEvents(taker: Order, maker: Order, t: Qty, sq: nat, ts: nat): seq<OutputEvent>
    requires t <= maker.remaining
  {
    [TradeOf(taker, maker, t, sq, ts),
     if t == maker.remaining then Filled(maker.id, sq) else PartiallyFilled(maker.id, t, maker.remaining - t, sq)]
  }

  /** One turn of the matching loop: trade with the head of the best level, key k, of side s. */
  method TradeOnce(b: OrderBook, slot: Slot, s: Side, k: int, sq: nat, ts: nat) returns (evs: seq<OutputEvent>)
    requires Taking(b, slot)
    requires b.arena.slots[slot].order.side == s.Opposite() && b.arena.slots[slot].order.remaining > 0
    requires !IsStop(b.arena.slots[slot].order.kind)
    requires k in b.LevelsOf(s) && forall j :: j in b.LevelsOf(s) ==> k <= j
    modifies b`asks, b`bids, b`arena, b`qs, b`idIndex, b`lastTrade
    ensures Taking(b, slot)
    ensures var taker := old(b.arena.slots[slot].order);
      var makers := old(Resting(b.View(), s));
      && makers != [] && RankOf(makers[0]) == k && makers[0].kind.Limit? && makers[0].side == s
      && var t := Min(taker.remaining, makers[0].remaining);
      && t > 0
      && b.arena.slots[slot].order == taker.(remaining := taker.remaining - t)
      && b.View() == WithResting(old(b.View()), s, MakersLeft(makers, t)).(lastTrade := Some(makers[0].price))
      && evs == TurnEvents(taker, makers[0], t, sq, ts)
    ensures b.qs.buyStops == old(b.qs.buyStops) && b.qs.sellStops == old(b.qs.sellStops)
    ensures Kept(old(b.arena.slots), b.arena.slots) && b.idIndex.Keys <= old(b.idIndex.Keys)
  {
    hide Ladder, StopsOk, SlabOk, Covered, IndexOk, Kept, ThreadsOf, NoEmptyLevel, CanHead;
    ghost var slots0 := b.arena.slots;
    var makerPrice := PriceAt(s, k);
    var x := PopBest(b, slot, s, k);
    ghost var slots1 := b.arena.slots;
    var taker, maker := b.arena.slots[slot].order, b.arena.slots[x].order;
    var t := Min(taker.remaining, maker.remaining);
    HeadLess(maker, Resting(b.View(), s), s, t);
    Settle(b, slot, x, s, k, t);
    ghost var slots2 := b.arena.slots;
    b.lastTrade := Some(makerPrice);
    evs := [Trade(sq, taker.id, maker.id, makerPrice, t, taker.side, ts)];
    var note := Dispose(b, slot, x, s, k, t, sq);
    evs := evs + [note];
    KeptTwice(slots0, slots1, slots2);
    KeptTwice(slots0, slots2, b.arena.slots);
  }

  // ---------------------------------------------------------------- the matching loop

  function Prepend(es: seq<OutputEvent>, r: Matched): Matched {
    r.(events := es + r.events)
  }

  lemma MatchTurn(taker: Order, makers: seq<Order>, last: Option<Price>, sq: nat, ts: nat)
    requires taker.remaining > 0 && makers != [] && Crosses(taker, makers[0])
    ensures var t := Min(taker.remaining, makers[0].remaining);
      Match(taker, makers, last, sq, ts) == Prepend(TurnEvents(taker, makers[0], t, sq, ts),
        Match(taker.(remaining := taker.remaining - t), MakersLeft(makers, t), Some(makers[0].price), sq, ts))
  {
    hide Match;
    var t := Min(taker.remaining, makers[0].remaining);
    MatchStep(taker, makers, last, sq, ts);
    if t == makers[0].remaining {
      assert MakersLeft(makers, t) == makers[1..];
    } else {
      var es := TurnEvents(taker, makers[0], t, sq, ts);
      MatchOver(taker.(remaining := taker.remaining - t), MakersLeft(makers, t), Some(makers[0].price), sq, ts);
      assert es + [] == es;
    }
  }

  lemma PrependTwice(es: seq<OutputEvent>, fs: seq<OutputEvent>, r: Matched)
    ensures Prepend(es, Prepend(fs, r)) == Prepend(es + fs, r)
  {
  }

  /** A turn of the loop, seen from the reference match: the turn's events come first and the rest is left to do. */
  method Turn(b: OrderBook, slot: Slot, s: Side, k: int, sq: nat, ts: nat) returns (evs: seq<OutputEvent>)
    requires Taking(b, slot)
    requires b.arena.slots[slot].order.side == s.Opposite() && b.arena.slots[slot].order.remaining > 0
    requires !IsStop(b.arena.slots[slot].order.kind)
    requires k in b.LevelsOf(s) && forall j :: j in b.LevelsOf(s) ==> k <= j
    requires Resting(b.View(), s) != [] && Crosses(b.arena.slots[slot].order, Resting(b.View(), s)[0])
    modifies b`asks, b`bids, b`arena, b`qs, b`idIndex, b`lastTrade
    ensures Taking(b, slot)
    ensures |evs| > 0 && evs[0].Trade?
      && b.arena.slots[slot].order.remaining + evs[0].qty == old(b.arena.slots[slot].order.remaining) && evs[0].qty > 0
      && b.arena.slots[slot].order == old(b.arena.slots[slot].order).(remaining := b.arena.slots[slot].order.remaining)
    ensures Match(old(b.arena.slots[slot].order), Resting(old(b.View()), s), old(b.lastTrade), sq, ts)
         == Prepend(evs, Match(b.arena.slots[slot].order, Resting(b.View(), s), b.lastTrade, sq, ts))
    ensures b.View() == WithResting(old(b.View()), s, Resting(b.View(), s)).(lastTrade := b.lastTrade)
    ensures b.qs.buyStops == old(b.qs.buyStops) && b.qs.sellStops == old(b.qs.sellStops)
    ensures Kept(old(b.arena.slots), b.arena.slots) && b.idIndex.Keys <= old(b.idIndex.Keys)
  {
    hide ThreadsOf, Covered, IndexOk, NoEmptyLevel, Match, Kept;
    MatchTurn(b.arena.slots[slot].order, Resting(b.View(), s), b.lastTrade, sq, ts);
    evs := TradeOnce(b, slot, s, k, sq, ts);
  }

  /** The first level holds the best order of a side; without a level there is none. */
  lemma BestOf(b: OrderBook, s: Side)
    requires b.Threads() && b.NoEmpty()
    ensures b.LevelsOf(s).Keys == {} <==> Resting(b.View(), s) == []
    ensures b.LevelsOf(s).Keys != {} ==>
      var k := SM.MinKey(b.LevelsOf(s).Keys); var best := Resting(b.View(), s)[0];
      RankOf(best) == k && best.price == PriceAt(s, k)
  {
    hide SideWF, StopsOk, SlabOk;
    var q := b.qs.Resting(s);
    if q != [] {
      assert EndAt(b.LevelsOf(s), q, Orders(b.arena.slots, q), 0);
    }
    if b.LevelsOf(s).Keys != {} {
      var k := SM.MinKey(b.LevelsOf(s).Keys);
      BestKey(b.arena.slots, b.LevelsOf(s), q, s, k);
      HeadFirst(b.arena.slots, b.LevelsOf(s), q, s);
    }
  }

  /** Walk the opposite side and fill as much as possible. */
  method MatchOrder(b: OrderBook, slot: Slot, sq: nat, ts: nat) returns (filled: Qty, out: seq<OutputEvent>)
    requires Taking(b, slot) && !IsStop(b.arena.slots[slot].order.kind)
    modifies b`asks, b`bids, b`arena, b`qs, b`idIndex, b`lastTrade
    ensures Taking(b, slot)
    ensures var taker := old(b.arena.slots[slot].order);
      var r := Match(taker, Resting(old(b.View()), taker.side.Opposite()), old(b.lastTrade), sq, ts);
      && out == r.events && filled == taker.remaining - r.remaining
      && b.arena.slots[slot].order == taker.(remaining := r.remaining)
      && b.View() == WithResting(old(b.View()), taker.side.Opposite(), r.makers).(lastTrade := r.last)
    ensures b.qs.buyStops == old(b.qs.buyStops) && b.qs.sellStops == old(b.qs.sellStops)
    ensures Kept(old(b.arena.slots), b.arena.slots) && b.idIndex.Keys <= old(b.idIndex.Keys)
  {
    hide ThreadsOf, Covered, IndexOk, NoEmptyLevel, Match, Kept;
    KeptSelf(b.arena.slots);
    ghost var taker := b.arena.slots[slot].order;
    var s, kind, limit := b.arena.slots[slot].order.side.Opposite(), b.arena.slots[slot].order.kind,
      b.arena.slots[slot].order.price;
    ghost var view := b.View();
    ghost var whole := Match(taker, Resting(view, s), b.lastTrade, sq, ts);
    filled, out := 0, [];
    while b.arena.slots[slot].order.remaining > 0
      invariant Taking(b, slot)
      invariant b.arena.slots[slot].order.remaining <= taker.remaining
      invariant b.arena.slots[slot].order == taker.(remaining := b.arena.slots[slot].order.remaining)
      invariant filled == taker.remaining - b.arena.slots[slot].order.remaining
      invariant whole == Prepend(out, Match(b.arena.slots[slot].order, Resting(b.View(), s), b.lastTrade, sq, ts))
      invariant b.View() == WithResting(view, s, Resting(b.View(), s)).(lastTrade := b.lastTrade)
      invariant b.qs.buyStops == old(b.qs.buyStops) && b.qs.sellStops == old(b.qs.sellStops)
      invariant Kept(old(b.arena.slots), b.arena.slots) && b.idIndex.Keys <= old(b.idIndex.Keys)
      decreases b.arena.slots[slot].order.remaining
    {
      var levels := b.LevelsOf(s);
      BestOf(b, s);
      if levels.Keys == {} {
        break;
      }
      var k := SM.MinKey(levels.Keys);
      var makerPrice := PriceAt(s, k);
      var crosses := kind.Market? || kind.Ioc? || kind.Fok?
        || (if s.Sell? then makerPrice <= limit else makerPrice >= limit);
      assert Crosses(b.arena.slots[slot].order, Resting(b.View(), s)[0]) == crosses;
      if !crosses {
        break;
      }
      ghost var slots1 := b.arena.slots;
      var evs := Turn(b, slot, s, k, sq, ts);
      KeptTwice(old(b.arena.slots), slots1, b.arena.slots);
      filled := filled + evs[0].qty;
      PrependTwice(out, evs, Match(b.arena.slots[slot].order, Resting(b.View(), s), b.lastTrade, sq, ts));
      out := out + evs;
    }
    MatchOver(b.arena.slots[slot].order, Resting(b.View(), s), b.lastTrade, sq, ts);
    assert out + [] == out;
  }

  // ---------------------------------------------------------------- fill-or-kill check

  /** Open quantity at the ranks listed. */
  ghost function SumKeys(os: seq<Order>, ks: seq<int>): nat {
    if ks == [] then 0 else SumKeys(os, ks[..|ks| - 1]) + SumAt(os, ks[|ks| - 1])
  }

  lemma {:induction false} SumKeysStep(os: seq<Order>, ks: seq<int>)
    requires os != [] && forall i, j :: 0 <= i < j < |ks| ==> ks[i] < ks[j]
    ensures SumKeys(os, ks) == SumKeys(os[1..], ks) + (if RankOf(os[0]) in ks then os[0].remaining else 0)
    decreases |ks|
  {
    if ks != [] {
      var front := ks[..|ks| - 1];
      SumKeysStep(os, front);
      assert ks == front + [ks[|ks| - 1]];
      assert ks[|ks| - 1] !in front;
    }
  }

  /** Summing the levels up to a limit sums the orders up to the limit. */
  lemma {:induction false} SumKeysWithin(os: seq<Order>, ks: seq<int>, n: nat, k: int)
    requires n <= |ks| && forall i, j :: 0 <= i < j < |ks| ==> ks[i] < ks[j]
    requires forall i :: 0 <= i < |os| ==> RankOf(os[i]) in ks
    requires (forall i :: 0 <= i < n ==> ks[i] <= k) && (forall i :: n <= i < |ks| ==> k < ks[i])
    ensures SumKeys(os, ks[..n]) == SumWithin(os, k)
    decreases |os|
  {
    if os == [] {
      SumKeysNone(ks[..n]);
    } else {
      SumKeysStep(os, ks[..n]);
      assert RankOf(os[0]) in ks;
      assert ks == ks[..n] + ks[n..];
      assert RankOf(os[0]) in ks[..n] <==> RankOf(os[0]) <= k;
      forall i | 0 <= i < |os[1..]| ensures RankOf(os[1..][i]) in ks { assert os[1..][i] == os[i + 1]; }
      SumKeysWithin(os[1..], ks, n, k);
    }
  }

  lemma {:induction false} SumKeysNone(ks: seq<int>)
    ensures SumKeys([], ks) == 0
  {
    if ks != [] {
      SumKeysNone(ks[..|ks| - 1]);
    }
  }

  lemma SumKeysNext(os: seq<Order>, ks: seq<int>, i: nat)
    ensures SumKeys(os, []) == 0
    ensures i < |ks| ==> SumKeys(os, ks[..i + 1]) == SumKeys(os, ks[..i]) + SumAt(os, ks[i])
  {
    if i < |ks| {
      assert ks[..i + 1][..i] == ks[..i];
    }
  }

  lemma LevelsKnown(b: OrderBook, s: Side)
    requires b.Threads()
    ensures forall i :: 0 <= i < |Resting(b.View(), s)| ==> RankOf(Resting(b.View(), s)[i]) in b.LevelsOf(s)
    ensures forall k :: k in b.LevelsOf(s) ==> b.LevelsOf(s)[k].totalQty == SumAt(Resting(b.View(), s), k)
  {
    var q := b.qs.Resting(s);
    forall i | 0 <= i < |q| ensures RankOf(Orders(b.arena.slots, q)[i]) in b.LevelsOf(s) {
      assert EndAt(b.LevelsOf(s), q, Orders(b.arena.slots, q), i);
    }
  }

  /** How much quantity a taker of side s finds at or within limit, with a saturating sum over the levels. */
  method AvailableQty(b: OrderBook, s: Side, limit: Price) returns (total: Qty)
    requires b.Threads()
    ensures total == Available(b.View(), s, limit)
  {
    hide ThreadsOf, SM.SortedKeys, SumKeys, SumWithin, SumAt, ViewOf;
    var maker := s.Opposite();
    var lv := b.LevelsOf(maker);
    var ks := SM.SortedKeys(lv.Keys);
    ghost var os := Resting(b.View(), maker);
    LevelsKnown(b, maker);
    SumKeysNext(os, ks, 0);
    total := 0;
    var i := 0;
    while i < |ks| && ks[i] <= Rank(maker, limit)
      invariant 0 <= i <= |ks|
      invariant forall j :: 0 <= j < i ==> ks[j] <= Rank(maker, limit)
      invariant total == Min(SumKeys(os, ks[..i]), U64_MAX)
    {
      SumKeysNext(os, ks, i);
      total := SaturatingAdd(total, lv[ks[i]].totalQty);
      i := i + 1;
    }
    SumKeysWithin(os, ks, i, Rank(maker, limit));
  }

  // ---------------------------------------------------------------- finding an order

  /** The index names exactly the orders of the book, each where it is. */
  lemma Find(b: OrderBook, id: OrderId)
    requires b.Sound()
    ensures HasId(b.View(), id) <==> id in b.idIndex
    ensures id in b.idIndex ==>
      var x := b.idIndex[id].slot;
      && x in b.arena.slots && b.arena.slots[x].order.id == id
      && b.idIndex[id] == LocationOf(b.arena.slots[x].order, x)
      && x in b.qs.HomeOf(b.arena.slots[x].order)
      && Has(HomeIn(b.View(), b.arena.slots[x].order), id)
  {
    hide Ladder, StopsOk, SlabOk, StaleFree, NoEmptyLevel, Covered, IndexOk, Has, LocationOf;
    NotIndexed(b.arena.slots, b.idIndex, {}, b.qs.bids, id);
    NotIndexed(b.arena.slots, b.idIndex, {}, b.qs.asks, id);
    NotIndexed(b.arena.slots, b.idIndex, {}, b.qs.buyStops, id);
    NotIndexed(b.arena.slots, b.idIndex, {}, b.qs.sellStops, id);
    if id in b.idIndex {
      IndexLeads(b.arena.slots, b.idIndex, b.qs, id);
      var x := b.idIndex[id].slot;
      IndexedHas(b.arena.slots, b.qs.HomeOf(b.arena.slots[x].order), x);
    }
  }

  lemma IndexLeads(slots: Slots, idx: map<OrderId, Location>, qs: Queues, id: OrderId)
    requires IndexOk(slots, idx, {}) && Covered(slots, qs, {}) && id in idx
    ensures var x := idx[id].slot;
      && x in slots && slots[x].order.id == id && idx[id] == LocationOf(slots[x].order, x)
      && x in qs.HomeOf(slots[x].order)
  {
  }

  /** The sequence of the reference book an order belongs to. */
  function HomeIn(v: Book, o: Order): seq<Order> {
    if IsStop(o.kind) then Stops(v, o.side) else Resting(v, o.side)
  }

  /** The reference book of a sound book is well formed. */
  lemma SoundWF(b: OrderBook)
    requires b.Sound()
    ensures WF(b.View())
  {
    hide StaleFree, NoEmptyLevel, Covered;
    forall id ensures AtMostOne(b.View(), id) {
      UniqueId(b, id);
    }
    PartsWF(b);
    assert forall id :: AtMostOne(b.View(), id) ==> true;
    UniqueFromAll(b.View());
  }

  ghost predicate AtMostOne(v: Book, id: OrderId) {
    && (Has(v.bids, id) ==> !Has(v.asks, id) && !Has(v.buyStops, id) && !Has(v.sellStops, id))
    && (Has(v.asks, id) ==> !Has(v.buyStops, id) && !Has(v.sellStops, id))
    && (Has(v.buyStops, id) ==> !Has(v.sellStops, id))
  }

  lemma UniqueFromAll(v: Book)
    requires forall id :: AtMostOne(v, id)
    ensures UniqueIds(v)
  {
    hide Has;
    assert forall id :: Has(v.bids, id) ==> AtMostOne(v, id);
    assert forall id :: Has(v.asks, id) ==> AtMostOne(v, id);
    assert forall id :: Has(v.buyStops, id) ==> AtMostOne(v, id);
  }

  lemma PartsWF(b: OrderBook)
    requires b.Threads()
    ensures SideWF(b.View().bids, Buy) && SideWF(b.View().asks, Sell)
    ensures StopsWF(b.View().buyStops, Buy) && StopsWF(b.View().sellStops, Sell)
  {
    hide SideWF, StopsWF;
  }

  lemma UniqueId(b: OrderBook, id: OrderId)
    requires b.Threads() && IndexOk(b.arena.slots, b.idIndex, {})
    ensures AtMostOne(b.View(), id)
  {
    hide Ladder, StopsOk, SlabOk, IndexOk;
    NotIndexed(b.arena.slots, b.idIndex, {}, b.qs.bids, id);
    NotIndexed(b.arena.slots, b.idIndex, {}, b.qs.asks, id);
    NotIndexed(b.arena.slots, b.idIndex, {}, b.qs.buyStops, id);
    NotIndexed(b.arena.slots, b.idIndex, {}, b.qs.sellStops, id);
    AllApart(b.arena, b.bids, b.asks, b.stopBuys, b.stopSells, b.qs, Buy);
    AllApart(b.arena, b.bids, b.asks, b.stopBuys, b.stopSells, b.qs, Sell);
    StopQueuesApart(b.arena, b.stopBuys, b.stopSells, b.qs);
  }

  lemma StopQueuesApart(a: Slab, buys: SM.Waiting, sells: SM.Waiting, qs: Queues)
    requires StopsOk(a.slots, buys, qs.buyStops, Buy) && StopsOk(a.slots, sells, qs.sellStops, Sell)
    ensures Disjoint(qs.buyStops, qs.sellStops)
  {
    hide Sorted, Distinct, SM.Keep, SM.Flatten;
    forall x | x in qs.buyStops ensures x !in qs.sellStops {
      InSlots(a.slots, qs.buyStops, x);
      if x in qs.sellStops { InSlots(a.slots, qs.sellStops, x); }
    }
  }

  // ---------------------------------------------------------------- cancel

  /** A stop map entry that points at a free slot: the next order put there can be mistaken for a stop. */
  ghost predicate Dangling(b: OrderBook)
    reads b
  {
    exists s: Side, k, x :: k in b.StopsOf(s) && x in b.StopsOf(s)[k] && x !in b.arena.slots
  }

  lemma ValidNotDangling(b: OrderBook)
    requires b.Valid()
    ensures !Dangling(b)
  {
    hide Ladder, SlabOk, Covered, IndexOk, StaleFree, NoEmptyLevel, StopsOk, InArena;
    forall s: Side, k, x | k in b.StopsOf(s) && x in b.StopsOf(s)[k] ensures x in b.arena.slots {
      assert x in b.qs.Stops(s);
      InSlots(b.arena.slots, b.qs.Stops(s), x);
    }
  }

  /** Where a resting order stands in its queue. */
  lemma FindResting(b: OrderBook, id: OrderId)
    requires b.Sound() && id in b.idIndex && !IsStop(b.arena.slots[b.idIndex[id].slot].order.kind)
    ensures var o := b.arena.slots[b.idIndex[id].slot].order;
      var i := IndexOf(Resting(b.View(), o.side), id);
      && i < |b.qs.Resting(o.side)| && b.qs.Resting(o.side)[i] == b.idIndex[id].slot
      && Resting(b.View(), o.side)[i] == o && o.kind.Limit? && RankOf(o) == Rank(o.side, o.price)
      && !HasStop(b.View(), id)
      && Remove(b.View(), id) == WithResting(b.View(), o.side, Cut(Resting(b.View(), o.side), i))
  {
    hide Ladder, StopsOk, SlabOk, StaleFree, NoEmptyLevel, Covered, IndexOk, IndexOf, Remove, AtMostOne;
    Find(b, id);
    UniqueId(b, id);
    var x := b.idIndex[id].slot;
    var s := b.arena.slots[x].order.side;
    ApartFrom(b.arena, b.bids, b.asks, b.stopBuys, b.stopSells, b.qs, s, x);
    QueuePlace(b.arena.slots, b.idIndex, b.qs.Resting(s), id);
    RemoveOne(b.View(), s, id);
  }

  /** The index points at the place where the queue holds the id. */
  lemma QueuePlace(slots: Slots, idx: map<OrderId, Location>, q: seq<Slot>, id: OrderId)
    requires IndexOk(slots, idx, {}) && InArena(slots, q) && id in idx && Has(Orders(slots, q), id)
    ensures var i := IndexOf(Orders(slots, q), id); i < |q| && q[i] == idx[id].slot
  {
    var i := IndexOf(Orders(slots, q), id);
    assert slots[q[i]].order.id == id;
  }

  /** Removing an id that only one side has takes out its one element. */
  lemma RemoveOne(v: Book, s: Side, id: OrderId)
    requires AtMostOne(v, id) && Has(Resting(v, s), id)
    ensures !HasStop(v, id) && Remove(v, id) == WithResting(v, s, Cut(Resting(v, s), IndexOf(Resting(v, s), id)))
  {
  }

  lemma FindStop(b: OrderBook, id: OrderId)
    requires b.Valid() && id in b.idIndex && IsStop(b.arena.slots[b.idIndex[id].slot].order.kind)
    ensures var x := b.idIndex[id].slot; var s := b.arena.slots[x].order.side;
      && HasStop(b.View(), id) && b.arena.slots[x].prev.None? && b.arena.slots[x].next.None?
      && exists k :: k in b.StopsOf(s) && x in b.StopsOf(s)[k]
  {
    hide Ladder, StopsOk, SlabOk, StaleFree, NoEmptyLevel, IndexOk, Covered, AllPending;
    Find(b, id);
    var x := b.idIndex[id].slot;
    var s := b.arena.slots[x].order.side;
    StopEntry(b.arena.slots, b.StopsOf(s), b.qs.Stops(s), s, x);
  }

  /** A pending stop is linked to nothing and filed in its stop map. */
  lemma StopEntry(slots: Slots, m: SM.Waiting, q: seq<Slot>, s: Side, x: Slot)
    requires StopsOk(slots, m, q, s) && x in q
    ensures x in slots && slots[x].prev.None? && slots[x].next.None?
    ensures exists k :: k in m && x in m[k]
  {
    hide StopsWF;
    SM.KeepMember(SM.Flatten(m), q, x);
    SM.FlattenMember(m, x);
    InSlots(slots, q, x);
  }

  /**
    Cancel. For a resting order and for an unknown id this is the reference cancel. For a pending stop the
    slot is freed while the stop map keeps naming it, which is exactly when the book is left dangling.
   */
  method ApplyCancel(b: OrderBook, id: OrderId, sq: nat) returns (out: seq<OutputEvent>)
    requires b.Valid()
    modifies b`asks, b`bids, b`arena, b`qs, b`idIndex
    ensures out == CancelOrder(old(b.View()), id, sq).events
    ensures !HasStop(old(b.View()), id) ==> b.Valid() && b.View() == CancelOrder(old(b.View()), id, sq).book
    ensures HasStop(old(b.View()), id) <==> Dangling(b)
    ensures HasStop(old(b.View()), id) ==>
      && id in old(b.idIndex) && old(b.idIndex)[id].slot in old(b.arena).slots
      && var loc := old(b.idIndex)[id];
         && b.idIndex == old(b.idIndex) - {id} && b.arena == old(b.arena).Remove(loc.slot)
         && b.LevelsOf(loc.side.Opposite()) == old(b.LevelsOf(b.idIndex[id].side.Opposite()))
         && b.LevelsOf(loc.side) == Struck(old(b.LevelsOf(b.idIndex[id].side)),
              Rank(loc.side, loc.price), loc.slot, old(b.arena).slots[loc.slot])
  {
    hide ThreadsOf, Covered, IndexOk, NoEmptyLevel, StaleFree, AllPending, Struck;
    Find(b, id);
    if id !in b.idIndex {
      ValidNotDangling(b);
      return [Rejected(id, UnknownId, sq)];
    }
    var loc := b.idIndex[id];
    if IsStop(b.arena.slots[loc.slot].order.kind) {
      FindStop(b, id);
      DropStop(b, id);
    } else {
      FindResting(b, id);
      DropResting(b, id);
      ValidNotDangling(b);
    }
    out := [Cancelled(id, sq)];
  }

  /** Strike a resting order from the index, its queue and the arena. */
  method DropResting(b: OrderBook, id: OrderId)
    requires b.Valid() && id in b.idIndex && !IsStop(b.arena.slots[b.idIndex[id].slot].order.kind)
    modifies b`asks, b`bids, b`arena, b`qs, b`idIndex
    ensures b.Valid() && b.View() == Remove(old(b.View()), id) && b.idIndex.Keys == old(b.idIndex.Keys) - {id}
  {
    hide Ladder, StopsOk, SlabOk, Covered, IndexOk, NoEmptyLevel, StaleFree, AllPending, Relinked, Unrepeated, InArena;
    hide Struck, IndexOf, RankOf, Remove, HasStop;
    FindResting(b, id);
    Find(b, id);
    ghost var a0, qs0, idx0 := b.arena, b.qs, b.idIndex;
    var loc := b.idIndex[id];
    ghost var i := IndexOf(Resting(b.View(), loc.side), id);
    ApartFrom(b.arena, b.bids, b.asks, b.stopBuys, b.stopSells, b.qs, loc.side, loc.slot);
    b.idIndex := b.idIndex - {id};
    var qty := b.arena.slots[loc.slot].order.remaining;
    b.RemoveSlot(loc.slot, loc.side, Rank(loc.side, loc.price), qty, Some(i));
    ghost var a1 := b.arena;
    b.arena := b.arena.Remove(loc.slot);
    RelinkFacts(a0, a1, qs0.Resting(loc.side), loc.slot, loc.slot);
    DropFiles(a0, a1, qs0, b.qs, idx0, loc.side, i);
    SlabRemove(a1, loc.slot);
    LooseFrame(a1, b.arena, b.bids, b.asks, b.stopBuys, b.stopSells, b.qs);
    StaleShrinks(a0.slots, b.arena.slots, b.stopBuys, b.stopBuys, b.qs.buyStops, b.qs.buyStops);
    StaleShrinks(a0.slots, b.arena.slots, b.stopSells, b.stopSells, b.qs.sellStops, b.qs.sellStops);
  }

  lemma DropFiles(a0: Slab, a1: Slab, qs0: Queues, qs1: Queues, idx0: map<OrderId, Location>, s: Side, i: nat)
    requires Covered(a0.slots, qs0, {}) && IndexOk(a0.slots, idx0, {})
    requires Relinked(a0, a1, qs0.Resting(s)) && i < |qs0.Resting(s)| && Unrepeated(qs0.Resting(s))
    requires qs1 == qs0.WithResting(s, Cut(qs0.Resting(s), i))
    requires var x := qs0.Resting(s)[i];
      x in a0.slots && x !in qs0.Resting(s.Opposite()) && x !in qs0.buyStops && x !in qs0.sellStops
    ensures var x := qs0.Resting(s)[i];
      && Loose(qs1, x)
      && Covered(a1.slots - {x}, qs1, {}) && IndexOk(a1.slots - {x}, idx0 - {a0.slots[x].order.id}, {})
  {
    hide Covered, IndexOk, Unrepeated, SameFiles;
    var x := qs0.Resting(s)[i];
    CutCovered(a0.slots, qs0, s, i, {});
    assert {} + {x} == {x};
    RelinkFacts(a0, a1, qs0.Resting(s), x, x);
    FilesFrame(a0.slots, a1.slots, qs1, idx0, {x}, {});
    LooseIn(a1.slots, qs1, {x}, x);
    FreeFiles(a1.slots, qs1, idx0, {x}, {}, x);
    assert {x} - {x} == {} && {} - {x} == {};
  }

  /** Freed slots and pruned keys make no new stale entries. */
  lemma StaleShrinks(a: Slots, a': Slots, m: SM.Waiting, m': SM.Waiting, q: seq<Slot>, q': seq<Slot>)
    requires StaleFree(a, m, q) && a'.Keys <= a.Keys
    requires forall k :: k in m' ==> k in m && m'[k] == m[k]
    requires forall x :: x in q && x !in q' ==> x !in a'
    ensures StaleFree(a', m', q')
  {
  }

  /** What the cancel code does to a pending stop. */
  method DropStop(b: OrderBook, id: OrderId)
    requires b.Threads() && b.NoEmpty() && id in b.idIndex
    requires b.idIndex[id].slot in b.arena.slots
    requires b.arena.slots[b.idIndex[id].slot].prev.None? && b.arena.slots[b.idIndex[id].slot].next.None?
    requires exists s: Side, k :: k in b.StopsOf(s) && b.idIndex[id].slot in b.StopsOf(s)[k]
    modifies b`asks, b`bids, b`arena, b`qs, b`idIndex
    ensures Dangling(b)
    ensures var loc := old(b.idIndex)[id];
      && b.idIndex == old(b.idIndex) - {id} && b.arena == old(b.arena).Remove(loc.slot)
      && b.LevelsOf(loc.side.Opposite()) == old(b.LevelsOf(b.idIndex[id].side.Opposite()))
      && b.LevelsOf(loc.side) == Struck(old(b.LevelsOf(b.idIndex[id].side)),
           Rank(loc.side, loc.price), loc.slot, old(b.arena).slots[loc.slot])
  {
    hide ThreadsOf, NoEmptyLevel, Struck;
    var loc := b.idIndex[id];
    ghost var s: Side, k :| k in b.StopsOf(s) && loc.slot in b.StopsOf(s)[k];
    b.idIndex := b.idIndex - {id};
    var qty := b.arena.slots[loc.slot].order.remaining;
    b.RemoveSlot(loc.slot, loc.side, Rank(loc.side, loc.price), qty, None);
    b.arena := b.arena.Remove(loc.slot);
    assert k in b.StopsOf(s) && loc.slot in b.StopsOf(s)[k] && loc.slot !in b.arena.slots;
  }

  // ---------------------------------------------------------------- placing an order

  /** Everything about a book but its stale stop entries. */
  ghost predicate Filed(b: OrderBook)
    reads b
  {
    b.Threads() && b.NoEmpty() && Covered(b.arena.slots, b.qs, {}) && IndexOk(b.arena.slots, b.idIndex, {})
  }

  method EnterTaker(b: OrderBook, o: Order) returns (slot: Slot)
    requires Filed(b)
    modifies b`arena
    ensures Taking(b, slot) && slot !in old(b.arena.slots)
    ensures b.arena.slots.Keys == old(b.arena.slots.Keys) + {slot} && b.arena.slots[slot].order == o
    ensures forall x :: x in old(b.arena.slots) ==> b.arena.slots[x] == old(b.arena.slots)[x]
    ensures b.View() == old(b.View())
  {
    hide Ladder, StopsOk, SlabOk;
    ghost var a0 := b.arena;
    slot := b.arena.NextSlot();
    b.arena := b.arena.Insert(Node(o, None, None));
    SlabInsert(a0, Node(o, None, None));
    NewIsLoose(a0, b.bids, b.asks, b.stopBuys, b.stopSells, b.qs, slot);
    LooseFrame(a0, b.arena, b.bids, b.asks, b.stopBuys, b.stopSells, b.qs);
  }

  lemma NewIsLoose(a: Slab, bids: Levels, asks: Levels, buys: SM.Waiting, sells: SM.Waiting, qs: Queues, x: Slot)
    requires ThreadsOf(a, bids, asks, buys, sells, qs) && x !in a.slots
    ensures Loose(qs, x)
  {
    hide Ladder, StopsOk, SlabOk;
  }

  method LeaveTaker(b: OrderBook, slot: Slot)
    requires Taking(b, slot)
    modifies b`arena
    ensures Filed(b) && b.View() == old(b.View()) && b.arena.slots == old(b.arena.slots) - {slot}
  {
    hide Ladder, StopsOk, SlabOk, Covered, IndexOk;
    ghost var a0 := b.arena;
    b.arena := b.arena.Remove(slot);
    SlabRemove(a0, slot);
    LooseIn(a0.slots, b.qs, {slot}, slot);
    LooseFrame(a0, b.arena, b.bids, b.asks, b.stopBuys, b.stopSells, b.qs);
    FreeFiles(a0.slots, b.qs, b.idIndex, {slot}, {slot}, slot);
    assert {slot} - {slot} == {};
  }

  /** What is left of a limit order is indexed and goes to the tail of its level. */
  method RestTaker(b: OrderBook, slot: Slot)
    requires Taking(b, slot)
    requires var o := b.arena.slots[slot].order;
      && o.kind.Limit? && 0 < o.remaining <= o.qty && o.price > 0 && o.id !in b.idIndex
      && SumAt(Resting(b.View(), o.side), RankOf(o)) + o.remaining <= U64_MAX
    modifies b`asks, b`bids, b`arena, b`qs, b`idIndex
    ensures Filed(b)
    ensures var o := old(b.arena.slots[slot].order);
      b.View() == WithResting(old(b.View()), o.side, Insert(Resting(old(b.View()), o.side), o))
    ensures b.qs.buyStops == old(b.qs.buyStops) && b.qs.sellStops == old(b.qs.sellStops)
  {
    hide Ladder, StopsOk, SlabOk, Covered, IndexOk, NoEmptyLevel, Relinked;
    ghost var a0, qs0, idx0 := b.arena, b.qs, b.idIndex;
    var o := b.arena.slots[slot].order;
    ghost var p := Pos(Resting(b.View(), o.side), RankOf(o));
    LooseIn(a0.slots, qs0, {slot}, slot);
    NotIndexed(a0.slots, idx0, {slot}, qs0.Resting(o.side), o.id);
    b.idIndex := b.idIndex[o.id := Location(o.price, o.side, slot)];
    b.InsertResting(slot, true);
    RestFiles(a0, b.arena, qs0, b.qs, idx0, o, slot, p);
  }

  lemma RestFiles(
    a0: Slab, a1: Slab, qs0: Queues, qs1: Queues, idx0: map<OrderId, Location>, o: Order, slot: Slot, p: nat)
    requires slot in a0.slots && a0.slots[slot].order == o && !IsStop(o.kind) && o.id !in idx0
    requires Covered(a0.slots, qs0, {slot}) && IndexOk(a0.slots, idx0, {slot})
    requires Relinked(a0, a1, [slot] + qs0.Resting(o.side)) && p <= |qs0.Resting(o.side)|
    requires qs1 == qs0.WithResting(o.side, Put(qs0.Resting(o.side), p, slot))
    ensures Covered(a1.slots, qs1, {}) && IndexOk(a1.slots, idx0[o.id := Location(o.price, o.side, slot)], {})
  {
    hide Covered, Relinked;
    var q := qs0.Resting(o.side);
    PutMembers(q, p, slot);
    PutCovered(a0.slots, qs0, o.side, Put(q, p, slot), slot, {slot});
    assert {slot} - {slot} == {};
    RelinkFacts(a0, a1, [slot] + q, slot, slot);
    FilesFrame(a0.slots, a1.slots, qs1, idx0[o.id := Location(o.price, o.side, slot)], {}, {});
  }

  lemma PutMembers(q: seq<Slot>, p: nat, x: Slot)
    requires p <= |q|
    ensures forall y :: y in Put(q, p, x) <==> y in q || y == x
  {
    assert q == q[..p] + q[p..];
  }

  /** The middle part of a new order: accept, check fill-or-kill, match, rest or discard the remainder. */
  method PlaceOrder(b: OrderBook, no: NewOrder, sq: nat, ts: nat) returns (settled: bool, out: seq<OutputEvent>)
    requires Filed(b) && Admitted(b.View(), no) && !IsStop(no.kind) && no.id !in b.idIndex && Fits(b.View(), no)
    modifies b`asks, b`bids, b`arena, b`qs, b`idIndex, b`lastTrade
    ensures Filed(b)
    ensures var p := Place(old(b.View()), no, sq, ts); b.View() == p.book && out == p.events && settled == p.settled
    ensures b.qs.buyStops == old(b.qs.buyStops) && b.qs.sellStops == old(b.qs.sellStops)
    ensures !no.kind.Limit? ==> Kept(old(b.arena.slots), b.arena.slots)
  {
    hide ThreadsOf, Covered, IndexOk, NoEmptyLevel, Match, Kept, SumAt, SumWithin, Has, Insert;
    settled, out := true, [Accepted(no.id, sq)];
    if no.kind.Fok? {
      var available := AvailableQty(b, no.side, no.price);
      if available < no.qty {
        KeptSelf(b.arena.slots);
        return false, out + [Rejected(no.id, FokUnfillable, sq)];
      }
    }
    ghost var slots0 := b.arena.slots;
    var slot := EnterTaker(b,
      Order(no.id, no.symbol, no.side, no.kind, no.tif, no.price, no.stopPrice, no.qty, no.qty, sq, ts));
    ghost var slots1 := b.arena.slots;
    var filled, evs := MatchOrder(b, slot, sq, ts);
    out := out + evs;
    var remaining := b.arena.slots[slot].order.remaining;
    ghost var slots2 := b.arena.slots;
    if filled > 0 && remaining == 0 {
      out := out + [Filled(no.id, sq)];
      LeaveTaker(b, slot);
      assert b.idIndex - {no.id} == b.idIndex;
      b.idIndex := b.idIndex - {no.id};
      KeptWithout(slots0, slots1, slots2, slot);
    } else {
      if filled > 0 {
        out := out + [PartiallyFilled(no.id, filled, remaining, sq)];
      }
      if no.kind.Limit? {
        RestTaker(b, slot);
      } else {
        LeaveTaker(b, slot);
        out := out + [Cancelled(no.id, sq)];
        KeptWithout(slots0, slots1, slots2, slot);
      }
    }
  }

  lemma KeptWithout(a: Slots, b: Slots, c: Slots, slot: Slot)
    requires slot !in a && b.Keys == a.Keys + {slot} && (forall x :: x in a ==> b[x] == a[x]) && Kept(b, c)
    ensures Kept(a, c - {slot})
  {
  }
}
