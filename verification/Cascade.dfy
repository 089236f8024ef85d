/**
  New orders, pending stops and the cascade on the linked book, and with them the whole of apply: every
  command in scope takes the reference book and the event list exactly where module Spec takes them.
 */
module Cascade {
  import opened Types
  import opened PriceTime
  import opened Spec
  import opened Invariants
  import opened Scope
  import opened Levels
  import opened BookState
  import opened Matcher
  import SM = StopMap

  // ---------------------------------------------------------------- pending stops

  /** A new entry in a stop map without stale entries. */
  lemma PushStop(slots: Slots, m: SM.Waiting, q: seq<Slot>, s: Side, slot: Slot, o: Order)
    requires StopsOk(slots, m, q, s) && AllPending(m, q) && slot !in slots && !Has(Orders(slots, q), o.id)
    requires o.side == s && IsStop(o.kind) && 0 < o.remaining == o.qty && (o.kind.StopLimit? ==> o.price > 0)
    ensures var k := RankOf(o); var p := Pos(Orders(slots, q), k);
      var slots' := slots[slot := Node(o, None, None)]; var q' := Put(q, p, slot);
      && StopsOk(slots', SM.Push(m, k, slot), q', s) && AllPending(SM.Push(m, k, slot), q')
      && Orders(slots', q') == Insert(Orders(slots, q), o)
  {
    hide SM.Flatten, SM.Push, SM.Keep, Sorted, Distinct, Insert, Pos;
    var os := Orders(slots, q);
    var k := RankOf(o);
    var p := Pos(os, k);
    var q' := Put(q, p, slot);
    PushListed(slots, m, q, s, k, slot);
    SM.KeepAll(q', q');
    PutOrders(slots, q, p, slot, o);
    PushKeyed(slots, m, q, s, slot, o, p);
    InsertIsPut(os, o);
    StopsInsert(os, s, o);
  }

  lemma InsertIsPut(os: seq<Order>, o: Order)
    ensures Put(os, Pos(os, RankOf(o)), o) == Insert(os, o)
  {
  }

  lemma PushListed(slots: Slots, m: SM.Waiting, q: seq<Slot>, s: Side, k: int, slot: Slot)
    requires StopsOk(slots, m, q, s) && AllPending(m, q)
    ensures SM.Flatten(SM.Push(m, k, slot)) == Put(q, Pos(Orders(slots, q), k), slot)
  {
    hide SM.Flatten, SM.UpTo, SM.Push, StopsWF, SM.Retain, AllPending;
    var upto, above := SM.UpTo(m, k), SM.Flatten(SM.Retain(m, k));
    AllListed(m, q);
    SM.FlattenSplit(m, k);
    SplitAt(slots, m, q, s, k);
    SM.FlattenPush(m, k, slot);
    assert q == upto + above;
    assert q[..|upto|] == upto && q[|upto|..] == above;
  }

  lemma PushKeyed(slots: Slots, m: SM.Waiting, q: seq<Slot>, s: Side, slot: Slot, o: Order, p: nat)
    requires StopsOk(slots, m, q, s) && AllPending(m, q) && slot !in slots && p <= |q|
    ensures var m' := SM.Push(m, RankOf(o), slot); var q' := Put(q, p, slot);
      var slots' := slots[slot := Node(o, None, None)];
      && InArena(slots', q') && AllPending(m', q')
      && forall k, x :: k in m' && x in m'[k] && x in q' ==> RankOf(slots'[x].order) == k
  {
    hide SM.Flatten, SM.Keep, StopsWF;
    var m' := SM.Push(m, RankOf(o), slot);
    PutMembers(q, p, slot);
    forall k, x | k in m' && x in m'[k]
      ensures x in Put(q, p, slot) && RankOf(slots[slot := Node(o, None, None)][x].order) == k
    {
      if x == slot {
        if k in m && x in m[k] { InSlots(slots, q, x); }
      } else {
        assert k in m && x in m[k];
        InSlots(slots, q, x);
      }
    }
  }

  lemma PutOrders(slots: Slots, q: seq<Slot>, p: nat, slot: Slot, o: Order)
    requires InArena(slots, q) && slot !in slots && p <= |q|
    ensures var slots' := slots[slot := Node(o, None, None)];
      && InArena(slots', Put(q, p, slot)) && Orders(slots', Put(q, p, slot)) == Put(Orders(slots, q), p, o)
      && forall i :: 0 <= i <= |q| ==>
         slots'[Put(q, p, slot)[i]] == if i == p then Node(o, None, None) else slots[q[if i < p then i else i - 1]]
  {
    var slots' := slots[slot := Node(o, None, None)];
    var q' := Put(q, p, slot);
    forall i | 0 <= i < |q'|
      ensures q'[i] in slots' && slots'[q'[i]] ==
        if i == p then Node(o, None, None) else slots[q[if i < p then i else i - 1]]
    {
      if i != p { assert q'[i] == q[if i < p then i else i - 1]; }
    }
  }

  /** Without stale entries the stop map lists exactly the queue. */
  lemma AllListed(m: SM.Waiting, q: seq<Slot>)
    requires AllPending(m, q) && SM.Keep(SM.Flatten(m), q) == q
    ensures SM.Flatten(m) == q
  {
    hide SM.Flatten;
    forall x | x in SM.Flatten(m) ensures x in q { SM.FlattenMember(m, x); }
    SM.KeepAll(SM.Flatten(m), q);
  }

  /** The live entries up to rank k are the leading orders up to rank k. */
  lemma SplitAt(slots: Slots, m: SM.Waiting, q: seq<Slot>, s: Side, k: int)
    requires StopsOk(slots, m, q, s)
    ensures SM.Keep(SM.UpTo(m, k), q) == q[..Pos(Orders(slots, q), k)]
    ensures AllPending(m, q) ==> |SM.UpTo(m, k)| == Pos(Orders(slots, q), k)
  {
    hide SM.Flatten, SM.UpTo, SM.Keep, StopsWF, Pos, InArena;
    var upto, above := SM.UpTo(m, k), SM.Flatten(SM.Retain(m, k));
    var lo, hi := SM.Keep(upto, q), SM.Keep(above, q);
    SM.FlattenSplit(m, k);
    SM.KeepConcat(upto, above, q);
    forall x | x in q
      ensures x in slots && (x in lo ==> RankOf(slots[x].order) <= k) && (x in hi ==> k < RankOf(slots[x].order))
    {
      EntryRank(slots, m, q, s, k, x);
    }
    SplitPos(slots, q, lo, hi, k);
    if AllPending(m, q) {
      UpToPending(m, q, k);
      SM.KeepAll(upto, q);
    }
  }

  lemma SplitPos(slots: Slots, q: seq<Slot>, lo: seq<Slot>, hi: seq<Slot>, k: int)
    requires InArena(slots, q) && q == lo + hi
    requires forall x :: x in q ==>
      x in slots && (x in lo ==> RankOf(slots[x].order) <= k) && (x in hi ==> k < RankOf(slots[x].order))
    ensures lo == q[..Pos(Orders(slots, q), k)]
  {
    hide Pos;
    forall i | 0 <= i < |lo|
      ensures RankOf(Orders(slots, q)[i]) <= k
    {
      assert q[i] == lo[i] && lo[i] in lo && q[i] in q;
    }
    if |lo| < |q| { assert q[|lo|] == hi[0] && hi[0] in hi && q[|lo|] in q; }
    PosIs(Orders(slots, q), k, |lo|);
  }

  /** A live entry is filed under its own rank. */
  lemma EntryRank(slots: Slots, m: SM.Waiting, q: seq<Slot>, s: Side, k: int, x: Slot)
    requires StopsOk(slots, m, q, s) && x in q
    ensures x in slots
    ensures x in SM.Keep(SM.UpTo(m, k), q) ==> RankOf(slots[x].order) <= k
    ensures x in SM.Keep(SM.Flatten(SM.Retain(m, k)), q) ==> k < RankOf(slots[x].order)
  {
    hide SM.Flatten, SM.UpTo, SM.Keep, StopsWF;
    InSlots(slots, q, x);
    SM.KeepMember(SM.UpTo(m, k), q, x);
    SM.UpToMember(m, k, x);
    SM.KeepMember(SM.Flatten(SM.Retain(m, k)), q, x);
    SM.FlattenMember(SM.Retain(m, k), x);
  }

  lemma UpToPending(m: SM.Waiting, q: seq<Slot>, k: int)
    requires AllPending(m, q)
    ensures forall x :: x in SM.UpTo(m, k) ==> x in q
  {
    hide SM.UpTo;
    forall x | x in SM.UpTo(m, k) ensures x in q { SM.UpToMember(m, k, x); }
  }

  /** A stop leaves its queue; its entry in the stop map is stale from then on. */
  lemma CutStop(slots: Slots, m: SM.Waiting, q: seq<Slot>, s: Side, i: nat)
    requires StopsOk(slots, m, q, s) && i < |q|
    ensures StopsOk(slots - {q[i]}, m, Cut(q, i), s)
    ensures Orders(slots - {q[i]}, Cut(q, i)) == Cut(Orders(slots, q), i)
  {
    hide SM.Flatten, SM.Keep, Sorted;
    var q' := Cut(q, i);
    var slots' := slots - {q[i]};
    var os := Orders(slots, q);
    DistinctSlots(slots, q);
    CutMembers(q, i);
    forall j | 0 <= j < |q'| ensures q'[j] in slots' && slots'[q'[j]] == slots[q[if j < i then j else j + 1]] {
      assert q'[j] == q[if j < i then j else j + 1];
      Unequal(q, if j < i then j else j + 1, i);
    }
    SM.KeepTwice(SM.Flatten(m), q, q');
    SM.KeepCut(q, i);
    DropOrdered(os, i);
    assert Orders(slots', q') == Cut(os, i);
  }

  /** File a new stop. */
  method AddStop(b: OrderBook, o: Order)
    requires b.Valid() && IsStop(o.kind) && 0 < o.remaining == o.qty && (o.kind.StopLimit? ==> o.price > 0)
    requires o.id !in b.idIndex
    modifies b`arena, b`idIndex, b`stopBuys, b`stopSells, b`qs
    ensures b.Valid()
    ensures b.View() == WithStops(old(b.View()), o.side, Insert(Stops(old(b.View()), o.side), o))
  {
    hide Ladder, StopsOk, SlabOk, StaleFree, AllPending, NoEmptyLevel, IndexOk, Covered;
    ghost var a0, qs0, idx0 := b.arena, b.qs, b.idIndex;
    var s, k := o.side, RankOf(o);
    ghost var p := Pos(Stops(b.View(), s), k);
    var slot := b.arena.NextSlot();
    b.arena := b.arena.Insert(Node(o, None, None));
    SlabInsert(a0, Node(o, None, None));
    NotIndexed(a0.slots, idx0, {}, qs0.Stops(s), o.id);
    PushStop(a0.slots, b.StopsOf(s), qs0.Stops(s), s, slot, o);
    NewIsLoose(a0, b.bids, b.asks, b.stopBuys, b.stopSells, qs0, slot);
    LooseFrame(a0, b.arena, b.bids, b.asks, b.stopBuys, b.stopSells, qs0);
    b.idIndex := b.idIndex[o.id := Location(o.stopPrice, o.side, slot)];
    if s.Buy? {
      b.stopBuys := SM.Push(b.stopBuys, k, slot);
    } else {
      b.stopSells := SM.Push(b.stopSells, k, slot);
    }
    b.qs := qs0.WithStops(s, Put(qs0.Stops(s), p, slot));
    StopFiles(a0.slots, qs0, idx0, o, slot, p);
    PendingIsFree(b.arena.slots, b.stopBuys, b.qs.buyStops);
    PendingIsFree(b.arena.slots, b.stopSells, b.qs.sellStops);
  }

  lemma PendingIsFree(slots: Slots, m: SM.Waiting, q: seq<Slot>)
    requires AllPending(m, q)
    ensures StaleFree(slots, m, q)
  {
  }

  lemma StopFiles(a: Slots, qs: Queues, idx: map<OrderId, Location>, o: Order, slot: Slot, p: nat)
    requires Covered(a, qs, {}) && IndexOk(a, idx, {}) && slot !in a && o.id !in idx && IsStop(o.kind)
      && p <= |qs.Stops(o.side)|
    ensures var a' := a[slot := Node(o, None, None)];
      && Covered(a', qs.WithStops(o.side, Put(qs.Stops(o.side), p, slot)), {})
      && IndexOk(a', idx[o.id := Location(o.stopPrice, o.side, slot)], {})
  {
    hide Covered, IndexOk, Put;
    PutMembers(qs.Stops(o.side), p, slot);
    StopCovered(a, qs, o, slot, Put(qs.Stops(o.side), p, slot));
    StopIndexed(a, idx, o, slot);
  }

  lemma StopCovered(a: Slots, qs: Queues, o: Order, slot: Slot, q: seq<Slot>)
    requires Covered(a, qs, {}) && slot !in a && IsStop(o.kind)
    requires forall y :: y in q <==> y in qs.Stops(o.side) || y == slot
    ensures Covered(a[slot := Node(o, None, None)], qs.WithStops(o.side, q), {})
  {
    var b := a[slot := Node(o, None, None)];
    forall x | x in b ensures x in qs.WithStops(o.side, q).HomeOf(b[x].order) {
      if x != slot { assert x in qs.HomeOf(a[x].order); }
    }
  }

  lemma StopIndexed(a: Slots, idx: map<OrderId, Location>, o: Order, slot: Slot)
    requires IndexOk(a, idx, {}) && slot !in a && o.id !in idx && IsStop(o.kind)
    ensures IndexOk(a[slot := Node(o, None, None)], idx[o.id := Location(o.stopPrice, o.side, slot)], {})
  {
  }

  /** A triggered stop leaves the index, the arena and its queue; the stop map still names its slot. */
  method ReleaseStop(b: OrderBook, s: Side, x: Slot)
    requires b.Sound() && x in b.qs.Stops(s)
    modifies b`arena, b`idIndex, b`qs
    ensures b.Sound()
    ensures x in old(b.arena.slots) && x !in b.arena.slots && Kept(old(b.arena.slots), b.arena.slots)
    ensures var id := old(b.arena.slots)[x].order.id;
      && Lookup(Stops(old(b.View()), s), id) == Some(old(b.arena.slots)[x].order)
      && b.View() == WithStops(old(b.View()), s, Without(Stops(old(b.View()), s), id))
      && b.idIndex.Keys == old(b.idIndex.Keys) - {id}
    ensures forall t: Side, y :: y in b.qs.Stops(t) <==> y in old(b.qs.Stops(t)) && y != x
  {
    hide Ladder, StopsOk, SlabOk, StaleFree, NoEmptyLevel, IndexOk, Covered, Kept, Unrepeated, InArena, Lookup,
      Without, Has;
    ghost var a0, qs0, idx0 := b.arena, b.qs, b.idIndex;
    ghost var i := FindPending(b, s, x);
    var id := b.arena.slots[x].order.id;
    b.idIndex := b.idIndex - {id};
    b.arena := b.arena.Remove(x);
    b.qs := qs0.WithStops(s, Cut(qs0.Stops(s), i));
    ReleaseThreads(a0, b.bids, b.asks, b.stopBuys, b.stopSells, qs0, s, i);
    ReleaseFiles(a0.slots, qs0, idx0, s, i);
    CutMembers(qs0.Stops(s), i);
    StaleShrinks(a0.slots, b.arena.slots, b.stopBuys, b.stopBuys, qs0.buyStops, b.qs.buyStops);
    StaleShrinks(a0.slots, b.arena.slots, b.stopSells, b.stopSells, qs0.sellStops, b.qs.sellStops);
    KeptLess(a0.slots, x);
  }

  lemma KeptLess(a: Slots, x: Slot)
    ensures Kept(a, a - {x})
  {
  }

  lemma FindPending(b: OrderBook, s: Side, x: Slot) returns (i: nat)
    requires b.Sound() && x in b.qs.Stops(s)
    ensures i < |b.qs.Stops(s)| && b.qs.Stops(s)[i] == x && x in b.arena.slots && Unrepeated(b.qs.Stops(s))
    ensures x !in b.qs.Stops(s.Opposite())
    ensures var o := b.arena.slots[x].order; var os := Stops(b.View(), s);
      && o.side == s && IsStop(o.kind) && i == IndexOf(os, o.id) && os[i] == o
      && Without(os, o.id) == Cut(os, i) && Lookup(os, o.id) == Some(o)
      && 0 < o.remaining == o.qty
  {
    hide Ladder, SlabOk, StopsOk, StaleFree, NoEmptyLevel, IndexOk, Covered;
    var q := b.qs.Stops(s);
    i :| 0 <= i < |q| && q[i] == x;
    PendingAt(b.arena.slots, b.StopsOf(s), q, s, i);
    StopQueuesApart(b.arena, b.stopBuys, b.stopSells, b.qs);
  }

  lemma PendingAt(slots: Slots, m: SM.Waiting, q: seq<Slot>, s: Side, i: nat)
    requires StopsOk(slots, m, q, s) && i < |q|
    ensures q[i] in slots && Unrepeated(q)
    ensures var o := slots[q[i]].order; var os := Orders(slots, q);
      && o.side == s && IsStop(o.kind) && i == IndexOf(os, o.id) && os[i] == o
      && Without(os, o.id) == Cut(os, i) && Lookup(os, o.id) == Some(o)
      && 0 < o.remaining == o.qty
  {
    hide SM.Keep, SM.Flatten, Sorted;
    DistinctSlots(slots, q);
    LookupMember(Orders(slots, q), i);
    var j := IndexOf(Orders(slots, q), slots[q[i]].order.id);
    assert j >= i;
  }

  lemma ReleaseThreads(
    a: Slab, bids: Levels, asks: Levels, buys: SM.Waiting, sells: SM.Waiting, qs: Queues, s: Side, i: nat)
    requires ThreadsOf(a, bids, asks, buys, sells, qs) && i < |qs.Stops(s)|
    ensures var x := qs.Stops(s)[i]; var qs' := qs.WithStops(s, Cut(qs.Stops(s), i));
      && ThreadsOf(a.Remove(x), bids, asks, buys, sells, qs')
      && forall last ::
         ViewOf(a.Remove(x), qs', last) == WithStops(ViewOf(a, qs, last), s, Cut(Orders(a.slots, qs.Stops(s)), i))
  {
    hide Ladder, StopsOk, SlabOk;
    var q := qs.Stops(s);
    var x := q[i];
    assert x in q;
    AllApart(a, bids, asks, buys, sells, qs, Buy);
    AllApart(a, bids, asks, buys, sells, qs, Sell);
    StopQueuesApart(a, buys, sells, qs);
    SlabRemove(a, x);
    LadderFrame(a.slots, a.slots - {x}, bids, qs.bids, Buy);
    LadderFrame(a.slots, a.slots - {x}, asks, qs.asks, Sell);
    if s.Buy? {
      CutStop(a.slots, buys, qs.buyStops, Buy, i);
      StopsFrame(a.slots, a.slots - {x}, sells, qs.sellStops, Sell);
    } else {
      CutStop(a.slots, sells, qs.sellStops, Sell, i);
      StopsFrame(a.slots, a.slots - {x}, buys, qs.buyStops, Buy);
    }
  }

  lemma ReleaseFiles(a: Slots, qs: Queues, idx: map<OrderId, Location>, s: Side, i: nat)
    requires Covered(a, qs, {}) && IndexOk(a, idx, {}) && i < |qs.Stops(s)| && Unrepeated(qs.Stops(s))
      && qs.Stops(s)[i] in a
    ensures var x := qs.Stops(s)[i]; var qs' := qs.WithStops(s, Cut(qs.Stops(s), i));
      && Covered(a - {x}, qs', {}) && IndexOk(a - {x}, idx - {a[x].order.id}, {})
  {
    var x := qs.Stops(s)[i];
    var qs' := qs.WithStops(s, Cut(qs.Stops(s), i));
    CutMembers(qs.Stops(s), i);
    forall y | y in a - {x} ensures y in qs'.HomeOf((a - {x})[y].order) {
      assert y in qs.HomeOf(a[y].order);
    }
  }

  // ---------------------------------------------------------------- the cascade

  /** A stop map only loses keys, its queue only loses orders, and no entry goes stale but those fired. */
  ghost predicate Tidy(m: SM.Waiting, q: seq<Slot>, m': SM.Waiting, q': seq<Slot>, fired: seq<Slot>) {
    && (forall k :: k in m' ==> k in m && m'[k] == m[k])
    && (forall x :: x in q' ==> x in q)
    && (forall k, x :: k in m' && x in m'[k] && x in q ==> x in q' || x in fired)
  }

  lemma TidySelf(m: SM.Waiting, q: seq<Slot>)
    ensures Tidy(m, q, m, q, [])
  {
  }

  lemma TidyTwice(
    m0: SM.Waiting, q0: seq<Slot>, m1: SM.Waiting, q1: seq<Slot>, m2: SM.Waiting, q2: seq<Slot>,
    f: seq<Slot>, g: seq<Slot>, h: seq<Slot>)
    requires Tidy(m0, q0, m1, q1, f) && Tidy(m1, q1, m2, q2, g)
    requires forall x :: x in f || x in g ==> x in h
    ensures Tidy(m0, q0, m2, q2, h)
  {
  }

  lemma TidyPending(m: SM.Waiting, q: seq<Slot>, m': SM.Waiting, q': seq<Slot>)
    requires Tidy(m, q, m', q', []) && AllPending(m, q)
    ensures AllPending(m', q')
  {
  }

  /** The ids of the slots of xs that were pending in q. */
  function Called(slots: Slots, xs: seq<Slot>, q: seq<Slot>): seq<OrderId> {
    if xs == [] then []
    else (if xs[0] in q && xs[0] in slots then [slots[xs[0]].order.id] else []) + Called(slots, xs[1..], q)
  }

  lemma {:induction false} CalledIs(slots: Slots, xs: seq<Slot>, q: seq<Slot>)
    requires InArena(slots, q)
    ensures var ys := SM.Keep(xs, q);
      |Called(slots, xs, q)| == |ys| && forall i :: 0 <= i < |ys| ==>
        ys[i] in slots && Called(slots, xs, q)[i] == slots[ys[i]].order.id
  {
    hide SM.Keep, Called;
    CalledStep(slots, xs, q);
    if xs != [] {
      CalledIs(slots, xs[1..], q);
      var ys, ids := SM.Keep(xs[1..], q), Called(slots, xs[1..], q);
      if xs[0] in q {
        var id := slots[xs[0]].order.id;
        forall i | 0 < i <= |ys| ensures ([xs[0]] + ys)[i] == ys[i - 1] && ([id] + ids)[i] == ids[i - 1] {
        }
      }
    }
  }

  lemma CalledStep(slots: Slots, xs: seq<Slot>, q: seq<Slot>)
    requires InArena(slots, q)
    ensures xs == [] ==> SM.Keep(xs, q) == [] && Called(slots, xs, q) == []
    ensures xs != [] && xs[0] in q ==>
      && xs[0] in slots && SM.Keep(xs, q) == [xs[0]] + SM.Keep(xs[1..], q)
      && Called(slots, xs, q) == [slots[xs[0]].order.id] + Called(slots, xs[1..], q)
    ensures xs != [] && xs[0] !in q ==>
      SM.Keep(xs, q) == SM.Keep(xs[1..], q) && Called(slots, xs, q) == Called(slots, xs[1..], q)
  {
  }

  lemma TriggeredCalled(b: OrderBook, s: Side, last: Price)
    requires b.Threads()
    ensures Triggered(b.View(), s, last)
         == Called(b.arena.slots, SM.UpTo(b.StopsOf(s), Rank(s.Opposite(), last)), b.qs.Stops(s))
  {
    hide Ladder, StopsOk, SlabOk, SM.UpTo, SM.Keep, Called;
    var k := Rank(s.Opposite(), last);
    var upto := SM.UpTo(b.StopsOf(s), k);
    var q := b.qs.Stops(s);
    CalledIs(b.arena.slots, upto, q);
    SplitAt(b.arena.slots, b.StopsOf(s), q, s, k);
  }

  /** A slot that was pending is pending still, with the same order, or it is free and its id is pending no more. */
  lemma StillPending(slots0: Slots, qs0: Queues, idx0: map<OrderId, Location>, b: OrderBook, s: Side, x: Slot)
    requires Covered(slots0, qs0, {}) && IndexOk(slots0, idx0, {}) && b.Sound() && Kept(slots0, b.arena.slots)
    requires x in slots0 && slots0[x].order.side == s && IsStop(slots0[x].order.kind)
    ensures x in b.arena.slots ==> b.arena.slots[x].order == slots0[x].order && x in b.qs.Stops(s)
    ensures x !in b.arena.slots ==> !Has(Stops(b.View(), s), slots0[x].order.id)
  {
    hide Ladder, StopsOk, SlabOk, StaleFree, NoEmptyLevel;
    var q := b.qs.Stops(s);
    var id := slots0[x].order.id;
    forall y | y in b.arena.slots && b.arena.slots[y].order.id == id ensures y == x {
      assert SameFile(slots0[y].order, b.arena.slots[y].order);
      assert idx0[id].slot == x && idx0[slots0[y].order.id].slot == y;
    }
    var i := IndexOf(Stops(b.View(), s), id);
    if i < |q| {
      assert b.arena.slots[q[i]].order.id == id;
    }
  }

  function Then(es: seq<OutputEvent>, o: Outcome): Outcome {
    Outcome(o.book, es + o.events)
  }

  lemma ThenTwice(es: seq<OutputEvent>, fs: seq<OutputEvent>, o: Outcome)
    ensures Then(es, Then(fs, o)) == Then(es + fs, o)
  {
  }

  /** Release one triggered stop and submit it as the order it becomes. */
  method FireOne(b: OrderBook, s: Side, x: Slot, sq: nat, ts: nat, ghost rest: seq<OrderId>)
    returns (out: seq<OutputEvent>)
    requires b.Sound() && x in b.qs.Stops(s) && x in b.arena.slots
    requires FireCalm(b.View(), s, [b.arena.slots[x].order.id] + rest, sq, ts)
    modifies b`asks, b`bids, b`arena, b`qs, b`idIndex, b`lastTrade, b`stopBuys, b`stopSells
    ensures b.Sound() && x !in b.arena.slots && Kept(old(b.arena.slots), b.arena.slots)
    ensures Tidy(old(b.stopBuys), old(b.qs.buyStops), b.stopBuys, b.qs.buyStops, [x])
    ensures Tidy(old(b.stopSells), old(b.qs.sellStops), b.stopSells, b.qs.sellStops, [x])
    ensures Pending(b.View()) < Pending(old(b.View()))
    ensures FireAll(old(b.View()), s, [old(b.arena.slots)[x].order.id] + rest, sq, ts)
      == Then(out, FireAll(b.View(), s, rest, sq, ts))
    ensures FireCalm(b.View(), s, rest, sq, ts)
    decreases Pending(b.View()), 0
  {
    hide ThreadsOf, StaleFree, NoEmptyLevel, IndexOk, Covered, Kept, Tidy, SubmitNew, ViewOf, Calm;
    ghost var v0, slots0 := b.View(), b.arena.slots;
    ghost var i := FindPending(b, s, x);
    var order := b.arena.slots[x].order;
    assert ([order.id] + rest)[1..] == rest;
    ReleaseStop(b, s, x);
    ghost var v1, slots1 := b.View(), b.arena.slots;
    ghost var buys1, sells1, qs1 := b.stopBuys, b.stopSells, b.qs;
    Find(b, order.id);
    var kind := if order.kind.StopMarket? then Market else Limit;
    var no := NewOrder(order.id, order.symbol, order.side, kind, order.tif, order.price, 0, order.remaining);
    out := ApplyNew(b, no, sq, ts);
    KeptTwice(slots0, slots1, b.arena.slots);
    ReleaseTidy(old(b.stopBuys), old(b.qs.buyStops), qs1.buyStops, x, b.stopBuys, b.qs.buyStops);
    ReleaseTidy(old(b.stopSells), old(b.qs.sellStops), qs1.sellStops, x, b.stopSells, b.qs.sellStops);
  }

  lemma ReleaseTidy(m: SM.Waiting, q: seq<Slot>, q1: seq<Slot>, x: Slot, m2: SM.Waiting, q2: seq<Slot>)
    requires (forall y :: y in q1 <==> y in q && y != x) && Tidy(m, q1, m2, q2, [])
    ensures Tidy(m, q, m2, q2, [x])
  {
  }

  /** Fire every stop of side s that a trade at price last sets off, then prune their keys. */
  method FireStops(b: OrderBook, s: Side, last: Price, sq: nat, ts: nat) returns (out: seq<OutputEvent>)
    requires b.Sound() && FireCalm(b.View(), s, Triggered(b.View(), s, last), sq, ts)
    modifies b`asks, b`bids, b`arena, b`qs, b`idIndex, b`lastTrade, b`stopBuys, b`stopSells
    ensures b.Sound() && Kept(old(b.arena.slots), b.arena.slots)
    ensures Tidy(old(b.stopBuys), old(b.qs.buyStops), b.stopBuys, b.qs.buyStops, [])
    ensures Tidy(old(b.stopSells), old(b.qs.sellStops), b.stopSells, b.qs.sellStops, [])
    ensures Outcome(b.View(), out) == FireAll(old(b.View()), s, Triggered(old(b.View()), s, last), sq, ts)
    decreases Pending(b.View()), 1
  {
    hide Ladder, StopsOk, SlabOk, StaleFree, NoEmptyLevel, IndexOk, Covered, Kept, Tidy, FireAll, Triggered, ViewOf,
      SM.UpTo, Called;
    hide FireCalm;
    ghost var v0, slots0, buys0, sells0, qs0, idx0 := b.View(), b.arena.slots, b.stopBuys, b.stopSells, b.qs, b.idIndex;
    ghost var m0, q := b.StopsOf(s), b.qs.Stops(s);
    var k := Rank(s.Opposite(), last);
    var triggered := SM.UpTo(b.StopsOf(s), k);
    TriggeredCalled(b, s, last);
    KeptSelf(slots0);
    TidySelf(buys0, qs0.buyStops);
    TidySelf(sells0, qs0.sellStops);
    out := [];
    assert triggered[..0] == [] && triggered[0..] == triggered;
    for i := 0 to |triggered|
      invariant b.Sound() && Kept(slots0, b.arena.slots) && Pending(b.View()) <= Pending(v0)
      invariant Tidy(buys0, qs0.buyStops, b.stopBuys, b.qs.buyStops, triggered[..i])
      invariant Tidy(sells0, qs0.sellStops, b.stopSells, b.qs.sellStops, triggered[..i])
      invariant FireAll(v0, s, Triggered(v0, s, last), sq, ts)
             == Then(out, FireAll(b.View(), s, Called(slots0, triggered[i..], q), sq, ts))
      invariant FireCalm(b.View(), s, Called(slots0, triggered[i..], q), sq, ts)
      invariant forall j :: 0 <= j < i ==> triggered[j] !in b.arena.slots
    {
      var x := triggered[i];
      assert triggered[..i + 1] == triggered[..i] + [x];
      CalledNext(slots0, triggered, q, i);
      WasPending(slots0, m0, q, s, k, x);
      ghost var slots1, buys1, sells1, qs1 := b.arena.slots, b.stopBuys, b.stopSells, b.qs;
      if x !in b.arena.slots {
        Skip(slots0, qs0, idx0, b, s, x, Called(slots0, triggered[i + 1..], q), sq, ts);
        TidySelf(buys1, qs1.buyStops);
        TidySelf(sells1, qs1.sellStops);
        TidyTwice(buys0, qs0.buyStops, buys1, qs1.buyStops, b.stopBuys, b.qs.buyStops, triggered[..i], [],
          triggered[..i + 1]);
        TidyTwice(sells0, qs0.sellStops, sells1, qs1.sellStops, b.stopSells, b.qs.sellStops, triggered[..i], [],
          triggered[..i + 1]);
      } else {
        StillPending(slots0, qs0, idx0, b, s, x);
        var evs := FireOne(b, s, x, sq, ts, Called(slots0, triggered[i + 1..], q));
        ThenTwice(out, evs, FireAll(b.View(), s, Called(slots0, triggered[i + 1..], q), sq, ts));
        out := out + evs;
        KeptTwice(slots0, slots1, b.arena.slots);
        TidyTwice(buys0, qs0.buyStops, buys1, qs1.buyStops, b.stopBuys, b.qs.buyStops, triggered[..i], [x],
          triggered[..i + 1]);
        TidyTwice(sells0, qs0.sellStops, sells1, qs1.sellStops, b.stopSells, b.qs.sellStops, triggered[..i], [x],
          triggered[..i + 1]);
      }
    }
    assert triggered[..|triggered|] == triggered && triggered[|triggered|..] == [];
    FireNone(b.View(), s, slots0, q, sq, ts);
    ghost var buys2, sells2, qs2 := b.stopBuys, b.stopSells, b.qs;
    NothingLive(m0, q, b.StopsOf(s), b.qs.Stops(s), b.arena.slots, k);
    Prune(b, s, k);
    PruneTidy(slots0, if s.Buy? then buys0 else sells0, q, s, if s.Buy? then buys2 else sells2, b.qs.Stops(s), k);
    NoneFired(slots0, if s.Buy? then sells0 else buys0, qs0.Stops(s.Opposite()), s.Opposite(),
              b.StopsOf(s.Opposite()), b.qs.Stops(s.Opposite()), m0, q, s, k);
    assert out + [] == out;
  }

  lemma FireNone(v: Book, s: Side, slots: Slots, q: seq<Slot>, sq: nat, ts: nat)
    ensures FireAll(v, s, Called(slots, [], q), sq, ts) == Outcome(v, [])
  {
  }

  /** A listed slot is either a pending stop of its side or free. */
  lemma WasPending(slots: Slots, m: SM.Waiting, q: seq<Slot>, s: Side, k: int, x: Slot)
    requires StopsOk(slots, m, q, s) && StaleFree(slots, m, q) && x in SM.UpTo(m, k)
    ensures x in slots ==> x in q
    ensures x in q ==> x in slots && slots[x].order.side == s && IsStop(slots[x].order.kind)
  {
    hide SM.UpTo, SM.Keep, SM.Flatten, Sorted, Distinct;
    SM.UpToMember(m, k, x);
    if x in q { InSlots(slots, q, x); }
  }

  lemma NothingLive(m0: SM.Waiting, q0: seq<Slot>, m: SM.Waiting, q: seq<Slot>, slots: Slots, k: int)
    requires Tidy(m0, q0, m, q, SM.UpTo(m0, k)) && InArena(slots, q)
    requires forall j :: 0 <= j < |SM.UpTo(m0, k)| ==> SM.UpTo(m0, k)[j] !in slots
    ensures forall x :: x in SM.UpTo(m, k) ==> x !in q
  {
    hide SM.UpTo;
    forall x | x in SM.UpTo(m, k) ensures x !in q {
      SM.UpToMember(m, k, x);
      SM.UpToMember(m0, k, x);
    }
  }

  /** Once pruned, the map of the fired side names no fired slot. */
  lemma PruneTidy(slots0: Slots, m0: SM.Waiting, q0: seq<Slot>, s: Side, m: SM.Waiting, q: seq<Slot>, k: int)
    requires StopsOk(slots0, m0, q0, s) && Tidy(m0, q0, m, q, SM.UpTo(m0, k))
    ensures Tidy(m0, q0, SM.Retain(m, k), q, [])
  {
    hide SM.UpTo, SM.Keep, SM.Flatten, StopsWF;
    var m' := SM.Retain(m, k);
    forall j, x | j in m' && x in m'[j] && x in q0 ensures x in q {
      SM.UpToMember(m0, k, x);
      assert j in m0 && x in m0[j];
    }
  }

  /** Firing one side leaves no stale entry on the other. */
  lemma NoneFired(slots0: Slots, m0: SM.Waiting, q0: seq<Slot>, t: Side, m: SM.Waiting, q: seq<Slot>,
                  fm: SM.Waiting, fq: seq<Slot>, s: Side, k: int)
    requires StopsOk(slots0, m0, q0, t) && StopsOk(slots0, fm, fq, s) && t == s.Opposite()
    requires StaleFree(slots0, fm, fq) && Tidy(m0, q0, m, q, SM.UpTo(fm, k))
    ensures Tidy(m0, q0, m, q, [])
  {
    hide SM.UpTo, SM.Keep, SM.Flatten, Sorted, Distinct;
    forall j, x | j in m && x in m[j] && x in q0 ensures x in q {
      InSlots(slots0, q0, x);
      if x in SM.UpTo(fm, k) { WasPending(slots0, fm, fq, s, k, x); }
    }
  }

  lemma CalledNext(slots: Slots, xs: seq<Slot>, q: seq<Slot>, i: nat)
    requires i < |xs|
    ensures Called(slots, xs[i..], q)
      == (if xs[i] in q && xs[i] in slots then [slots[xs[i]].order.id] else []) + Called(slots, xs[i + 1..], q)
  {
    assert xs[i..][1..] == xs[i + 1..];
  }

  /** A slot that is free by now fires nothing, whatever it held when the list was made. */
  lemma Skip(
    slots0: Slots, qs0: Queues, idx0: map<OrderId, Location>, b: OrderBook, s: Side, x: Slot, ids: seq<OrderId>,
    sq: nat, ts: nat)
    requires Covered(slots0, qs0, {}) && IndexOk(slots0, idx0, {}) && b.Sound() && Kept(slots0, b.arena.slots)
    requires x !in b.arena.slots
    requires x in qs0.Stops(s) && x in slots0 ==> slots0[x].order.side == s && IsStop(slots0[x].order.kind)
    ensures FireAll(b.View(), s, (if x in qs0.Stops(s) && x in slots0 then [slots0[x].order.id] else []) + ids, sq, ts)
         == FireAll(b.View(), s, ids, sq, ts)
    ensures FireCalm(b.View(), s, (if x in qs0.Stops(s) && x in slots0 then [slots0[x].order.id] else []) + ids, sq, ts)
         == FireCalm(b.View(), s, ids, sq, ts)
  {
    hide ThreadsOf, StaleFree, NoEmptyLevel, IndexOk, Covered, Kept, SubmitNew;
    if x in qs0.Stops(s) && x in slots0 {
      StillPending(slots0, qs0, idx0, b, s, x);
      assert ([slots0[x].order.id] + ids)[1..] == ids;
    } else {
      assert [] + ids == ids;
    }
  }

  lemma PruneStops(slots: Slots, m: SM.Waiting, q: seq<Slot>, s: Side, k: int)
    requires StopsOk(slots, m, q, s) && StaleFree(slots, m, q)
    requires forall x :: x in SM.UpTo(m, k) ==> x !in q
    ensures StopsOk(slots, SM.Retain(m, k), q, s) && StaleFree(slots, SM.Retain(m, k), q)
  {
    hide SM.UpTo, SM.Flatten, StopsWF;
    SM.FlattenSplit(m, k);
    SM.KeepConcat(SM.UpTo(m, k), SM.Flatten(SM.Retain(m, k)), q);
    SM.KeepAll(SM.UpTo(m, k), q);
  }

  /** Drop the keys up to k once nothing live is filed there. */
  method Prune(b: OrderBook, s: Side, k: int)
    requires b.Sound()
    requires forall x :: x in SM.UpTo(b.StopsOf(s), k) ==> x !in b.qs.Stops(s)
    modifies b`stopBuys, b`stopSells
    ensures b.Sound() && b.View() == old(b.View())
    ensures b.StopsOf(s) == SM.Retain(old(b.StopsOf(s)), k) && b.StopsOf(s.Opposite()) == old(b.StopsOf(s.Opposite()))
  {
    hide Ladder, SlabOk, NoEmptyLevel, IndexOk, Covered, StopsOk, StaleFree, SM.Retain;
    PruneStops(b.arena.slots, b.StopsOf(s), b.qs.Stops(s), s, k);
    if s.Buy? {
      b.stopBuys := SM.Retain(b.stopBuys, k);
    } else {
      b.stopSells := SM.Retain(b.stopSells, k);
    }
  }

  method TriggerStops(b: OrderBook, last: Price, sq: nat, ts: nat) returns (out: seq<OutputEvent>)
    requires b.Sound() && TriggerCalm(b.View(), last, sq, ts)
    modifies b`asks, b`bids, b`arena, b`qs, b`idIndex, b`lastTrade, b`stopBuys, b`stopSells
    ensures b.Sound() && Kept(old(b.arena.slots), b.arena.slots)
    ensures Tidy(old(b.stopBuys), old(b.qs.buyStops), b.stopBuys, b.qs.buyStops, [])
    ensures Tidy(old(b.stopSells), old(b.qs.sellStops), b.stopSells, b.qs.sellStops, [])
    ensures Outcome(b.View(), out) == Trigger(old(b.View()), last, sq, ts)
    decreases Pending(b.View()), 2
  {
    hide ThreadsOf, StaleFree, NoEmptyLevel, IndexOk, Covered, Kept, Tidy, FireAll, Triggered, ViewOf, FireCalm;
    ghost var v0, slots0, buys0, sells0, qs0 := b.View(), b.arena.slots, b.stopBuys, b.stopSells, b.qs;
    out := FireStops(b, Buy, last, sq, ts);
    ghost var slots1, buys1, sells1, qs1 := b.arena.slots, b.stopBuys, b.stopSells, b.qs;
    assert Pending(b.View()) <= Pending(v0) by { FirePending(v0, Buy, Triggered(v0, Buy, last), sq, ts); }
    var more := FireStops(b, Sell, last, sq, ts);
    out := out + more;
    KeptTwice(slots0, slots1, b.arena.slots);
    TidyTwice(buys0, qs0.buyStops, buys1, qs1.buyStops, b.stopBuys, b.qs.buyStops, [], [], []);
    TidyTwice(sells0, qs0.sellStops, sells1, qs1.sellStops, b.stopSells, b.qs.sellStops, [], [], []);
  }

  lemma FirePending(v: Book, s: Side, ids: seq<OrderId>, sq: nat, ts: nat)
    ensures Pending(FireAll(v, s, ids, sq, ts).book) <= Pending(v)
  {
  }

  /** A new order, from the checks at the door to the last order its trades set off. */
  method ApplyNew(b: OrderBook, no: NewOrder, sq: nat, ts: nat) returns (out: seq<OutputEvent>)
    requires b.Sound() && (no.kind.Market? || b.NoStale())
    requires Admitted(b.View(), no) ==> Fits(b.View(), no) && Calm(b.View(), no, sq, ts)
    modifies b`asks, b`bids, b`arena, b`qs, b`idIndex, b`lastTrade, b`stopBuys, b`stopSells
    ensures b.Sound() && (old(b.NoStale()) ==> b.NoStale())
    ensures Outcome(b.View(), out) == SubmitNew(old(b.View()), no, sq, ts)
    ensures no.kind.Market? ==> Kept(old(b.arena.slots), b.arena.slots)
    ensures no.kind.Market? ==> Tidy(old(b.stopBuys), old(b.qs.buyStops), b.stopBuys, b.qs.buyStops, [])
    ensures no.kind.Market? ==> Tidy(old(b.stopSells), old(b.qs.sellStops), b.stopSells, b.qs.sellStops, [])
    decreases Pending(b.View()), 3
  {
    hide ThreadsOf, StaleFree, NoEmptyLevel, IndexOk, Covered, Kept, Tidy, Trigger, Place, SumAt, Has, Insert,
      AllPending;
    hide TriggerCalm;
    ghost var v0, slots0 := b.View(), b.arena.slots;
    KeptSelf(b.arena.slots);
    TidySelf(b.stopBuys, b.qs.buyStops);
    TidySelf(b.stopSells, b.qs.sellStops);
    Find(b, no.id);
    if no.qty == 0 {
      return [Rejected(no.id, ZeroQty, sq)];
    }
    if no.id in b.idIndex {
      return [Rejected(no.id, DuplicateId, sq)];
    }
    if (no.kind.Limit? || no.kind.Ioc? || no.kind.Fok? || no.kind.StopLimit?) && no.price <= 0 {
      return [Rejected(no.id, BadPrice, sq)];
    }
    if IsStop(no.kind) {
      AddStop(b, Order(no.id, no.symbol, no.side, no.kind, no.tif, no.price, no.stopPrice, no.qty, no.qty, sq, ts));
      return [Accepted(no.id, sq)];
    }
    var settled: bool;
    settled, out := PlaceOrder(b, no, sq, ts);
    PlacedSound(b, slots0, no);
    if settled && b.lastTrade.Some? {
      ghost var slots1, buys1, sells1, qs1 := b.arena.slots, b.stopBuys, b.stopSells, b.qs;
      var more := TriggerStops(b, b.lastTrade.value, sq, ts);
      out := out + more;
      if no.kind.Market? {
        KeptTwice(slots0, slots1, b.arena.slots);
      }
      if old(b.NoStale()) {
        TidyPending(buys1, qs1.buyStops, b.stopBuys, b.qs.buyStops);
        TidyPending(sells1, qs1.sellStops, b.stopSells, b.qs.sellStops);
      }
    }
  }

  lemma PlacedSound(b: OrderBook, slots0: Slots, no: NewOrder)
    requires Filed(b)
    requires if no.kind.Limit? then b.NoStale()
      else
        && Kept(slots0, b.arena.slots) && StaleFree(slots0, b.stopBuys, b.qs.buyStops)
        && StaleFree(slots0, b.stopSells, b.qs.sellStops)
    ensures b.Sound()
  {
    hide ThreadsOf, NoEmptyLevel, IndexOk, Covered, StaleFree, AllPending, Kept;
    if no.kind.Limit? {
      PendingIsFree(b.arena.slots, b.stopBuys, b.qs.buyStops);
      PendingIsFree(b.arena.slots, b.stopSells, b.qs.sellStops);
    } else {
      StaleShrinks(slots0, b.arena.slots, b.stopBuys, b.stopBuys, b.qs.buyStops, b.qs.buyStops);
      StaleShrinks(slots0, b.arena.slots, b.stopSells, b.stopSells, b.qs.sellStops, b.qs.sellStops);
    }
  }

  // ---------------------------------------------------------------- replace, apply, runs

  lemma FetchResting(b: OrderBook, id: OrderId)
    requires b.Sound() && !HasStop(b.View(), id)
    ensures Fetch(b.View(), id) == if id in b.idIndex then Some(b.arena.slots[b.idIndex[id].slot].order) else None
    ensures id in b.idIndex ==> !IsStop(b.arena.slots[b.idIndex[id].slot].order.kind)
  {
    hide ThreadsOf, StaleFree, NoEmptyLevel, IndexOk, Covered;
    Find(b, id);
    if id in b.idIndex {
      FindResting(b, id);
      UniqueId(b, id);
    }
  }

  /** A pending stop is where the reference book fetches it from. */
  lemma FetchPending(b: OrderBook, id: OrderId)
    requires b.Valid() && id in b.idIndex && IsStop(b.arena.slots[b.idIndex[id].slot].order.kind)
    ensures Fetch(b.View(), id) == Some(b.arena.slots[b.idIndex[id].slot].order) && HasStop(b.View(), id)
    ensures !HasId(Remove(b.View(), id), id)
  {
    hide ThreadsOf, StaleFree, NoEmptyLevel, IndexOk, Covered, Lookup, Has, WF, Remove, AtMostOne;
    Find(b, id);
    UniqueId(b, id);
    SoundWF(b);
    var x := b.idIndex[id].slot;
    var o := b.arena.slots[x].order;
    var i := FindPending(b, o.side, x);
    FetchStop(b.View(), o.side, id);
    RemovedAbsent(b.View(), id);
  }

  lemma FetchStop(v: Book, s: Side, id: OrderId)
    requires AtMostOne(v, id) && Has(Stops(v, s), id)
    ensures Fetch(v, id) == Lookup(Stops(v, s), id) && HasStop(v, id)
  {
    hide Has, Lookup;
  }

  lemma RemovedAbsent(v: Book, id: OrderId)
    requires WF(v)
    ensures !HasId(Remove(v, id), id)
  {
    hide Sorted, Distinct, Without, Has;
    WithoutKeeps(v.bids, id);
    WithoutKeeps(v.asks, id);
    WithoutKeeps(v.buyStops, id);
    WithoutKeeps(v.sellStops, id);
  }

  /** A slot listed twice under one key cannot be the queue's. */
  lemma ListedTwice(m: SM.Waiting, z: int, x: Slot, q: seq<Slot>)
    requires z in m && x in m[z] && x in q && SM.Keep(SM.Flatten(SM.Push(m, z, x)), q) == q
    ensures !Unrepeated(q)
  {
    hide SM.UpTo, SM.Flatten, SM.Keep, SM.Push, SM.Retain;
    var upto, above := SM.UpTo(m, z), SM.Flatten(SM.Retain(m, z));
    SM.FlattenPush(m, z, x);
    SM.KeepConcat(upto + [x], above, q);
    SM.KeepConcat(upto, [x], q);
    SM.KeepAll([x], q);
    SM.UpToMember(m, z, x);
    SM.KeepMember(upto, q, x);
    var front := SM.Keep(upto, q);
    var i :| 0 <= i < |front| && front[i] == x;
    assert q[i] == x && q[|front|] == x;
  }

  /** A renewed stop is listed under its old key and under the new one: no queue fits such a map. */
  lemma RenewedInvalid(b: OrderBook, s: Side, m: SM.Waiting, k: int, x: Slot)
    requires x in b.arena.slots && k in m && x in m[k]
    requires var o := b.arena.slots[x].order; IsStop(o.kind) && o.side == s && b.StopsOf(s) == SM.Push(m, RankOf(o), x)
    ensures !b.Valid()
  {
    hide Ladder, SlabOk, StaleFree, NoEmptyLevel, IndexOk, StopsWF, AllPending, SM.Keep, SM.Flatten, RankOf;
    var z, q := RankOf(b.arena.slots[x].order), b.qs.Stops(s);
    PushedBoth(m, k, z, x);
    if k == z && x in q && SM.Keep(SM.Flatten(SM.Push(m, z, x)), q) == q {
      ListedTwice(m, z, x, q);
    }
    if b.Valid() {
      assert x in b.qs.HomeOf(b.arena.slots[x].order);
      StopsUnrepeated(b.arena.slots, b.StopsOf(s), q, s);
      assert false;
    }
  }

  lemma PushedBoth(m: SM.Waiting, k: int, z: int, x: Slot)
    requires k in m && x in m[k]
    ensures var m' := SM.Push(m, z, x); k in m' && x in m'[k] && z in m' && x in m'[z]
  {
  }

  lemma StopsUnrepeated(slots: Slots, m: SM.Waiting, q: seq<Slot>, s: Side)
    requires StopsOk(slots, m, q, s)
    ensures Unrepeated(q)
  {
    hide SM.Keep, SM.Flatten;
    DistinctSlots(slots, q);
  }

  lemma RenewEvents(v: Book, id: OrderId, newPrice: Price, newQty: Qty, sq: nat, ts: nat)
    requires newQty > 0 && Fetch(v, id).Some? && IsStop(Fetch(v, id).value.kind) && !HasId(Remove(v, id), id)
    ensures ReplaceOrder(v, id, newPrice, newQty, sq, ts).events == [Replaced(id, sq)]
      + if Fetch(v, id).value.kind.StopLimit? && newPrice <= 0 then [Rejected(id, BadPrice, sq)] else [Accepted(id, sq)]
  {
    hide Fetch, Remove, HasId, Insert;
  }

  /**
    What the replace code does to a pending stop. The slot just freed is handed straight back to the renewed stop,
    while the stop map keeps its old entry: it names the renewed stop twice, or, if that is refused, a free slot.
   */
  method RenewStop(b: OrderBook, id: OrderId, newPrice: Price, newQty: Qty, sq: nat, ts: nat)
    returns (out: seq<OutputEvent>)
    requires b.Valid() && newQty > 0 && id in b.idIndex && IsStop(b.arena.slots[b.idIndex[id].slot].order.kind)
    modifies b`asks, b`bids, b`arena, b`qs, b`idIndex, b`stopBuys, b`stopSells
    ensures !b.Valid() && out == ReplaceOrder(old(b.View()), id, newPrice, newQty, sq, ts).events
    ensures StopRenewed(
      old(b.arena), old(b.idIndex), old(b.stopBuys), old(b.stopSells), b, id, newPrice, newQty, sq, ts)
  {
    hide ThreadsOf, StaleFree, NoEmptyLevel, IndexOk, Covered, AllPending, Struck, ViewOf, Remove, HasId, Fetch,
      ReplaceOrder;
    Find(b, id);
    FetchPending(b, id);
    FindStop(b, id);
    RenewEvents(b.View(), id, newPrice, newQty, sq, ts);
    var loc := b.idIndex[id];
    var o := b.arena.slots[loc.slot].order;
    ghost var m := b.StopsOf(o.side);
    ghost var k :| k in m && loc.slot in m[k];
    DropStop(b, id);
    out := [Replaced(id, sq)];
    if o.kind.StopLimit? && newPrice <= 0 {
      if b.Valid() { ValidNotDangling(b); }
      return out + [Rejected(id, BadPrice, sq)];
    }
    var slot := FileAgain(b, Order(id, o.symbol, o.side, o.kind, o.tif, newPrice, 0, newQty, newQty, sq, ts));
    out := out + [Accepted(id, sq)];
    RenewedInvalid(b, o.side, m, k, slot);
  }

  /** File a stop in the next slot, at the end of its trigger key. */
  method FileAgain(b: OrderBook, o: Order) returns (slot: Slot)
    requires IsStop(o.kind)
    modifies b`arena, b`idIndex, b`stopBuys, b`stopSells
    ensures slot == old(b.arena).NextSlot() && b.arena == old(b.arena).Insert(Node(o, None, None))
    ensures b.idIndex == old(b.idIndex)[o.id := Location(o.stopPrice, o.side, slot)]
    ensures b.StopsOf(o.side) == SM.Push(old(b.StopsOf(o.side)), RankOf(o), slot)
    ensures b.StopsOf(o.side.Opposite()) == old(b.StopsOf(o.side.Opposite()))
  {
    slot := b.arena.NextSlot();
    b.arena := b.arena.Insert(Node(o, None, None));
    b.idIndex := b.idIndex[o.id := Location(o.stopPrice, o.side, slot)];
    if o.side.Buy? {
      b.stopBuys := SM.Push(b.stopBuys, RankOf(o), slot);
    } else {
      b.stopSells := SM.Push(b.stopSells, RankOf(o), slot);
    }
  }

  /** Arena, index and stop maps after a pending stop is replaced. */
  ghost predicate StopRenewed(
    arena: Slab, idx: map<OrderId, Location>, buys: SM.Waiting, sells: SM.Waiting, b: OrderBook,
    id: OrderId, newPrice: Price, newQty: Qty, sq: nat, ts: nat)
    reads b
  {
    id in idx && idx[id].slot in arena.slots
    && var x := idx[id].slot; var o := arena.slots[x].order; var z := Rank(o.side.Opposite(), 0);
       var renewed := Order(id, o.symbol, o.side, o.kind, o.tif, newPrice, 0, newQty, newQty, sq, ts);
       if o.kind.StopLimit? && newPrice <= 0 then
         && b.arena == arena.Remove(x) && b.idIndex == idx - {id} && b.stopBuys == buys && b.stopSells == sells
       else
         && b.arena == arena.Remove(x).Insert(Node(renewed, None, None))
         && b.arena.slots == arena.slots[x := Node(renewed, None, None)]
         && b.idIndex == idx[id := Location(0, o.side, x)]
         && b.stopBuys == (if o.side.Buy? then SM.Push(buys, z, x) else buys)
         && b.stopSells == (if o.side.Buy? then sells else SM.Push(sells, z, x))
  }

  /**
    Cancel-replace: the old order leaves, the new one is submitted under the same id. The book is valid afterwards
    exactly when the old order was not a pending stop.
   */
  method ApplyReplace(b: OrderBook, id: OrderId, newPrice: Price, newQty: Qty, sq: nat, ts: nat)
    returns (out: seq<OutputEvent>)
    requires b.Valid() && Runnable(b.View(), Sequenced(sq, ts, Replace(id, newPrice, newQty, b.symbol)))
    modifies b`asks, b`bids, b`arena, b`qs, b`idIndex, b`lastTrade, b`stopBuys, b`stopSells
    ensures out == ReplaceOrder(old(b.View()), id, newPrice, newQty, sq, ts).events
    ensures b.Valid() <==> newQty == 0 || !HasStop(old(b.View()), id)
    ensures b.Valid() ==> b.View() == ReplaceOrder(old(b.View()), id, newPrice, newQty, sq, ts).book
    ensures !b.Valid() ==>
      && b.lastTrade == old(b.lastTrade)
      && StopRenewed(old(b.arena), old(b.idIndex), old(b.stopBuys), old(b.stopSells), b, id, newPrice, newQty, sq, ts)
  {
    hide ThreadsOf, StaleFree, NoEmptyLevel, IndexOk, Covered, AllPending, SumAt, SubmitNew, ViewOf, Remove, Calm,
      StopRenewed;
    if newQty == 0 {
      return [Rejected(id, ZeroQty, sq)];
    }
    Find(b, id);
    if id !in b.idIndex {
      FetchResting(b, id);
      return [Rejected(id, UnknownId, sq)];
    }
    var o := b.arena.slots[b.idIndex[id].slot].order;
    if IsStop(o.kind) {
      FetchPending(b, id);
      out := RenewStop(b, id, newPrice, newQty, sq, ts);
    } else {
      FindResting(b, id);
      FetchResting(b, id);
      DropResting(b, id);
      out := ApplyNew(b, NewOrder(id, o.symbol, o.side, o.kind, o.tif, newPrice, 0, newQty), sq, ts);
      out := [Replaced(id, sq)] + out;
    }
  }

  /**
    The refinement: one command on the linked book emits the events of the reference book. It ends in a valid book,
    the reference book, exactly when it did not cancel or replace a pending stop.
   */
  method ApplyCommand(b: OrderBook, c: Sequenced) returns (out: seq<OutputEvent>)
    requires b.Valid() && Runnable(b.View(), c)
    modifies b
    ensures out == Spec.Apply(old(b.View()), c).events
    ensures b.Valid() <==> !TouchesStop(old(b.View()), c.cmd)
    ensures b.Valid() ==> b.View() == Spec.Apply(old(b.View()), c).book
  {
    hide ThreadsOf, StaleFree, NoEmptyLevel, IndexOk, Covered, AllPending, ViewOf, Fits, Calm, StopRenewed, Struck;
    match c.cmd
    case New(no) => out := ApplyNew(b, no, c.seqNo, c.ts);
    case Cancel(id, _) =>
      out := ApplyCancel(b, id, c.seqNo);
      if b.Valid() { ValidNotDangling(b); }
    case Replace(id, newPrice, newQty, _) => out := ApplyReplace(b, id, newPrice, newQty, c.seqNo, c.ts);
  }

  /** Any run in scope, from any valid book. */
  method ApplyAll(b: OrderBook, cs: seq<Sequenced>) returns (out: seq<OutputEvent>)
    requires b.Valid() && RunInScope(b.View(), cs)
    modifies b
    ensures b.Valid() && Outcome(b.View(), out) == Run(old(b.View()), cs)
  {
    hide ThreadsOf, StaleFree, NoEmptyLevel, IndexOk, Covered, AllPending, ViewOf, Runnable, TouchesStop, Spec.Apply;
    out := [];
    assert cs[0..] == cs;
    for i := 0 to |cs|
      invariant b.Valid() && RunInScope(b.View(), cs[i..])
      invariant Run(old(b.View()), cs) == Then(out, Run(b.View(), cs[i..]))
    {
      assert cs[i..][1..] == cs[i + 1..];
      ghost var v := b.View();
      var evs := ApplyCommand(b, cs[i]);
      ThenTwice(out, evs, Run(b.View(), cs[i + 1..]));
      out := out + evs;
    }
    assert out + [] == out;
  }

  /** From an empty book every run in scope ends valid, well formed and uncrossed. */
  method ApplyFresh(symbol: SymbolId, tick: Price, cs: seq<Sequenced>) returns (b: OrderBook, out: seq<OutputEvent>)
    requires RunInScope(EMPTY, cs)
    ensures fresh(b) && b.Valid() && Outcome(b.View(), out) == Run(EMPTY, cs) && Inv(b.View())
  {
    b := new OrderBook(symbol, tick);
    out := ApplyAll(b, cs);
    RunKeeps(EMPTY, cs);
  }
}
