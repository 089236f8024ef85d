/**
  One side of the linked book: price levels whose orders are threaded through the arena by
  next and prev, each level caching its total. The invariant is stated over one flat sequence of
  slots in price-time order: neighbours of equal rank are linked, first and last of a rank are the
  head and the tail of its level.
 */
module Levels {
  import opened Types
  import opened PriceTime
  import opened Invariants

  /** An arena entry: the order and its links within its price level. */
  datatype Node = Node(order: Order, next: Option<Slot>, prev: Option<Slot>)

  type Slots = map<Slot, Node>

  /** What 64-bit arithmetic keeps of a number. */
  function Wrap(n: nat): Qty {
    n % (U64_MAX + 1)
  }

  function WrapAdd(a: Qty, b: Qty): Qty {
    Wrap(a + b)
  }

  function SaturatingAdd(a: Qty, b: Qty): Qty {
    Min(a + b, U64_MAX)
  }

  function SaturatingSub(a: nat, b: nat): nat {
    if a <= b then 0 else a - b
  }

  datatype PriceLevel = PriceLevel(head: Option<Slot>, tail: Option<Slot>, totalQty: Qty, count: nat) {
    predicate IsEmpty() {
      head.None?
    }

    /** The caller wires the new node. */
    function PushBack(slot: Slot, qty: Qty): PriceLevel {
      PriceLevel(if tail.None? then Some(slot) else head, Some(slot), WrapAdd(totalQty, qty), count + 1)
    }

    /** Only the total moves; the caller advances the head, and the count stays. */
    function PopFront(qty: Qty): PriceLevel {
      if head.None? then this else this.(totalQty := SaturatingSub(totalQty, qty))
    }

    function Remove(qty: Qty): PriceLevel {
      this.(totalQty := SaturatingSub(totalQty, qty), count := SaturatingSub(count, 1))
    }
  }

  const NEW_LEVEL := PriceLevel(None, None, 0, 0)

  type Levels = map<int, PriceLevel>

  // ---------------------------------------------------------------- invariant

  ghost predicate InArena(slots: Slots, q: seq<Slot>) {
    forall i :: 0 <= i < |q| ==> q[i] in slots
  }

  ghost function Orders(slots: Slots, q: seq<Slot>): (os: seq<Order>)
    requires InArena(slots, q)
    ensures |os| == |q| && forall i :: 0 <= i < |q| ==> os[i] == slots[q[i]].order
  {
    seq(|q|, i requires 0 <= i < |q| => slots[q[i]].order)
  }

  /** Orders i and i + 1 exist and stand in one level. */
  ghost predicate Joined(os: seq<Order>, i: int): (b: bool)
    ensures b ==> 0 <= i < |os| - 1 && RankOf(os[i]) == RankOf(os[i + 1])
  {
    0 <= i < |os| - 1 && RankOf(os[i]) == RankOf(os[i + 1])
  }

  ghost predicate LinkAt(slots: Slots, q: seq<Slot>, os: seq<Order>, i: int)
    requires |q| == |os| && 0 <= i < |q| && q[i] in slots
  {
    && slots[q[i]].next == (if Joined(os, i) then Some(q[i + 1]) else None)
    && slots[q[i]].prev == (if Joined(os, i - 1) then Some(q[i - 1]) else None)
  }

  ghost predicate Linked(slots: Slots, q: seq<Slot>, os: seq<Order>)
    requires |q| == |os| && InArena(slots, q)
  {
    forall i {:trigger LinkAt(slots, q, os, i)} :: 0 <= i < |q| ==> LinkAt(slots, q, os, i)
  }

  ghost predicate EndAt(lv: Levels, q: seq<Slot>, os: seq<Order>, i: int)
    requires |q| == |os| && 0 <= i < |q|
  {
    var k := RankOf(os[i]);
    && k in lv
    && (!Joined(os, i - 1) ==> lv[k].head == Some(q[i]))
    && (!Joined(os, i) ==> lv[k].tail == Some(q[i]))
  }

  ghost predicate Ended(lv: Levels, q: seq<Slot>, os: seq<Order>)
    requires |q| == |os|
  {
    forall i {:trigger EndAt(lv, q, os, i)} :: 0 <= i < |q| ==> EndAt(lv, q, os, i)
  }

  ghost predicate Totalled(lv: Levels, os: seq<Order>) {
    forall k :: k in lv ==>
      && lv[k].totalQty == SumAt(os, k)
      && (SumAt(os, k) == 0 ==> lv[k].head == None && lv[k].tail == None)
  }

  /** Number of orders at rank k. */
  function CountAt(os: seq<Order>, k: int): nat {
    if os == [] then 0 else (if RankOf(os[0]) == k then 1 else 0) + CountAt(os[1..], k)
  }

  /** The cached count of a level bounds its length from above. */
  ghost predicate Counted(lv: Levels, os: seq<Order>) {
    forall k :: k in lv ==> CountAt(os, k) <= lv[k].count
  }

  ghost predicate NoEmptyLevel(lv: Levels) {
    forall k :: k in lv ==> lv[k].head.Some?
  }

  /** The side s of the book, apart from levels left empty in passing. */
  ghost predicate Ladder(slots: Slots, lv: Levels, q: seq<Slot>, s: Side): (b: bool)
    ensures b ==> InArena(slots, q)
  {
    && InArena(slots, q)
    && SideWF(Orders(slots, q), s)
    && Linked(slots, q, Orders(slots, q))
    && Ended(lv, q, Orders(slots, q))
    && Totalled(lv, Orders(slots, q)) && Counted(lv, Orders(slots, q))
  }

  ghost predicate Unrepeated(q: seq<Slot>) {
    forall a, b :: 0 <= a < b < |q| ==> q[a] != q[b]
  }

  lemma Unequal(q: seq<Slot>, a: int, b: int)
    requires Unrepeated(q)
    ensures 0 <= a < |q| && 0 <= b < |q| && a != b ==> q[a] != q[b]
  {
  }

  lemma DistinctSlots(slots: Slots, q: seq<Slot>)
    requires InArena(slots, q) && Distinct(Orders(slots, q))
    ensures Unrepeated(q)
  {
    forall a, b | 0 <= a < b < |q| ensures q[a] != q[b] { NoRepeats(slots, q, a, b); }
  }

  lemma NoRepeats(slots: Slots, q: seq<Slot>, i: nat, j: nat)
    requires InArena(slots, q) && Distinct(Orders(slots, q)) && i < |q| && j < |q| && i != j
    ensures q[i] != q[j]
  {
    assert Orders(slots, q)[i].id != Orders(slots, q)[j].id;
  }

  /** The side only depends on the nodes of its own queue. */
  lemma LadderFrame(slots: Slots, slots': Slots, lv: Levels, q: seq<Slot>, s: Side)
    requires Ladder(slots, lv, q, s)
    requires forall i :: 0 <= i < |q| ==> q[i] in slots' && slots'[q[i]] == slots[q[i]]
    ensures Ladder(slots', lv, q, s) && Orders(slots', q) == Orders(slots, q)
  {
    hide SideWF, Totalled, Ended;
    OrdersFrame(slots, slots', q);
    forall i | 0 <= i < |q| ensures LinkAt(slots', q, Orders(slots, q), i) {
      assert LinkAt(slots, q, Orders(slots, q), i);
    }
  }

  lemma OrdersFrame(slots: Slots, slots': Slots, q: seq<Slot>)
    requires InArena(slots, q)
    requires forall i :: 0 <= i < |q| ==> q[i] in slots' && slots'[q[i]].order == slots[q[i]].order
    ensures InArena(slots', q) && Orders(slots', q) == Orders(slots, q)
  {
  }

  // ---------------------------------------------------------------- unlinking one order

  function Cut<T>(xs: seq<T>, i: nat): seq<T>
    requires i < |xs|
  {
    xs[..i] + xs[i + 1..]
  }

  /** The neighbours of a node are joined to each other. */
  function Stitch(slots: Slots, prev: Option<Slot>, next: Option<Slot>): Slots
    requires prev.Some? ==> prev.value in slots
    requires next.Some? ==> next.value in slots
  {
    var s1 := if prev.Some? then slots[prev.value := slots[prev.value].(next := next)] else slots;
    if next.Some? then s1[next.value := s1[next.value].(prev := prev)] else s1
  }

  /** The level once slot has left it: ends moved inwards, quantity taken off. */
  ghost predicate Shrunk(l: PriceLevel, l': PriceLevel, slot: Slot, node: Node) {
    && l'.head == (if l.head == Some(slot) then node.next else l.head)
    && l'.tail == (if l.tail == Some(slot) then node.prev else l.tail)
    && l'.totalQty == SaturatingSub(l.totalQty, node.order.remaining)
    && l.count <= l'.count + 1
  }

  lemma CutLinked(slots: Slots, q: seq<Slot>, os: seq<Order>, i: nat)
    requires i < |q| == |os| && InArena(slots, q) && Linked(slots, q, os) && Sorted(os)
    requires Unrepeated(q)
    ensures var node := slots[q[i]];
      && (node.prev.Some? ==> node.prev.value in slots) && (node.next.Some? ==> node.next.value in slots)
      && InArena(Stitch(slots, node.prev, node.next), Cut(q, i))
      && Linked(Stitch(slots, node.prev, node.next), Cut(q, i), Cut(os, i))
  {
    assert LinkAt(slots, q, os, i);
    var node := slots[q[i]];
    var slots' := Stitch(slots, node.prev, node.next);
    forall j | 0 <= j < |q| - 1
      ensures Cut(q, i)[j] in slots' && LinkAt(slots', Cut(q, i), Cut(os, i), j)
    {
      CutLinkAt(slots, q, os, i, j);
    }
  }

  lemma CutLinkAt(slots: Slots, q: seq<Slot>, os: seq<Order>, i: nat, j: nat)
    requires i < |q| == |os| && j < |q| - 1 && InArena(slots, q) && Linked(slots, q, os) && Sorted(os) && Unrepeated(q)
    ensures var node := slots[q[i]];
      && (node.prev.Some? ==> node.prev.value in slots) && (node.next.Some? ==> node.next.value in slots)
      && Cut(q, i)[j] in slots
      && LinkAt(Stitch(slots, node.prev, node.next), Cut(q, i), Cut(os, i), j)
  {
    hide Sorted, Joined;
    assert LinkAt(slots, q, os, i);
    var a := if j < i then j else j + 1;
    assert Cut(q, i)[j] == q[a];
    assert LinkAt(slots, q, os, a);
    CutJoined(os, i, j);
    CutJoined(os, i, j - 1);
    Unequal(q, a, i - 1);
    Unequal(q, a, i + 1);
    if j > 0 { assert Cut(q, i)[j - 1] == q[if j - 1 < i then j - 1 else j]; }
    if j < |q| - 2 { assert Cut(q, i)[j + 1] == q[if j + 1 < i then j + 1 else j + 2]; }
  }

  /** Which neighbours are joined once order i is out. */
  lemma CutJoined(os: seq<Order>, i: nat, j: int)
    requires i < |os| && Sorted(os)
    ensures Joined(Cut(os, i), j) ==
      if j < i - 1 then Joined(os, j) else if j == i - 1 then Joined(os, i - 1) && Joined(os, i) else Joined(os, j + 1)
  {
    var os' := Cut(os, i);
    assert forall j :: 0 <= j < i ==> os'[j] == os[j];
    assert forall j :: i <= j < |os'| ==> os'[j] == os[j + 1];
  }

  lemma CutEnded(slots: Slots, lv: Levels, lv': Levels, q: seq<Slot>, os: seq<Order>, i: nat)
    requires i < |q| == |os| && InArena(slots, q) && Linked(slots, q, os) && Ended(lv, q, os) && Sorted(os)
    requires Unrepeated(q)
    requires var k := RankOf(os[i]);
      k in lv && lv'.Keys == lv.Keys && Shrunk(lv[k], lv'[k], q[i], slots[q[i]])
      && forall k' :: k' in lv && k' != k ==> lv'[k'] == lv[k']
    ensures Ended(lv', Cut(q, i), Cut(os, i))
  {
    var q', os' := Cut(q, i), Cut(os, i);
    assert EndAt(lv, q, os, i) && LinkAt(slots, q, os, i);
    forall j | 0 <= j < |q'|
      ensures EndAt(lv', q', os', j)
    {
      var a := if j < i then j else j + 1;
      assert q'[j] == q[a] && os'[j] == os[a];
      assert EndAt(lv, q, os, a);
      CutJoined(os, i, j);
      CutJoined(os, i, j - 1);
    }
  }

  lemma CutTotalled(slots: Slots, lv: Levels, lv': Levels, q: seq<Slot>, s: Side, i: nat)
    requires i < |q| && Ladder(slots, lv, q, s)
    requires var k := RankOf(Orders(slots, q)[i]);
      k in lv && lv'.Keys == lv.Keys && Shrunk(lv[k], lv'[k], q[i], slots[q[i]])
      && forall k' :: k' in lv && k' != k ==> lv'[k'] == lv[k']
    ensures Totalled(lv', Cut(Orders(slots, q), i))
    ensures var k := RankOf(Orders(slots, q)[i]);
      lv'[k].totalQty + Orders(slots, q)[i].remaining == lv[k].totalQty && (lv'[k].head.None? <==> lv'[k].totalQty == 0)
  {
    var os := Orders(slots, q);
    var k0 := RankOf(os[i]);
    forall k | k in lv'
      ensures lv'[k].totalQty == SumAt(Cut(os, i), k)
      ensures SumAt(Cut(os, i), k) == 0 ==> lv'[k].head == None && lv'[k].tail == None
    {
      SumDrop(os, i, k);
      if k == k0 && SumAt(Cut(os, i), k) == 0 {
        Alone(os, i);
        assert EndAt(lv, q, os, i) && LinkAt(slots, q, os, i);
      }
    }
    SumDrop(os, i, k0);
    if lv'[k0].head.None? {
      NobodyElse(slots, lv, q, s, i);
    }
  }

  lemma {:induction false} CountConcat(os: seq<Order>, ps: seq<Order>, k: int)
    ensures CountAt(os + ps, k) == CountAt(os, k) + CountAt(ps, k)
  {
    if os == [] {
      assert os + ps == ps;
    } else {
      assert (os + ps)[1..] == os[1..] + ps;
      CountConcat(os[1..], ps, k);
    }
  }

  lemma CountPut(os: seq<Order>, p: nat, o: Order, k: int)
    requires p <= |os|
    ensures CountAt(Put(os, p, o), k) == CountAt(os, k) + if RankOf(o) == k then 1 else 0
  {
    CountConcat(os[..p] + [o], os[p..], k);
    CountConcat(os[..p], [o], k);
    CountConcat(os[..p], os[p..], k);
    assert os == os[..p] + os[p..];
    assert [o][1..] == [];
  }

  lemma {:induction false} CountAbsent(os: seq<Order>, k: int)
    requires forall i :: 0 <= i < |os| ==> RankOf(os[i]) != k
    ensures CountAt(os, k) == 0
  {
    if os != [] { CountAbsent(os[1..], k); }
  }

  lemma CutCounted(lv: Levels, lv': Levels, os: seq<Order>, i: nat)
    requires i < |os| && Counted(lv, os)
    requires var k := RankOf(os[i]);
      k in lv && lv'.Keys == lv.Keys && lv[k].count <= lv'[k].count + 1
      && forall j :: j in lv && j != k ==> lv'[j] == lv[j]
    ensures Counted(lv', Cut(os, i))
  {
    DropPut(os, i);
    forall k | k in lv' ensures CountAt(Cut(os, i), k) <= lv'[k].count {
      CountPut(Cut(os, i), i, os[i], k);
    }
  }

  /** One more order in a level whose count goes up by one. */
  lemma PutCounted(lv: Levels, q: seq<Slot>, os: seq<Order>, p: nat, o: Order, l: PriceLevel)
    requires |q| == |os| && p <= |os| && Counted(lv, os) && Ended(lv, q, os)
    requires l.count == LevelAt(lv, RankOf(o)).count + 1
    ensures Counted(lv[RankOf(o) := l], Put(os, p, o))
  {
    var k0 := RankOf(o);
    forall i | 0 <= i < |os| ensures RankOf(os[i]) in lv { assert EndAt(lv, q, os, i); }
    if k0 !in lv { CountAbsent(os, k0); }
    forall k | k in lv[k0 := l] ensures CountAt(Put(os, p, o), k) <= lv[k0 := l][k].count {
      CountPut(os, p, o, k);
    }
  }

  /** If nothing else is open at the rank of order i, it has no neighbour in its level. */
  lemma Alone(os: seq<Order>, i: nat)
    requires i < |os| && SumAt(Cut(os, i), RankOf(os[i])) == 0
    requires forall j :: 0 <= j < |os| ==> os[j].remaining > 0
    ensures !Joined(os, i) && !Joined(os, i - 1)
  {
    var os' := Cut(os, i);
    if Joined(os, i) {
      assert os'[i] == os[i + 1];
      SumAtMember(os', i);
    }
    if Joined(os, i - 1) {
      assert os'[i - 1] == os[i - 1];
      SumAtMember(os', i - 1);
    }
  }

  /** The head of the level of order i is the first order of its rank. */
  lemma FirstOf(slots: Slots, lv: Levels, q: seq<Slot>, s: Side, i: nat) returns (j: nat)
    requires i < |q| && Ladder(slots, lv, q, s)
    ensures var os := Orders(slots, q);
      j <= i && RankOf(os[j]) == RankOf(os[i]) && !Joined(os, j - 1)
      && RankOf(os[i]) in lv && lv[RankOf(os[i])].head == Some(q[j])
  {
    var os := Orders(slots, q);
    j := i;
    while Joined(os, j - 1)
      invariant j <= i && RankOf(os[j]) == RankOf(os[i])
      decreases j
    {
      j := j - 1;
    }
    assert EndAt(lv, q, os, j);
  }

  /** If order i is first and last of its level, nothing else is open at its rank. */
  lemma NobodyElse(slots: Slots, lv: Levels, q: seq<Slot>, s: Side, i: nat)
    requires i < |q| && Ladder(slots, lv, q, s)
    requires var k := RankOf(Orders(slots, q)[i]);
      k in lv && var l := lv[k]; (if l.head == Some(q[i]) then slots[q[i]].next else l.head) == None
    ensures SumAt(Cut(Orders(slots, q), i), RankOf(Orders(slots, q)[i])) == 0
  {
    var os := Orders(slots, q);
    var os' := Cut(os, i);
    assert LinkAt(slots, q, os, i) && EndAt(lv, q, os, i);
    var j := FirstOf(slots, lv, q, s, i);
    if j != i {
      NoRepeats(slots, q, i, j);
    }
    assert j == i && !Joined(os, i) && !Joined(os, i - 1);
    forall j | 0 <= j < |os'| ensures RankOf(os'[j]) != RankOf(os[i]) {
      if j < i {
        assert os'[j] == os[j];
        assert RankOf(os[j]) <= RankOf(os[i - 1]) < RankOf(os[i]);
      } else {
        assert os'[j] == os[j + 1];
        assert RankOf(os[i]) < RankOf(os[i + 1]) <= RankOf(os[j + 1]);
      }
    }
    SumAtAbsent(os', RankOf(os[i]));
  }

  lemma Unlink(slots: Slots, lv: Levels, lv': Levels, q: seq<Slot>, s: Side, i: nat)
    requires i < |q| && Ladder(slots, lv, q, s)
    requires var k := RankOf(Orders(slots, q)[i]);
      k in lv && lv'.Keys == lv.Keys && Shrunk(lv[k], lv'[k], q[i], slots[q[i]])
      && forall k' :: k' in lv && k' != k ==> lv'[k'] == lv[k']
    ensures var node := slots[q[i]];
      && (node.prev.Some? ==> node.prev.value in slots) && (node.next.Some? ==> node.next.value in slots)
      && Ladder(Stitch(slots, node.prev, node.next), lv', Cut(q, i), s)
      && Orders(Stitch(slots, node.prev, node.next), Cut(q, i)) == Cut(Orders(slots, q), i)
    ensures var k := RankOf(Orders(slots, q)[i]);
      lv'[k].totalQty + Orders(slots, q)[i].remaining == lv[k].totalQty && (lv'[k].head.None? <==> lv'[k].totalQty == 0)
  {
    var os := Orders(slots, q);
    DistinctSlots(slots, q);
    CutLinked(slots, q, os, i);
    CutEnded(slots, lv, lv', q, os, i);
    CutTotalled(slots, lv, lv', q, s, i);
    CutCounted(lv, lv', os, i);
    DropOrdered(os, i);
    var slots' := Stitch(slots, slots[q[i]].prev, slots[q[i]].next);
    assert Orders(slots', Cut(q, i)) == Cut(os, i);
  }

  /** An empty level can go. */
  lemma DropEmpty(slots: Slots, lv: Levels, q: seq<Slot>, s: Side, k: int)
    requires Ladder(slots, lv, q, s) && k in lv && lv[k].head.None?
    ensures Ladder(slots, lv - {k}, q, s)
  {
    var os := Orders(slots, q);
    forall i | 0 <= i < |q| ensures EndAt(lv - {k}, q, os, i) {
      assert EndAt(lv, q, os, i);
      var j := FirstOf(slots, lv, q, s, i);
    }
  }

  // ---------------------------------------------------------------- linking one order

  function Put<T>(xs: seq<T>, p: nat, x: T): seq<T>
    requires p <= |xs|
  {
    xs[..p] + [x] + xs[p..]
  }

  lemma PutJoined(os: seq<Order>, p: nat, o: Order, j: int)
    requires p <= |os|
    ensures Joined(Put(os, p, o), j) ==
      if j < p - 1 then Joined(os, j)
      else if j == p - 1 then p > 0 && RankOf(os[p - 1]) == RankOf(o)
      else if j == p then p < |os| && RankOf(o) == RankOf(os[p])
      else Joined(os, j - 1)
  {
    var os' := Put(os, p, o);
    assert forall j :: 0 <= j < p ==> os'[j] == os[j];
    assert forall j :: p < j < |os'| ==> os'[j] == os[j - 1];
    assert os'[p] == o;
  }

  lemma {:induction false} RankWitness(os: seq<Order>, k: int) returns (i: nat)
    requires SumAt(os, k) > 0
    ensures i < |os| && RankOf(os[i]) == k
  {
    if RankOf(os[0]) == k {
      i := 0;
    } else {
      i := RankWitness(os[1..], k);
      i := i + 1;
    }
  }

  function LevelAt(lv: Levels, k: int): PriceLevel {
    if k in lv then lv[k] else NEW_LEVEL
  }

  /** The tail of a level, if the level exists, is the last order of rank at most k, which has rank k. */
  lemma TailOf(slots: Slots, lv: Levels, q: seq<Slot>, s: Side, k: int)
    requires Ladder(slots, lv, q, s) && NoEmptyLevel(lv)
    ensures var os := Orders(slots, q); var p := Pos(os, k);
      && (k in lv <==> p > 0 && RankOf(os[p - 1]) == k)
      && LevelAt(lv, k).tail == (if k in lv then Some(q[p - 1]) else None)
      && LevelAt(lv, k).totalQty == SumAt(os, k)
  {
    var os := Orders(slots, q);
    var p := Pos(os, k);
    if k in lv {
      var i := RankWitness(os, k);
      assert p < |os| ==> RankOf(os[i]) < RankOf(os[p]);
      assert i < p && RankOf(os[i]) <= RankOf(os[p - 1]);
      assert EndAt(lv, q, os, p - 1);
    } else {
      forall i | 0 <= i < |os| ensures RankOf(os[i]) != k { assert EndAt(lv, q, os, i); }
      SumAtAbsent(os, k);
    }
  }

  /** The new node at the tail of its level. */
  function WireTail(slots: Slots, slot: Slot, o: Order, tail: Option<Slot>): Slots
    requires tail.Some? ==> tail.value in slots
  {
    var s1 := slots[slot := Node(o, None, tail)];
    if tail.Some? then s1[tail.value := s1[tail.value].(next := Some(slot))] else s1
  }

  lemma LinkTail(slots: Slots, lv: Levels, q: seq<Slot>, s: Side, slot: Slot, o: Order)
    requires Ladder(slots, lv, q, s) && NoEmptyLevel(lv) && slot !in q && !Has(Orders(slots, q), o.id)
    requires o.side == s && o.kind.Limit? && 0 < o.remaining <= o.qty && o.price > 0
    requires SumAt(Orders(slots, q), RankOf(o)) + o.remaining <= U64_MAX
    ensures var k := RankOf(o); var l := LevelAt(lv, k); var p := Pos(Orders(slots, q), k);
      && (l.tail.Some? ==> l.tail.value in slots && l.tail.value in q)
      && Ladder(WireTail(slots, slot, o, l.tail), lv[k := l.PushBack(slot, o.remaining)], Put(q, p, slot), s)
      && NoEmptyLevel(lv[k := l.PushBack(slot, o.remaining)])
      && Orders(WireTail(slots, slot, o, l.tail), Put(q, p, slot)) == Insert(Orders(slots, q), o)
  {
    var os := Orders(slots, q);
    var k := RankOf(o);
    var p := Pos(os, k);
    var l := LevelAt(lv, k);
    var lv' := lv[k := l.PushBack(slot, o.remaining)];
    TailOf(slots, lv, q, s, k);
    var slots' := WireTail(slots, slot, o, l.tail);
    var q' := Put(q, p, slot);
    TailLinked(slots, q, os, slot, o, l.tail, s);
    assert Orders(slots', q') == Insert(os, o);
    TailEnded(slots, lv, q, os, slot, o, s);
    TailTotalled(lv, os, slot, o);
    PutCounted(lv, q, os, p, o, l.PushBack(slot, o.remaining));
    SideInsert(os, s, o);
  }

  lemma TailOrders(slots: Slots, q: seq<Slot>, p: nat, slot: Slot, o: Order, tail: Option<Slot>)
    requires InArena(slots, q) && slot !in q && p <= |q| && (tail.Some? ==> tail.value in q)
    ensures tail.Some? ==> tail.value in slots
    ensures InArena(WireTail(slots, slot, o, tail), Put(q, p, slot))
    ensures Orders(WireTail(slots, slot, o, tail), Put(q, p, slot)) == Put(Orders(slots, q), p, o)
  {
    var slots' := WireTail(slots, slot, o, tail);
    var q' := Put(q, p, slot);
    forall j | 0 <= j < |q'|
      ensures q'[j] in slots' && slots'[q'[j]].order == Put(Orders(slots, q), p, o)[j]
    {
      if j != p {
        assert q'[j] == q[if j < p then j else j - 1];
      }
    }
  }

  lemma TailLinked(slots: Slots, q: seq<Slot>, os: seq<Order>, slot: Slot, o: Order, tail: Option<Slot>, s: Side)
    requires InArena(slots, q) && os == Orders(slots, q) && SideWF(os, s) && Linked(slots, q, os) && slot !in q
    requires var p := Pos(os, RankOf(o));
      tail == if p > 0 && RankOf(os[p - 1]) == RankOf(o) then Some(q[p - 1]) else None
    ensures var p := Pos(os, RankOf(o));
      && InArena(WireTail(slots, slot, o, tail), Put(q, p, slot))
      && Orders(WireTail(slots, slot, o, tail), Put(q, p, slot)) == Insert(os, o)
      && Linked(WireTail(slots, slot, o, tail), Put(q, p, slot), Insert(os, o))
  {
    var p := Pos(os, RankOf(o));
    TailOrders(slots, q, p, slot, o, tail);
    DistinctSlots(slots, q);
    assert Put(os, p, o) == Insert(os, o);
    forall j | 0 <= j < |q| + 1
      ensures LinkAt(WireTail(slots, slot, o, tail), Put(q, p, slot), Put(os, p, o), j)
    {
      TailLinkAt(slots, q, os, slot, o, tail, p, j);
    }
  }

  lemma TailLinkAt(slots: Slots, q: seq<Slot>, os: seq<Order>, slot: Slot, o: Order, tail: Option<Slot>, p: nat, j: nat)
    requires |q| == |os| && p <= |q| && j <= |q| && InArena(slots, q) && Linked(slots, q, os) && slot !in q
      && Unrepeated(q)
    requires tail == if p > 0 && RankOf(os[p - 1]) == RankOf(o) then Some(q[p - 1]) else None
    requires (p < |q| ==> RankOf(o) < RankOf(os[p])) && (p > 0 ==> RankOf(os[p - 1]) <= RankOf(o))
    ensures (tail.Some? ==> tail.value in slots) && Put(q, p, slot)[j] in WireTail(slots, slot, o, tail)
      && LinkAt(WireTail(slots, slot, o, tail), Put(q, p, slot), Put(os, p, o), j)
  {
    hide Joined;
    PutJoined(os, p, o, j);
    PutJoined(os, p, o, j - 1);
    assert !Joined(os, p - 1);
    if j < p {
      assert LinkAt(slots, q, os, j);
      Unequal(q, j, p - 1);
    } else if j > p {
      assert LinkAt(slots, q, os, j - 1);
      Unequal(q, j - 1, p - 1);
    }
  }

  lemma TailEnded(slots: Slots, lv: Levels, q: seq<Slot>, os: seq<Order>, slot: Slot, o: Order, s: Side)
    requires InArena(slots, q) && os == Orders(slots, q) && Sorted(os) && Ended(lv, q, os)
    requires var k := RankOf(o); var p := Pos(os, k);
      && (k in lv <==> p > 0 && RankOf(os[p - 1]) == k)
      && LevelAt(lv, k).tail == (if k in lv then Some(q[p - 1]) else None)
    ensures var k := RankOf(o); var p := Pos(os, k);
      Ended(lv[k := LevelAt(lv, k).PushBack(slot, o.remaining)], Put(q, p, slot), Insert(os, o))
  {
    var k := RankOf(o);
    var p := Pos(os, k);
    var lv' := lv[k := LevelAt(lv, k).PushBack(slot, o.remaining)];
    var q', os' := Put(q, p, slot), Insert(os, o);
    assert os' == Put(os, p, o);
    forall j | 0 <= j < |q'|
      ensures EndAt(lv', q', os', j)
    {
      if j < p { TailEndBefore(lv, q, os, slot, o, p, j); }
      else if j == p { TailEndNew(lv, q, os, slot, o, p); }
      else { TailEndAfter(lv, q, os, slot, o, p, j); }
    }
  }

  lemma TailEndBefore(lv: Levels, q: seq<Slot>, os: seq<Order>, slot: Slot, o: Order, p: nat, j: nat)
    requires |q| == |os| && Sorted(os) && Ended(lv, q, os) && j < p <= |q| && RankOf(os[p - 1]) <= RankOf(o)
    requires p < |q| ==> RankOf(o) < RankOf(os[p])
    requires RankOf(o) in lv ==> lv[RankOf(o)].tail.Some?
    ensures EndAt(
      lv[RankOf(o) := LevelAt(lv, RankOf(o)).PushBack(slot, o.remaining)], Put(q, p, slot), Put(os, p, o), j)
  {
    assert EndAt(lv, q, os, j);
    PutJoined(os, p, o, j);
    PutJoined(os, p, o, j - 1);
    assert j < p - 1 ==> RankOf(os[j]) <= RankOf(os[j + 1]) <= RankOf(os[p - 1]);
  }

  lemma TailEndNew(lv: Levels, q: seq<Slot>, os: seq<Order>, slot: Slot, o: Order, p: nat)
    requires |q| == |os| && p <= |q|
    requires LevelAt(lv, RankOf(o)).tail.Some? ==> p > 0 && RankOf(os[p - 1]) == RankOf(o)
    ensures EndAt(
      lv[RankOf(o) := LevelAt(lv, RankOf(o)).PushBack(slot, o.remaining)], Put(q, p, slot), Put(os, p, o), p)
  {
    PutJoined(os, p, o, p - 1);
  }

  lemma TailEndAfter(lv: Levels, q: seq<Slot>, os: seq<Order>, slot: Slot, o: Order, p: nat, j: nat)
    requires |q| == |os| && Sorted(os) && Ended(lv, q, os) && p < j <= |q| && RankOf(o) < RankOf(os[p])
    requires p > 0 ==> RankOf(os[p - 1]) <= RankOf(o)
    ensures EndAt(
      lv[RankOf(o) := LevelAt(lv, RankOf(o)).PushBack(slot, o.remaining)], Put(q, p, slot), Put(os, p, o), j)
  {
    assert EndAt(lv, q, os, j - 1);
    PutJoined(os, p, o, j);
    PutJoined(os, p, o, j - 1);
    assert RankOf(os[p]) <= RankOf(os[j - 1]);
  }

  lemma TailTotalled(lv: Levels, os: seq<Order>, slot: Slot, o: Order)
    requires Totalled(lv, os) && LevelAt(lv, RankOf(o)).totalQty == SumAt(os, RankOf(o))
    requires SumAt(os, RankOf(o)) + o.remaining <= U64_MAX && o.remaining > 0
    ensures Totalled(lv[RankOf(o) := LevelAt(lv, RankOf(o)).PushBack(slot, o.remaining)], Insert(os, o))
  {
    forall k ensures SumAt(Insert(os, o), k) == SumAt(os, k) + if RankOf(o) == k then o.remaining else 0 {
      SumPut(os, Pos(os, RankOf(o)), o, k);
    }
  }

  /** The node back at the head of its level. */
  function WireHead(slots: Slots, slot: Slot, o: Order, head: Option<Slot>): Slots
    requires head.Some? ==> head.value in slots
  {
    var s1 := slots[slot := Node(o, head, None)];
    if head.Some? then s1[head.value := s1[head.value].(prev := Some(slot))] else s1
  }

  function PushFront(l: PriceLevel, slot: Slot, qty: Qty): PriceLevel {
    PriceLevel(Some(slot), if l.tail.None? then Some(slot) else l.tail, WrapAdd(l.totalQty, qty), l.count + 1)
  }

  lemma LinkHead(slots: Slots, lv: Levels, q: seq<Slot>, s: Side, slot: Slot, o: Order)
    requires Ladder(slots, lv, q, s) && slot !in q && !Has(Orders(slots, q), o.id)
    requires o.side == s && o.kind.Limit? && 0 < o.remaining <= o.qty && o.price > 0
    requires var l := LevelAt(lv, RankOf(o)); l.totalQty + o.remaining <= U64_MAX && (l.head.None? ==> l.totalQty == 0)
    requires q != [] ==> RankOf(o) <= RankOf(Orders(slots, q)[0])
    ensures var l := LevelAt(lv, RankOf(o));
      && (l.head.Some? ==> l.head.value in slots && l.head.value in q)
      && Ladder(WireHead(slots, slot, o, l.head), lv[RankOf(o) := PushFront(l, slot, o.remaining)], [slot] + q, s)
      && Orders(WireHead(slots, slot, o, l.head), [slot] + q) == [o] + Orders(slots, q)
  {
    var os := Orders(slots, q);
    var k := RankOf(o);
    var l := LevelAt(lv, k);
    var lv' := lv[k := PushFront(l, slot, o.remaining)];
    HeadOf(slots, lv, q, s, k);
    HeadLinked(slots, q, os, slot, o, l.head, s);
    HeadEnded(slots, lv, q, os, slot, o, s);
    HeadTotalled(lv, os, slot, o);
    PutCounted(lv, q, os, 0, o, PushFront(l, slot, o.remaining));
    assert Put(os, 0, o) == [o] + os;
    HeadSide(os, s, o);
  }

  lemma HeadTotalled(lv: Levels, os: seq<Order>, slot: Slot, o: Order)
    requires Totalled(lv, os) && LevelAt(lv, RankOf(o)).totalQty == SumAt(os, RankOf(o))
    requires SumAt(os, RankOf(o)) + o.remaining <= U64_MAX && o.remaining > 0
    ensures Totalled(lv[RankOf(o) := PushFront(LevelAt(lv, RankOf(o)), slot, o.remaining)], [o] + os)
  {
    forall k ensures SumAt([o] + os, k) == SumAt(os, k) + if RankOf(o) == k then o.remaining else 0 {
      assert ([o] + os)[1..] == os;
    }
  }

  lemma HeadSide(os: seq<Order>, s: Side, o: Order)
    requires SideWF(os, s) && !Has(os, o.id) && (os != [] ==> RankOf(o) <= RankOf(os[0]))
    requires o.side == s && o.kind.Limit? && 0 < o.remaining <= o.qty && o.price > 0
    ensures SideWF([o] + os, s)
  {
    var os' := [o] + os;
    assert Distinct(os');
    assert Sorted(os');
  }

  /** An order of rank k that nothing precedes heads its level; otherwise nothing is open at rank k. */
  lemma HeadOf(slots: Slots, lv: Levels, q: seq<Slot>, s: Side, k: int)
    requires Ladder(slots, lv, q, s) && (q != [] ==> k <= RankOf(Orders(slots, q)[0]))
    requires LevelAt(lv, k).head.None? ==> LevelAt(lv, k).totalQty == 0
    ensures var os := Orders(slots, q); var l := LevelAt(lv, k);
      && (if q != [] && RankOf(os[0]) == k then k in lv && l.head == Some(q[0]) && l.tail.Some?
          else l.head == None && l.tail == None)
      && l.totalQty == SumAt(os, k)
  {
    var os := Orders(slots, q);
    if q != [] && RankOf(os[0]) == k {
      assert EndAt(lv, q, os, 0);
      TailSome(slots, lv, q, s, 0);
    } else {
      forall i | 0 <= i < |os| ensures RankOf(os[i]) != k {
        assert i > 0 ==> RankOf(os[0]) <= RankOf(os[i]);
      }
      SumAtAbsent(os, k);
    }
  }

  lemma TailSome(slots: Slots, lv: Levels, q: seq<Slot>, s: Side, i: nat)
    requires i < |q| && Ladder(slots, lv, q, s)
    ensures RankOf(Orders(slots, q)[i]) in lv && lv[RankOf(Orders(slots, q)[i])].tail.Some?
    decreases |q| - i
  {
    assert EndAt(lv, q, Orders(slots, q), i);
    if Joined(Orders(slots, q), i) {
      TailSome(slots, lv, q, s, i + 1);
    }
  }

  lemma HeadLinked(slots: Slots, q: seq<Slot>, os: seq<Order>, slot: Slot, o: Order, head: Option<Slot>, s: Side)
    requires InArena(slots, q) && os == Orders(slots, q) && SideWF(os, s) && Linked(slots, q, os) && slot !in q
    requires head == if q != [] && RankOf(os[0]) == RankOf(o) then Some(q[0]) else None
    ensures InArena(WireHead(slots, slot, o, head), [slot] + q)
      && Orders(WireHead(slots, slot, o, head), [slot] + q) == [o] + os
      && Linked(WireHead(slots, slot, o, head), [slot] + q, [o] + os)
  {
    var slots' := WireHead(slots, slot, o, head);
    var q', os' := [slot] + q, [o] + os;
    DistinctSlots(slots, q);
    assert os' == Put(os, 0, o);
    forall j | 0 <= j < |q'|
      ensures q'[j] in slots' && slots'[q'[j]].order == os'[j]
    {
      assert j > 0 ==> q'[j] == q[j - 1];
    }
    assert Orders(slots', q') == os';
    forall j | 0 <= j < |q'|
      ensures LinkAt(slots', q', os', j)
    {
      HeadLinkAt(slots, q, os, slot, o, head, j);
    }
  }

  lemma HeadLinkAt(slots: Slots, q: seq<Slot>, os: seq<Order>, slot: Slot, o: Order, head: Option<Slot>, j: nat)
    requires |q| == |os| && j <= |q| && InArena(slots, q) && Linked(slots, q, os) && slot !in q && Unrepeated(q)
    requires head == if q != [] && RankOf(os[0]) == RankOf(o) then Some(q[0]) else None
    ensures (head.Some? ==> head.value in slots) && ([slot] + q)[j] in WireHead(slots, slot, o, head)
      && LinkAt(WireHead(slots, slot, o, head), [slot] + q, [o] + os, j)
  {
    hide Joined;
    assert [o] + os == Put(os, 0, o);
    PutJoined(os, 0, o, j);
    PutJoined(os, 0, o, j - 1);
    if j > 0 {
      assert LinkAt(slots, q, os, j - 1);
      Unequal(q, j - 1, 0);
    }
  }

  lemma HeadEnded(slots: Slots, lv: Levels, q: seq<Slot>, os: seq<Order>, slot: Slot, o: Order, s: Side)
    requires InArena(slots, q) && os == Orders(slots, q) && SideWF(os, s) && Ended(lv, q, os)
    requires q != [] ==> RankOf(o) <= RankOf(os[0])
    requires var l := LevelAt(lv, RankOf(o));
      if q != [] && RankOf(os[0]) == RankOf(o) then l.head == Some(q[0]) && l.tail.Some?
      else l.head == None && l.tail == None
    ensures Ended(lv[RankOf(o) := PushFront(LevelAt(lv, RankOf(o)), slot, o.remaining)], [slot] + q, [o] + os)
  {
    var k := RankOf(o);
    var lv' := lv[k := PushFront(LevelAt(lv, k), slot, o.remaining)];
    var q', os' := [slot] + q, [o] + os;
    assert os' == Put(os, 0, o);
    forall j | 0 <= j < |q'|
      ensures EndAt(lv', q', os', j)
    {
      PutJoined(os, 0, o, j);
      PutJoined(os, 0, o, j - 1);
      if j > 0 {
        assert EndAt(lv, q, os, j - 1);
        if j > 1 { assert RankOf(os[0]) <= RankOf(os[j - 2]) <= RankOf(os[j - 1]); }
      }
    }
  }

  // ---------------------------------------------------------------- ends of a level

  /** The tail of the level of order i is the last order of its rank. */
  lemma LastOf(slots: Slots, lv: Levels, q: seq<Slot>, s: Side, i: nat) returns (j: nat)
    requires i < |q| && Ladder(slots, lv, q, s)
    ensures var os := Orders(slots, q);
      i <= j < |q| && RankOf(os[j]) == RankOf(os[i]) && !Joined(os, j)
      && RankOf(os[i]) in lv && lv[RankOf(os[i])].tail == Some(q[j])
  {
    var os := Orders(slots, q);
    j := i;
    while Joined(os, j)
      invariant i <= j < |q| && RankOf(os[j]) == RankOf(os[i])
      decreases |q| - j
    {
      j := j + 1;
    }
    assert EndAt(lv, q, os, j);
  }

  /** The order at the head of level k: the first of its rank. */
  lemma HeadIndex(slots: Slots, lv: Levels, q: seq<Slot>, s: Side, k: int) returns (i: nat)
    requires Ladder(slots, lv, q, s) && k in lv && lv[k].head.Some?
    ensures var os := Orders(slots, q);
      && i < |q| && q[i] in slots && RankOf(os[i]) == k && lv[k].head == Some(q[i]) && !Joined(os, i - 1)
      && LinkAt(slots, q, os, i)
      && (slots[q[i]].next == None <==> lv[k].tail == Some(q[i]))
  {
    var os := Orders(slots, q);
    var w := RankWitness(os, k);
    i := FirstOf(slots, lv, q, s, w);
    assert LinkAt(slots, q, os, i) && EndAt(lv, q, os, i);
    var j := LastOf(slots, lv, q, s, i);
    if i != j {
      NoRepeats(slots, q, i, j);
      assert Joined(os, i) by { assert RankOf(os[i]) <= RankOf(os[i + 1]) <= RankOf(os[j]); }
    }
  }

  /** With no empty level, the first key belongs to the first order, and no key means no order. */
  lemma BestKey(slots: Slots, lv: Levels, q: seq<Slot>, s: Side, k: int)
    requires Ladder(slots, lv, q, s) && NoEmptyLevel(lv)
    requires k in lv && forall j :: j in lv ==> k <= j
    ensures q != [] && RankOf(Orders(slots, q)[0]) == k && lv[k].head == Some(q[0])
  {
    var os := Orders(slots, q);
    var w := RankWitness(os, k);
    assert EndAt(lv, q, os, 0);
    assert w > 0 ==> RankOf(os[0]) <= RankOf(os[w]);
  }
}
