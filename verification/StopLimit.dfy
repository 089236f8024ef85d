/**
  Why stop-limit orders are out of scope. The slot of a released stop is reused at once by the order it turns into,
  and the stop map is pruned only after the loop, so an order that comes to rest there is taken for a stop again.
  This module follows the code for the pending stops of one side s, with recursion depth as fuel. The resting orders
  of side s are left out, since nothing on this path reads them.
 */
module StopLimit {
  import opened Types
  import opened PriceTime
  import opened Spec
  import opened Invariants
  import opened Priority
  import opened Levels
  import opened BookState
  import SM = StopMap

  /** The makers of the opposite side are kept as the reference sequence beside the slots they occupy. */
  datatype Memory = Memory(
    arena: Slab, makers: seq<Order>, makerSlots: seq<Slot>, ids: set<OrderId>, stops: SM.Waiting, last: Option<Price>)

  function FreeAll(a: Slab, xs: seq<Slot>): Slab
    decreases |xs|
  {
    if xs == [] then a else FreeAll(a.Remove(xs[0]), xs[1..])
  }

  function IdsOf(os: seq<Order>): set<OrderId> {
    if os == [] then {} else {os[0].id} + IdsOf(os[1..])
  }

  /** What matching the released order no in slot x leaves: filled makers leave arena and index, a rest stays in x. */
  function Settled(m: Memory, no: NewOrder, sq: nat, ts: nat): Memory {
    var x := m.arena.NextSlot();
    var taker := OrderOf(no, sq, ts);
    var r := Match(taker, m.makers, m.last, sq, ts);
    var n := if |r.makers| <= |m.makers| <= |r.makers| + |m.makerSlots| then |m.makers| - |r.makers| else 0;
    var arena := FreeAll(m.arena.Insert(Node(taker, None, None)), m.makerSlots[..n]);
    var ids := m.ids - IdsOf(m.makers[..Min(n, |m.makers|)]);
    var m1 := Memory(arena, r.makers, m.makerSlots[n..], ids, m.stops, r.last);
    if r.remaining > 0 && no.kind.Limit?
    then m1.(arena := arena.Set(x, Node(taker.(remaining := r.remaining), None, None)), ids := m1.ids + {no.id})
    else m1.(arena := arena.Remove(x))
  }

  /** A released order goes through the checks, is matched, and triggers again on the price it left. */
  function Resubmit(fuel: nat, s: Side, m: Memory, no: NewOrder, sq: nat, ts: nat): Option<Memory>
    decreases fuel, 2, 0
  {
    if no.qty == 0 || no.id in m.ids || (NeedsPrice(no.kind) && no.price <= 0) then Some(m)
    else
      var m1 := Settled(m, no, sq, ts);
      if m1.last.Some? then TriggerSide(fuel, s, m1, m1.last.value, sq, ts) else Some(m1)
  }

  /** The slots are collected first; the map is pruned when all of them have been through. */
  function TriggerSide(fuel: nat, s: Side, m: Memory, last: Price, sq: nat, ts: nat): Option<Memory>
    decreases fuel, 1, 0
  {
    var k := Rank(s.Opposite(), last);
    match Fire(fuel, s, m, SM.UpTo(m.stops, k), sq, ts)
    case None => None
    case Some(m1) => Some(m1.(stops := SM.Retain(m1.stops, k)))
  }

  /** None stands for a recursion deeper than fuel. */
  function Fire(fuel: nat, s: Side, m: Memory, xs: seq<Slot>, sq: nat, ts: nat): Option<Memory>
    decreases fuel, 0, |xs|
  {
    if xs == [] then Some(m)
    else if xs[0] !in m.arena.slots then Fire(fuel, s, m, xs[1..], sq, ts)
    else if fuel == 0 then None
    else
      match Resubmit(fuel - 1, s, Freed(m, xs[0]), Released(m.arena.slots[xs[0]].order), sq, ts)
      case None => None
      case Some(m1) => Fire(fuel, s, m1, xs[1..], sq, ts)
  }

  /** A triggered order leaves arena and index before it is submitted again. */
  function Freed(m: Memory, x: Slot): Memory
    requires x in m.arena.slots
  {
    m.(arena := m.arena.Remove(x), ids := m.ids - {m.arena.slots[x].order.id})
  }

  // ---------------------------------------------------------------- the trap

  /**
    x is the first live slot listed as triggered by last, and holds a limit order that meets no maker it may trade
    with.
   */
  ghost predicate Haunted(s: Side, m: Memory, x: Slot, last: Price) {
    var xs := SM.UpTo(m.stops, Rank(s.Opposite(), last));
    && m.last == Some(last) && x in m.arena.slots
    && (exists i :: 0 <= i < |xs| && xs[i] == x && forall j :: 0 <= j < i ==> xs[j] !in m.arena.slots)
    && var o := m.arena.slots[x].order;
       && o.side == s && !o.kind.StopMarket? && o.remaining > 0 && o.price > 0
       && (m.makers == [] || Rank(s.Opposite(), o.price) < RankOf(m.makers[0]))
  }

  /** A limit order that trades with nothing takes the next slot and stays there. */
  lemma SettledQuiet(m: Memory, no: NewOrder, sq: nat, ts: nat)
    requires no.kind.Limit? && no.qty > 0
    requires m.makers == [] || Rank(no.side.Opposite(), no.price) < RankOf(m.makers[0])
    ensures Settled(m, no, sq, ts)
         == m.(arena := m.arena.Insert(Node(OrderOf(no, sq, ts), None, None)), ids := m.ids + {no.id})
  {
    hide RankOf, Match, FreeAll, IdsOf, Slab.Insert, Slab.Set, Slab.Remove;
    var taker := OrderOf(no, sq, ts);
    MatchOver(taker, m.makers, m.last, sq, ts);
    assert m.makerSlots[..0] == [] && m.makerSlots[0..] == m.makerSlots && m.makers[..0] == [];
    assert m.ids - {} == m.ids;
    assert taker.(remaining := no.qty) == taker;
    NothingFreed(m.arena.Insert(Node(taker, None, None)));
    SetInserted(m.arena, Node(taker, None, None));
  }

  lemma NothingFreed(a: Slab)
    ensures FreeAll(a, []) == a && IdsOf([]) == {}
  {
  }

  lemma SetInserted(a: Slab, n: Node)
    ensures a.Insert(n).Set(a.NextSlot(), n) == a.Insert(n)
  {
    var b := a.Insert(n);
    assert b.slots[a.NextSlot() := n] == b.slots;
  }

  /** Releasing such an order puts it back where it was: same slot, same order, same entry in the stop map. */
  lemma HauntedAgain(s: Side, m: Memory, x: Slot, last: Price, sq: nat, ts: nat)
    requires Haunted(s, m, x, last)
    ensures var no := Released(m.arena.slots[x].order);
      var m1 := Settled(Freed(m, x), no, sq, ts);
      && Haunted(s, m1, x, last) && no.id !in Freed(m, x).ids
      && forall fuel :: Resubmit(fuel, s, Freed(m, x), no, sq, ts) == TriggerSide(fuel, s, m1, last, sq, ts)
  {
    hide SM.UpTo, Settled, TriggerSide;
    var no := Released(m.arena.slots[x].order);
    var m1 := Settled(Freed(m, x), no, sq, ts);
    assert Freed(m, x).arena.NextSlot() == x;
    SettledQuiet(Freed(m, x), no, sq, ts);
    assert m1.arena.slots.Keys == m.arena.slots.Keys;
    assert m1.arena.slots[x].order == OrderOf(no, sq, ts);
  }

  /** From there the code never returns: no recursion depth is enough. */
  lemma {:induction false} HauntedForever(fuel: nat, s: Side, m: Memory, x: Slot, last: Price, sq: nat, ts: nat)
    requires Haunted(s, m, x, last)
    ensures TriggerSide(fuel, s, m, last, sq, ts) == None
    decreases fuel, 1, 0
  {
    hide SM.UpTo, Settled;
    var xs := SM.UpTo(m.stops, Rank(s.Opposite(), last));
    var i :| 0 <= i < |xs| && xs[i] == x && forall j :: 0 <= j < i ==> xs[j] !in m.arena.slots;
    FireForever(fuel, s, m, xs, i, last, sq, ts);
  }

  lemma {:induction false} FireForever(
    fuel: nat, s: Side, m: Memory, xs: seq<Slot>, i: nat, last: Price, sq: nat, ts: nat)
    requires i < |xs| && Haunted(s, m, xs[i], last) && forall j :: 0 <= j < i ==> xs[j] !in m.arena.slots
    ensures Fire(fuel, s, m, xs, sq, ts) == None
    decreases fuel, 0, i
  {
    hide SM.UpTo, Settled, Resubmit, TriggerSide;
    if i > 0 {
      assert xs[0] !in m.arena.slots;
      FireForever(fuel, s, m, xs[1..], i - 1, last, sq, ts);
    } else if fuel > 0 {
      var no := Released(m.arena.slots[xs[0]].order);
      HauntedAgain(s, m, xs[0], last, sq, ts);
      HauntedForever(fuel - 1, s, Settled(Freed(m, xs[0]), no, sq, ts), xs[0], last, sq, ts);
      assert Resubmit(fuel - 1, s, Freed(m, xs[0]), no, sq, ts) == None;
    }
  }

  // ---------------------------------------------------------------- exactly when it returns

  /** One stop-limit order of side s is waiting in slot x, and the last trade has reached its trigger. */
  ghost predicate OneStop(s: Side, m: Memory, x: Slot, last: Price) {
    && SideWF(m.makers, s.Opposite()) && |m.makerSlots| == |m.makers| && x !in m.makerSlots
    && x in m.arena.slots && m.last == Some(last)
    && var o := m.arena.slots[x].order;
       && o.kind.StopLimit? && o.side == s && o.remaining > 0 && o.price > 0
       && RankOf(o) <= Rank(s.Opposite(), last) && m.stops == map[RankOf(o) := [x]]
  }

  /** The quantity within the order's limit covers it. */
  predicate Covers(makers: seq<Order>, o: Order) {
    o.remaining <= SumWithin(makers, Rank(o.side.Opposite(), o.price))
  }

  /** It does, or the worst price within the limit lies on the near side of the trigger. */
  predicate Harmless(makers: seq<Order>, o: Order) {
    var n := Pos(makers, Rank(o.side.Opposite(), o.price));
    Covers(makers, o) || (n > 0 && RankOf(makers[n - 1]) < RankOf(o))
  }

  lemma OneListed(k: int, x: Slot, last: int)
    ensures SM.UpTo(map[k := [x]], last) == if k <= last then [x] else []
    ensures SM.Retain(map[k := [x]], last) == if k <= last then map[] else map[k := [x]]
    ensures SM.Retain(map[], last) == map[]
  {
    hide SM.SortedKeys;
    var m: SM.Waiting := map[k := [x]];
    NoKeys();
    if k <= last {
      SM.UpToLast(m, k);
      assert (set j | j in m && j <= k - 1) == {};
      assert (set j | j in m && j <= last) == set j | j in m && j <= k;
      assert SM.UpTo(m, last) == SM.UpTo(m, k);
      assert SM.At(m, k) == [x] && [] + [x] == [x];
    } else {
      assert (set j | j in m && j <= last) == {};
    }
  }

  lemma NoKeys()
    ensures SM.SortedKeys({}) == []
  {
  }

  /** What a released order leaves behind, in terms of the reference match. */
  lemma SettledParts(m: Memory, no: NewOrder, sq: nat, ts: nat)
    requires no.kind.Limit? && no.qty > 0
    requires SideWF(m.makers, no.side.Opposite()) && |m.makerSlots| == |m.makers| && m.arena.NextSlot() !in m.makerSlots
    ensures var r := Match(OrderOf(no, sq, ts), m.makers, m.last, sq, ts); var m1 := Settled(m, no, sq, ts);
      var x := m.arena.NextSlot();
      && m1.makers == r.makers && m1.stops == m.stops && m1.last == r.last
      && (x in m1.arena.slots <==> r.remaining > 0)
      && (r.remaining > 0 ==> m1.arena.slots[x].order == OrderOf(no, sq, ts).(remaining := r.remaining))
      && (r.remaining > 0 && r.makers != [] ==> Rank(no.side.Opposite(), no.price) < RankOf(r.makers[0]))
      && (m.last.Some? ==> r.last.Some?)
  {
    hide SideWF, Match, RankOf;
    MatchKeeps(OrderOf(no, sq, ts), m.makers, m.last, sq, ts);
  }

  /**
    The memory after a released order was matched, slot by slot and id by id: the makers used up have left arena, index
    and queue, the order itself is in its slot and indexed exactly if it rests, and everything else is as before.
   */
  lemma SettledExactly(m: Memory, no: NewOrder, sq: nat, ts: nat)
    requires no.kind.Limit? && SideWF(m.makers, no.side.Opposite()) && |m.makerSlots| == |m.makers|
    requires m.arena.NextSlot() !in m.makerSlots && m.arena.NextSlot() !in m.arena.slots
    ensures var r := Match(OrderOf(no, sq, ts), m.makers, m.last, sq, ts); var m1 := Settled(m, no, sq, ts);
      var n := |m.makers| - |r.makers|; var x := m.arena.NextSlot();
      && 0 <= n <= |m.makers| && m1.makers == r.makers && m1.makerSlots == m.makerSlots[n..]
      && (forall y :: y in m1.arena.slots <==>
           if y == x then r.remaining > 0 else y in m.arena.slots && y !in m.makerSlots[..n])
      && (forall y :: y in m1.arena.slots && y != x ==> m1.arena.slots[y] == m.arena.slots[y])
      && (forall id :: id in m1.ids <==>
           (id == no.id && r.remaining > 0) || (id in m.ids && forall i :: 0 <= i < n ==> m.makers[i].id != id))
      && m1.stops == m.stops && m1.last == r.last
  {
    hide Match, SideWF, FreeAll, IdsOf;
    var taker := OrderOf(no, sq, ts);
    var r := Match(taker, m.makers, m.last, sq, ts);
    MakersShrink(taker, m.makers, m.last, sq, ts);
    var n := |m.makers| - |r.makers|;
    FreeAllExactly(m.arena.Insert(Node(taker, None, None)), m.makerSlots[..n]);
    IdsExactly(m.makers[..n]);
    assert forall i :: 0 <= i < n ==> m.makers[..n][i] == m.makers[i];
    assert m.arena.NextSlot() !in m.makerSlots[..n];
  }

  /** A match only takes makers away. */
  lemma {:induction false} MakersShrink(taker: Order, makers: seq<Order>, last: Option<Price>, sq: nat, ts: nat)
    ensures |Match(taker, makers, last, sq, ts).makers| <= |makers|
    decreases |makers|
  {
    hide Match;
    if taker.remaining == 0 || makers == [] || !Crosses(taker, makers[0]) {
      MatchOver(taker, makers, last, sq, ts);
    } else {
      MatchStep(taker, makers, last, sq, ts);
      var t := Min(taker.remaining, makers[0].remaining);
      if makers[0].remaining == t {
        MakersShrink(taker.(remaining := taker.remaining - t), makers[1..], Some(makers[0].price), sq, ts);
      }
    }
  }

  lemma {:induction false} FreeAllExactly(a: Slab, xs: seq<Slot>)
    ensures forall y :: y in FreeAll(a, xs).slots <==> y in a.slots && y !in xs
    ensures forall y :: y in FreeAll(a, xs).slots ==> FreeAll(a, xs).slots[y] == a.slots[y]
    decreases |xs|
  {
    if xs != [] { FreeAllExactly(a.Remove(xs[0]), xs[1..]); }
  }

  lemma {:induction false} IdsExactly(os: seq<Order>)
    ensures forall id :: id in IdsOf(os) <==> exists i :: 0 <= i < |os| && os[i].id == id
  {
    if os != [] {
      IdsExactly(os[1..]);
      forall id ensures id in IdsOf(os) <==> exists i :: 0 <= i < |os| && os[i].id == id {
        if i :| 0 <= i < |os| && os[i].id == id {
          assert i > 0 ==> os[1..][i - 1].id == id;
        }
        if id in IdsOf(os[1..]) {
          var i :| 0 <= i < |os[1..]| && os[1..][i].id == id;
          assert os[i + 1].id == id;
        }
      }
    }
  }

  /**
    The cascade returns exactly when the quantity within the order's limit covers it, or the worst price within the
    limit is short of the trigger, so that its own trades take the price back. It then leaves the reference match, the
    stop gone and the remainder, if any, at rest.
   */
  lemma ReturnsExactly(s: Side, m: Memory, x: Slot, last: Price, sq: nat, ts: nat)
    requires OneStop(s, m, x, last)
    ensures var o := m.arena.slots[x].order;
      var m1 := Settled(Freed(m, x), Released(o), sq, ts);
      && ((exists fuel :: TriggerSide(fuel, s, m, last, sq, ts).Some?) <==> Harmless(m.makers, o))
      && (Harmless(m.makers, o) ==>
            && TriggerSide(1, s, m, last, sq, ts) == Some(m1.(stops := map[]))
            && m1.makers == Match(OrderOf(Released(o), sq, ts), m.makers, m.last, sq, ts).makers
            && (x in m1.arena.slots <==> !Covers(m.makers, o)))
  {
    hide SM.UpTo, SM.Retain, Settled, Match, SideWF, Harmless, Covers, TriggerSide, ReleasedOnce;
    var o := m.arena.slots[x].order;
    var no := Released(o);
    var r := Match(OrderOf(no, sq, ts), m.makers, m.last, sq, ts);
    var m1 := Settled(Freed(m, x), no, sq, ts);
    assert Freed(m, x).arena.NextSlot() == x;
    SettledParts(Freed(m, x), no, sq, ts);
    HarmlessMatch(s, m, x, last, sq, ts);
    var next := r.last.value;
    forall fuel: nat ensures TriggerSide(fuel, s, m, last, sq, ts) == ReleasedOnce(fuel, s, m1, next, last, sq, ts) {
      FirstRelease(fuel, s, m, x, last, sq, ts);
    }
    if Harmless(m.makers, o) {
      OnceReturns(s, m1, RankOf(o), x, next, last, sq, ts);
      var depth: nat := 1;
      assert TriggerSide(depth, s, m, last, sq, ts).Some?;
    } else {
      forall fuel: nat ensures TriggerSide(fuel, s, m, last, sq, ts) == None {
        NeverReturns(fuel, s, m1, RankOf(o), x, next, last, sq, ts);
      }
    }
  }

  /** A book where it does not return: one triggered buy stop-limit order, and nothing to trade with. */
  lemma LoopsAlone(fuel: nat)
    ensures var o := Order(1, 0, Buy, StopLimit, Gtc, 100, 100, 5, 5, 0, 0);
      var m := Memory(Slab(map[0 := Node(o, None, None)], [], 1), [], [], {1}, map[100 := [0]], Some(100));
      OneStop(Buy, m, 0, 100) && !Harmless(m.makers, o) && TriggerSide(fuel, Buy, m, 100, 0, 0) == None
  {
    hide TriggerSide, Settled;
    var o := Order(1, 0, Buy, StopLimit, Gtc, 100, 100, 5, 5, 0, 0);
    var m := Memory(Slab(map[0 := Node(o, None, None)], [], 1), [], [], {1}, map[100 := [0]], Some(100));
    assert OneStop(Buy, m, 0, 100);
    ReturnsExactly(Buy, m, 0, 100, 0, 0);
  }

  /** The condition before the call, in terms of the match. */
  lemma HarmlessMatch(s: Side, m: Memory, x: Slot, last: Price, sq: nat, ts: nat)
    requires OneStop(s, m, x, last)
    ensures var o := m.arena.slots[x].order;
      var r := Match(OrderOf(Released(o), sq, ts), m.makers, m.last, sq, ts);
      && r.last.Some? && (Covers(m.makers, o) <==> r.remaining == 0)
      && (Harmless(m.makers, o) <==> r.remaining == 0 || Rank(s.Opposite(), r.last.value) < RankOf(o))
  {
    hide Match, SideWF, SumWithin;
    var o := m.arena.slots[x].order;
    var no := Released(o);
    SettledParts(Freed(m, x), no, sq, ts);
    LimitOutcome(OrderOf(no, sq, ts), m.makers, m.last, sq, ts);
    MakerRanks(m.makers, s.Opposite());
  }

  lemma MakerRanks(makers: seq<Order>, s: Side)
    requires SideWF(makers, s)
    ensures forall i :: 0 <= i < |makers| ==> RankOf(makers[i]) == Rank(s, makers[i].price)
  {
    hide Sorted, Distinct;
  }

  /** If the remainder rests in a slot that is still triggered, the release does not return. */
  lemma NeverReturns(
    fuel: nat, s: Side, m1: Memory, k: int, x: Slot, next: Price, last: Price, sq: nat, ts: nat)
    requires m1.stops == map[k := [x]] && k <= Rank(s.Opposite(), next)
    requires m1.last == Some(next) && x in m1.arena.slots
    requires var o := m1.arena.slots[x].order;
      && o.side == s && !o.kind.StopMarket? && o.remaining > 0 && o.price > 0
      && (m1.makers == [] || Rank(s.Opposite(), o.price) < RankOf(m1.makers[0]))
    ensures ReleasedOnce(fuel, s, m1, next, last, sq, ts) == None
  {
    hide SM.UpTo, TriggerSide, RankOf;
    OneListed(k, x, Rank(s.Opposite(), next));
    assert SM.UpTo(m1.stops, Rank(s.Opposite(), next))[0] == x;
    assert Haunted(s, m1, x, next);
    if fuel > 0 { HauntedForever(fuel - 1, s, m1, x, next, sq, ts); }
  }

  /** One release, the nested trigger on the price it left, and the pruning after it. */
  function ReleasedOnce(fuel: nat, s: Side, m1: Memory, next: Price, last: Price, sq: nat, ts: nat): Option<Memory> {
    if fuel == 0 then None
    else
      match TriggerSide(fuel - 1, s, m1, next, sq, ts)
      case None => None
      case Some(m2) => Some(m2.(stops := SM.Retain(m2.stops, Rank(s.Opposite(), last))))
  }

  lemma FirstRelease(fuel: nat, s: Side, m: Memory, x: Slot, last: Price, sq: nat, ts: nat)
    requires OneStop(s, m, x, last)
    ensures var m1 := Settled(Freed(m, x), Released(m.arena.slots[x].order), sq, ts);
      m1.last.Some? ==> TriggerSide(fuel, s, m, last, sq, ts) == ReleasedOnce(fuel, s, m1, m1.last.value, last, sq, ts)
  {
    hide SM.UpTo, SM.Retain, Settled, SideWF;
    var no := Released(m.arena.slots[x].order);
    OneListed(RankOf(m.arena.slots[x].order), x, Rank(s.Opposite(), last));
    var m1 := Settled(Freed(m, x), no, sq, ts);
    if m1.last.Some? && fuel > 0 {
      var inner := TriggerSide(fuel - 1, s, m1, m1.last.value, sq, ts);
      assert Resubmit(fuel - 1, s, Freed(m, x), no, sq, ts) == inner;
      assert [x][1..] == [];
      assert inner.Some? ==> Fire(fuel, s, inner.value, [x][1..], sq, ts) == inner;
      assert Fire(fuel, s, m, [x], sq, ts) == inner;
    }
  }

  /** A nested trigger that finds nothing live returns, and the outer pruning drops the entry. */
  lemma OnceReturns(s: Side, m1: Memory, k: int, x: Slot, next: Price, last: Price, sq: nat, ts: nat)
    requires m1.stops == map[k := [x]] && k <= Rank(s.Opposite(), last)
    requires x !in m1.arena.slots || Rank(s.Opposite(), next) < k
    ensures ReleasedOnce(1, s, m1, next, last, sq, ts) == Some(m1.(stops := map[]))
  {
    hide SM.UpTo, SM.Retain;
    OneListed(k, x, Rank(s.Opposite(), next));
    OneListed(k, x, Rank(s.Opposite(), last));
    assert [x][1..] == [];
    var inner := m1.(stops := SM.Retain(m1.stops, Rank(s.Opposite(), next)));
    assert TriggerSide(0, s, m1, next, sq, ts) == Some(inner);
    assert inner.(stops := map[]) == m1.(stops := map[]);
  }
}
