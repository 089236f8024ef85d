/**
  A book rebuilt by inserting its orders one by one, in any order. Quantities, levels, best prices and depth do not
  depend on that order; the queues come back exactly when the orders of each price are inserted in time order.
 */
module Rebuild {
  import opened Types
  import opened PriceTime
  import opened Spec
  import opened Invariants
  import opened Priority
  import opened Commands
  import opened Queries
  import SM = StopMap

  /** Insertion one after the other. */
  function Stack(es: seq<Order>): seq<Order> {
    if es == [] then [] else Insert(Stack(es[..|es| - 1]), es[|es| - 1])
  }

  function OnSide(es: seq<Order>, s: Side): seq<Order> {
    if es == [] then []
    else OnSide(es[..|es| - 1], s) + if es[|es| - 1].side == s then [es[|es| - 1]] else []
  }

  /** The book without stops that holds the orders es, inserted in this order. */
  function Rebuilt(es: seq<Order>, last: Option<Price>): Book {
    Book(Stack(OnSide(es, Buy)), Stack(OnSide(es, Sell)), [], [], last)
  }

  lemma RebuiltStep(es: seq<Order>, o: Order, last: Option<Price>)
    ensures var b := Rebuilt(es, last);
      Rebuilt(es + [o], last) == WithResting(b, o.side, Insert(Resting(b, o.side), o))
  {
    hide Insert;
    SideStep(es, o, Buy);
    SideStep(es, o, Sell);
  }

  lemma SideStep(es: seq<Order>, o: Order, s: Side)
    ensures OnSide(es + [o], s) == OnSide(es, s) + if o.side == s then [o] else []
    ensures Stack(OnSide(es + [o], s)) == if o.side == s then Insert(Stack(OnSide(es, s)), o) else Stack(OnSide(es, s))
  {
    hide Insert;
    assert (es + [o])[..|es|] == es;
    var side := OnSide(es, s);
    assert (side + [o])[..|side|] == side;
    assert side + [] == side;
  }

  // ---------------------------------------------------------------- permutations

  /** Two listings of the same orders, each order once. */
  ghost predicate Relists(es: seq<Order>, os: seq<Order>) {
    Distinct(es) && Distinct(os) && forall o :: o in es <==> o in os
  }

  lemma Rejoins(os: seq<Order>, i: nat, o: Order)
    requires i < |os| && Distinct(os)
    ensures o in os[..i] + os[i + 1..] <==> o in os && o != os[i]
  {
    var rest := os[..i] + os[i + 1..];
    if o in os && o != os[i] {
      var j :| 0 <= j < |os| && os[j] == o;
      assert rest[if j < i then j else j - 1] == o;
    }
    if o in rest {
      var j :| 0 <= j < |rest| && rest[j] == o;
      assert os[if j < i then j else j + 1] == o;
    }
  }

  lemma Inside(os: seq<Order>, i: nat)
    ensures i < |os| ==> os[i] in os
  {
  }

  lemma {:induction false} SumAtRelists(es: seq<Order>, os: seq<Order>, k: int)
    requires Relists(es, os)
    ensures SumAt(es, k) == SumAt(os, k)
    decreases |es|
  {
    hide Distinct;
    if es == [] {
      Inside(os, 0);
    } else {
      assert es[0] in es;
      var i :| 0 <= i < |os| && os[i] == es[0];
      var rest := os[..i] + os[i + 1..];
      forall o ensures o in es[1..] <==> o in rest {
        Rejoins(es, 0, o);
        Rejoins(os, i, o);
        assert es[..0] + es[1..] == es[1..];
      }
      DropOrdered(es, 0);
      DropOrdered(os, i);
      assert es[..0] + es[1..] == es[1..];
      SumAtRelists(es[1..], rest, k);
      SumDrop(os, i, k);
    }
  }

  lemma InsertMembers(os: seq<Order>, o: Order)
    ensures forall p :: p in Insert(os, o) <==> p in os || p == o
  {
    var i := Pos(os, RankOf(o));
    assert os == os[..i] + os[i..];
  }

  lemma FrontMembers(es: seq<Order>)
    requires es != []
    ensures forall p :: p in es <==> p in es[..|es| - 1] || p == es[|es| - 1]
    ensures Distinct(es) ==> Distinct(es[..|es| - 1]) && forall p :: p in es[..|es| - 1] ==> p.id != es[|es| - 1].id
  {
    assert es == es[..|es| - 1] + [es[|es| - 1]];
  }

  lemma NotHasId(os: seq<Order>, id: OrderId)
    requires forall p :: p in os ==> p.id != id
    ensures !Has(os, id)
  {
    Inside(os, IndexOf(os, id));
  }

  lemma {:induction false} StackLists(es: seq<Order>)
    requires Distinct(es)
    ensures Relists(Stack(es), es) && Sorted(Stack(es))
    decreases |es|
  {
    hide Insert, Distinct, Sorted, Has;
    FrontEmpty();
    if es != [] {
      var front, o := es[..|es| - 1], es[|es| - 1];
      FrontMembers(es);
      StackLists(front);
      InsertMembers(Stack(front), o);
      InsertSorted(Stack(front), o);
      NotHasId(Stack(front), o.id);
      InsertDistinct(Stack(front), o);
    }
  }

  lemma FrontEmpty()
    ensures Distinct([]) && Sorted([])
  {
  }

  lemma {:induction false} OnSideLists(es: seq<Order>, s: Side)
    requires Distinct(es)
    ensures Distinct(OnSide(es, s)) && forall o :: o in OnSide(es, s) <==> o in es && o.side == s
    decreases |es|
  {
    hide Distinct;
    FrontEmpty();
    if es != [] {
      FrontMembers(es);
      OnSideLists(es[..|es| - 1], s);
      var side := OnSide(es[..|es| - 1], s);
      DistinctLast(side, es[|es| - 1]);
      assert side + [] == side;
    }
  }

  lemma DistinctLast(os: seq<Order>, o: Order)
    requires Distinct(os)
    ensures (forall p :: p in os ==> p.id != o.id) ==> Distinct(os + [o])
  {
  }

  /** es lists the resting orders of a book. */
  ghost predicate Enumerates(es: seq<Order>, b: Book) {
    Distinct(es) && forall o :: o in es <==> o in b.bids || o in b.asks
  }

  lemma SideRelists(es: seq<Order>, b: Book, s: Side)
    requires Inv(b) && Enumerates(es, b)
    ensures Relists(OnSide(es, s), Resting(b, s)) && Relists(Stack(OnSide(es, s)), Resting(b, s))
    ensures Sorted(Stack(OnSide(es, s)))
  {
    hide Sorted, Stack, OnSide, StopsWF, Distinct;
    OnSideLists(es, s);
    StackLists(OnSide(es, s));
  }

  lemma SideWFRelists(os: seq<Order>, ps: seq<Order>, s: Side)
    requires SideWF(os, s) && Relists(ps, os) && Sorted(ps)
    ensures SideWF(ps, s)
  {
    forall i | 0 <= i < |ps|
      ensures ps[i].side == s && ps[i].kind.Limit? && 0 < ps[i].remaining <= ps[i].qty && ps[i].price > 0
    {
      assert ps[i] in ps;
    }
  }

  // ---------------------------------------------------------------- what does not depend on the order

  /** The ranks of a sequence of orders. */
  ghost function Ranks(os: seq<Order>): set<int> {
    set i | 0 <= i < |os| :: RankOf(os[i])
  }

  lemma GroupedRanks(os: seq<Order>, ps: seq<Order>, s: Side)
    requires SideWF(os, s) && SideWF(ps, s) && Relists(ps, os)
    ensures Grouped(ps, s, SM.SortedKeys(Ranks(os)))
  {
    hide Sorted, Distinct, SM.SortedKeys;
    var ks := SM.SortedKeys(Ranks(os));
    forall i | 0 <= i < |ps| ensures RankOf(ps[i]) in ks {
      assert ps[i] in ps;
    }
    forall k | k in ks ensures SumAt(ps, k) > 0 {
      var i :| 0 <= i < |os| && RankOf(os[i]) == k;
      assert os[i] in os;
      var j :| 0 <= j < |ps| && ps[j] == os[i];
      SumAtMember(ps, j);
    }
  }

  /** Two well-formed listings of the same orders have the same totals and the same depth at any length. */
  lemma DepthRelists(os: seq<Order>, ps: seq<Order>, s: Side, n: nat)
    requires SideWF(os, s) && SideWF(ps, s) && Relists(ps, os)
    ensures DepthOf(ps, n) == DepthOf(os, n)
  {
    hide SideWF, Distinct, SM.SortedKeys, DepthOf, Grouped, Ranks;
    var ks := SM.SortedKeys(Ranks(os));
    GroupedRanks(os, ps, s);
    assert Relists(os, os);
    GroupedRanks(os, os, s);
    EntriesAreDepth(s, os, ks, n);
    EntriesAreDepth(s, ps, ks, n);
    forall k | k in First(ks, n) ensures SumAt(os, k) == SumAt(ps, k) {
      SumAtRelists(ps, os, k);
    }
    EntriesFrame(s, os, ps, First(ks, n));
  }

  lemma TopDepth(os: seq<Order>)
    ensures Top(os) == if DepthOf(os, 1) == [] then None else Some(DepthOf(os, 1)[0])
  {
  }

  /**
    Whatever order the orders are inserted in: the book is well formed, with the same totals, best prices and
    depth.
   */
  lemma RebuiltSame(es: seq<Order>, b: Book, last: Option<Price>)
    requires Inv(b) && Enumerates(es, b)
    ensures var r := Rebuilt(es, last);
      && Inv(r)
      && (forall s: Side :: Relists(Resting(r, s), Resting(b, s)) && Top(Resting(r, s)) == Top(Resting(b, s)))
      && (forall s: Side, k :: SumAt(Resting(r, s), k) == SumAt(Resting(b, s), k))
      && (forall s: Side, n: nat :: DepthOf(Resting(r, s), n) == DepthOf(Resting(b, s), n))
  {
    hide Distinct, Sorted, Stack, OnSide, SideWF, StopsWF, DepthOf, Top, Relists, SumAt, Enumerates;
    var r := Rebuilt(es, last);
    forall s: Side
      ensures SideWF(Resting(r, s), s) && Relists(Resting(r, s), Resting(b, s))
    {
      SideRelists(es, b, s);
      SideWFRelists(Resting(b, s), Resting(r, s), s);
    }
    forall s: Side, n: nat ensures DepthOf(Resting(r, s), n) == DepthOf(Resting(b, s), n) {
      DepthRelists(Resting(b, s), Resting(r, s), s, n);
    }
    forall s: Side, k ensures SumAt(Resting(r, s), k) == SumAt(Resting(b, s), k) {
      SumAtRelists(Resting(r, s), Resting(b, s), k);
    }
    forall s: Side ensures Top(Resting(r, s)) == Top(Resting(b, s)) {
      TopDepth(Resting(r, s));
      TopDepth(Resting(b, s));
    }
    assert Resting(r, Buy) == r.bids && Resting(b, Buy) == b.bids && Resting(r, Sell) == r.asks
      && Resting(b, Sell) == b.asks;
    RebuiltInv(r, b);
  }

  lemma RebuiltInv(r: Book, b: Book)
    requires Inv(b) && SideWF(r.bids, Buy) && SideWF(r.asks, Sell) && r.buyStops == [] && r.sellStops == []
    requires Relists(r.bids, b.bids) && Relists(r.asks, b.asks) && Top(r.bids) == Top(b.bids)
      && Top(r.asks) == Top(b.asks)
    ensures Inv(r)
  {
    hide Sorted, SumAt;
    FrontEmpty();
    forall id | Has(r.bids, id) ensures !Has(r.asks, id) {
      RelistsHas(r.bids, b.bids, id);
      RelistsHas(r.asks, b.asks, id);
    }
    assert NoShared(r.bids, r.asks);
    assert forall id :: !Has([], id);
    assert UniqueIds(r);
    assert NoCross(r);
  }

  lemma RelistsHas(ps: seq<Order>, os: seq<Order>, id: OrderId)
    requires Relists(ps, os)
    ensures Has(ps, id) <==> Has(os, id)
  {
    Inside(ps, IndexOf(ps, id));
    Inside(os, IndexOf(os, id));
    if !Has(os, id) { Absent(os, id); }
    if !Has(ps, id) { Absent(ps, id); }
  }

  lemma Absent(os: seq<Order>, id: OrderId)
    requires !Has(os, id)
    ensures forall o :: o in os ==> o.id != id
  {
    forall o | o in os ensures o.id != id {
      var i :| 0 <= i < |os| && os[i] == o;
      NotHas(os, id, i);
    }
  }

  // ---------------------------------------------------------------- what does

  /** es lists the orders of each rank of os in the order of os. */
  ghost predicate InTimeOrder(es: seq<Order>, os: seq<Order>) {
    forall i, j :: 0 <= i < j < |os| && RankOf(os[i]) == RankOf(os[j]) ==> IndexOf(es, os[i].id) < IndexOf(es, os[j].id)
  }

  lemma IndexFront(es: seq<Order>, id: OrderId)
    requires es != []
    ensures var front := es[..|es| - 1];
      && (Has(front, id) ==> IndexOf(es, id) == IndexOf(front, id))
      && (!Has(front, id) && es[|es| - 1].id == id ==> IndexOf(es, id) == |front|)
  {
    var front := es[..|es| - 1];
    var i := IndexOf(front, id);
    if i < |front| {
      assert es[i].id == id && forall j :: 0 <= j < i ==> es[j].id == front[j].id;
    } else {
      assert forall j :: 0 <= j < |front| ==> es[j].id == front[j].id;
    }
  }

  /** Inserting behind equals keeps the order of insertion within a rank. */
  lemma {:induction false} StackStable(es: seq<Order>)
    requires Distinct(es)
    ensures InTimeOrder(es, Stack(es))
    decreases |es|
  {
    hide Distinct, Sorted, IndexOf, Insert;
    if es != [] {
      var front, o := es[..|es| - 1], es[|es| - 1];
      FrontMembers(es);
      StackLists(front);
      StackStable(front);
      InsertStable(es, Stack(front));
    }
  }

  lemma InsertStable(es: seq<Order>, os: seq<Order>)
    requires es != [] && Distinct(es) && Relists(os, es[..|es| - 1]) && Sorted(os) && InTimeOrder(es[..|es| - 1], os)
    ensures InTimeOrder(es, Insert(os, es[|es| - 1]))
  {
    hide Distinct, IndexOf, Relists, Pos, Sorted;
    var front, o := es[..|es| - 1], es[|es| - 1];
    var p := Pos(os, RankOf(o));
    var r := Insert(os, o);
    forall i, j | 0 <= i < j < |r| && RankOf(r[i]) == RankOf(r[j])
      ensures IndexOf(es, r[i].id) < IndexOf(es, r[j].id)
    {
      InsertedAt(es, os, i);
      InsertedAt(es, os, j);
    }
  }

  lemma InsertElement(os: seq<Order>, o: Order, i: nat)
    requires Sorted(os) && i <= |os|
    ensures var p := Pos(os, RankOf(o)); var r := Insert(os, o);
      && p <= |os| && |r| == |os| + 1 && r[i] == (if i < p then os[i] else if i == p then o else os[i - 1])
      && (i > p ==> RankOf(o) < RankOf(os[i - 1]))
  {
    var p := Pos(os, RankOf(o));
    assert i > p ==> RankOf(os[p]) <= RankOf(os[i - 1]);
  }

  /** Where the orders stand after the last one of es is inserted, in the result and in es. */
  lemma InsertedAt(es: seq<Order>, os: seq<Order>, i: nat)
    requires es != [] && Distinct(es) && Relists(os, es[..|es| - 1]) && Sorted(os) && i <= |os|
    ensures var front, o := es[..|es| - 1], es[|es| - 1]; var p := Pos(os, RankOf(o)); var r := Insert(os, o);
      && r[i] == (if i < p then os[i] else if i == p then o else os[i - 1])
      && IndexOf(es, r[i].id) == (if i == p then |front| else IndexOf(front, r[i].id))
      && (i != p ==> IndexOf(front, r[i].id) < |front|)
      && (i > p ==> RankOf(o) < RankOf(r[i]))
  {
    hide Distinct, IndexOf, Insert, Pos, Sorted, RankOf;
    var front, o := es[..|es| - 1], es[|es| - 1];
    var p := Pos(os, RankOf(o));
    InsertElement(os, o, i);
    FrontMembers(es);
    if i == p {
      NotHasId(front, o.id);
      IndexFront(es, o.id);
    } else {
      var x := os[if i < p then i else i - 1];
      assert x in os && x in front;
      MemberHas(front, x);
      IndexFront(es, x.id);
    }
  }

  lemma MemberHas(os: seq<Order>, o: Order)
    requires o in os
    ensures Has(os, o.id)
  {
    var i :| 0 <= i < |os| && os[i] == o;
    if !Has(os, o.id) { NotHas(os, o.id, i); }
  }

  /** The order inserted last stands behind all of its rank. */
  lemma LastPos(es: seq<Order>, os: seq<Order>, j: nat)
    requires es != [] && Relists(es, os) && Sorted(os) && InTimeOrder(es, os)
    requires j < |os| && os[j] == es[|es| - 1]
    ensures Insert(os[..j] + os[j + 1..], os[j]) == os
  {
    hide Distinct, IndexOf;
    var o, rest := os[j], os[..j] + os[j + 1..];
    forall i | j < i < |os| ensures RankOf(o) < RankOf(os[i]) {
      assert RankOf(o) <= RankOf(os[i]);
      if RankOf(os[i]) == RankOf(o) {
        assert os[i] in os;
        LastIndex(es, os[i].id);
      }
    }
    PosIs(rest, RankOf(o), j);
    DropPut(os, j);
  }

  lemma LastIndex(es: seq<Order>, id: OrderId)
    requires es != [] && Distinct(es) && Has(es, id)
    ensures IndexOf(es, id) <= IndexOf(es, es[|es| - 1].id)
  {
  }

  lemma {:induction false} TimeOrderStack(es: seq<Order>, os: seq<Order>)
    requires Relists(es, os) && Sorted(os) && InTimeOrder(es, os)
    ensures Stack(es) == os
    decreases |es|
  {
    hide Distinct, Sorted, IndexOf, Insert;
    if es == [] {
      Inside(os, 0);
    } else {
      var front, o := es[..|es| - 1], es[|es| - 1];
      assert o in es;
      var j :| 0 <= j < |os| && os[j] == o;
      var rest := os[..j] + os[j + 1..];
      DropOrdered(os, j);
      FrontMembers(es);
      forall x ensures x in front <==> x in rest {
        Rejoins(os, j, x);
      }
      TimeOrderDrop(es, os, j);
      TimeOrderStack(front, rest);
      LastPos(es, os, j);
    }
  }

  lemma TimeOrderDrop(es: seq<Order>, os: seq<Order>, j: nat)
    requires es != [] && Relists(es, os) && InTimeOrder(es, os) && j < |os| && os[j] == es[|es| - 1]
    ensures InTimeOrder(es[..|es| - 1], os[..j] + os[j + 1..])
  {
    hide Relists, IndexOf;
    var front, rest := es[..|es| - 1], os[..j] + os[j + 1..];
    forall a, b | 0 <= a < b < |rest| && RankOf(rest[a]) == RankOf(rest[b])
      ensures IndexOf(front, rest[a].id) < IndexOf(front, rest[b].id)
    {
      FrontIndex(es, os, j, a);
      FrontIndex(es, os, j, b);
    }
  }

  lemma FrontIndex(es: seq<Order>, os: seq<Order>, j: nat, a: nat)
    requires es != [] && Relists(es, os) && j < |os| && os[j] == es[|es| - 1] && a < |os| - 1
    ensures var rest := os[..j] + os[j + 1..];
      rest[a] == os[if a < j then a else a + 1] && IndexOf(es[..|es| - 1], rest[a].id) == IndexOf(es, rest[a].id)
  {
    hide Distinct, IndexOf;
    var rest := os[..j] + os[j + 1..];
    FrontMembers(es);
    Inside(rest, a);
    Rejoins(os, j, rest[a]);
    MemberHas(es[..|es| - 1], rest[a]);
    IndexFront(es, rest[a].id);
  }

  /** A queue comes back exactly when the orders of each price are inserted in time order. */
  lemma StackExactly(es: seq<Order>, os: seq<Order>)
    requires Relists(es, os) && Sorted(os)
    ensures Stack(es) == os <==> InTimeOrder(es, os)
  {
    hide Distinct, Sorted, IndexOf, Stack;
    if Stack(es) == os { StackStable(es); }
    if InTimeOrder(es, os) { TimeOrderStack(es, os); }
  }

  /** The insertion order keeps every price level in time order. */
  ghost predicate KeepsTime(es: seq<Order>, b: Book) {
    InTimeOrder(OnSide(es, Buy), b.bids) && InTimeOrder(OnSide(es, Sell), b.asks)
  }

  lemma RebuiltExactly(es: seq<Order>, b: Book)
    requires Inv(b) && Enumerates(es, b) && Pending(b) == 0
    ensures Rebuilt(es, b.lastTrade) == b <==> KeepsTime(es, b)
  {
    hide Distinct, Sorted, Stack, OnSide, InTimeOrder;
    SideRelists(es, b, Buy);
    SideRelists(es, b, Sell);
    StackExactly(OnSide(es, Buy), b.bids);
    StackExactly(OnSide(es, Sell), b.asks);
    assert b.buyStops == [] && b.sellStops == [];
  }

  // ---------------------------------------------------------------- telling two queues apart

  /** The makers of the trades, in order. */
  function Makers(events: seq<OutputEvent>): seq<OrderId> {
    if events == [] then [] else (if events[0].Trade? then [events[0].maker] else []) + Makers(events[1..])
  }

  lemma {:induction false} MakersConcat(es: seq<OutputEvent>, fs: seq<OutputEvent>)
    ensures Makers(es + fs) == Makers(es) + Makers(fs)
  {
    if es == [] {
      assert es + fs == fs;
    } else {
      assert (es + fs)[1..] == es[1..] + fs && (es + fs)[0] == es[0];
      MakersConcat(es[1..], fs);
      var first := if es[0].Trade? then [es[0].maker] else [];
      assert first + (Makers(es[1..]) + Makers(fs)) == first + Makers(es[1..]) + Makers(fs);
    }
  }

  lemma OneNote(e: OutputEvent)
    requires !e.Trade?
    ensures Makers([e]) == []
  {
    assert [e][1..] == [];
  }

  /** A market order for qty of side s. */
  function Probe(id: OrderId, s: Side, qty: Qty): NewOrder {
    NewOrder(id, 0, s.Opposite(), Market, Gtc, 0, 0, qty)
  }

  /** A market order for no more than the first order of a side trades with that order alone. */
  lemma ProbeMatch(taker: Order, os: seq<Order>, last: Option<Price>, sq: nat, ts: nat)
    requires taker.kind.Market? && os != [] && 0 < taker.remaining <= os[0].remaining
    ensures var r := Match(taker, os, last, sq, ts);
      && r.remaining == 0 && r.last == Some(os[0].price) && Makers(r.events) == [os[0].id]
      && (taker.remaining == os[0].remaining ==>
            && r.makers == os[1..]
            && r.events == [TradeOf(taker, os[0], taker.remaining, sq, ts), Filled(os[0].id, sq)])
  {
    hide Match, Makers;
    var left := os[0].remaining - taker.remaining;
    var trade := TradeOf(taker, os[0], taker.remaining, sq, ts);
    MatchStep(taker, os, last, sq, ts);
    if left == 0 {
      MatchOver(taker.(remaining := 0), os[1..], Some(os[0].price), sq, ts);
      assert [trade, Filled(os[0].id, sq)] + [] == [trade, Filled(os[0].id, sq)];
      MakersPair(trade, Filled(os[0].id, sq));
    } else {
      MakersPair(trade, PartiallyFilled(os[0].id, taker.remaining, left, sq));
    }
  }

  lemma MakersPair(trade: OutputEvent, note: OutputEvent)
    requires trade.Trade? && !note.Trade?
    ensures Makers([trade, note]) == [trade.maker]
  {
    OneNote(note);
    assert [trade, note][1..] == [note];
    assert [trade.maker] + [] == [trade.maker];
  }

  /** A probe of a book without stops names the first order of the side; one of its whole quantity takes it away. */
  lemma ProbeBook(b: Book, s: Side, id: OrderId, qty: Qty)
    requires Inv(b) && Pending(b) == 0 && !HasId(b, id) && Resting(b, s) != [] && 0 < qty <= Resting(b, s)[0].remaining
    ensures var o := SubmitNew(b, Probe(id, s, qty), 0, 0); var head := Resting(b, s)[0];
      && Makers(o.events) == [head.id]
      && (qty == head.remaining ==>
            && o.book == WithResting(b, s, Resting(b, s)[1..]).(lastTrade := Some(head.price))
            && o.events ==
               [Accepted(id, 0), TradeOf(OrderOf(Probe(id, s, qty), 0, 0), head, qty, 0, 0), Filled(head.id, 0)]
                           + [Filled(id, 0)])
  {
    hide Sorted, Distinct, Match, HasId, Makers, Trigger;
    var no := Probe(id, s, qty);
    ProbeMatch(OrderOf(no, 0, 0), Resting(b, s), b.lastTrade, 0, 0);
    var r := Match(OrderOf(no, 0, 0), Resting(b, s), b.lastTrade, 0, 0);
    var p := Place(b, no, 0, 0);
    assert p.events == [Accepted(id, 0)] + r.events + [Filled(id, 0)];
    MakersConcat([Accepted(id, 0)] + r.events, [Filled(id, 0)]);
    MakersConcat([Accepted(id, 0)], r.events);
    OneNote(Accepted(id, 0));
    OneNote(Filled(id, 0));
    QuietTriggersNothing(p.book, 0, 0);
    assert p.events + [] == p.events;
  }

  lemma {:induction false} IdBound(os: seq<Order>) returns (top: nat)
    ensures forall id: OrderId :: Has(os, id) ==> id < top
    decreases |os|
  {
    top := 0;
    if os != [] {
      var rest := IdBound(os[1..]);
      top := rest + os[0].id + 1;
      forall id: OrderId | Has(os, id) ensures id < top {
        assert os[0].id == id || Has(os[1..], id);
      }
    }
  }

  lemma FreshId(b: Book) returns (id: OrderId)
    ensures !HasId(b, id)
  {
    hide Has;
    var i := IdBound(b.bids);
    var j := IdBound(b.asks);
    var k := IdBound(b.buyStops);
    var l := IdBound(b.sellStops);
    id := i + j + k + l;
  }

  /** Two books with the same orders and different queues answer some stream of market orders with different trades. */
  lemma {:induction false} QueueShows(r: Book, b: Book, s: Side) returns (cs: seq<Sequenced>)
    requires Inv(r) && Inv(b) && Pending(r) == 0 && Pending(b) == 0
    requires Relists(r.bids, b.bids) && Relists(r.asks, b.asks) && Resting(r, s) != Resting(b, s)
    ensures Run(r, cs).events != Run(b, cs).events
    decreases |Resting(b, s)|
  {
    hide Sorted, Distinct, HasId, SubmitNew, Makers, Relists, Inv, Pending, Run;
    BothHeads(r, b, s);
    var id := FreshId(b);
    SameHasId(r, b, id);
    var rs, os := Resting(r, s), Resting(b, s);
    if rs[0].id != os[0].id {
      var c := Sequenced(0, 0, New(Probe(id, s, 1)));
      ProbeBook(r, s, id, 1);
      ProbeBook(b, s, id, 1);
      RunOne(r, c);
      RunOne(b, c);
      cs := [c];
    } else {
      SameHead(rs, os);
      var c := Sequenced(0, 0, New(Probe(id, s, os[0].remaining)));
      ProbeBook(r, s, id, os[0].remaining);
      ProbeBook(b, s, id, os[0].remaining);
      var r', b' := Apply(r, c).book, Apply(b, c).book;
      ApplyKeeps(r, c);
      ApplyKeeps(b, c);
      SamePending(r, r');
      SamePending(b, b');
      assert rs == [os[0]] + rs[1..] && os == [os[0]] + os[1..];
      var rest := QueueShows(r', b', s);
      RunOne(r, c);
      RunOne(b, c);
      RunConcat(r, [c], rest);
      RunConcat(b, [c], rest);
      SameFront(Apply(b, c).events, Run(r', rest).events, Run(b', rest).events);
      cs := [c] + rest;
    }
  }

  lemma SameFront<T>(front: seq<T>, x: seq<T>, y: seq<T>)
    ensures front + x == front + y ==> x == y
  {
    assert (front + x)[|front|..] == x && (front + y)[|front|..] == y;
  }

  lemma BothHeads(r: Book, b: Book, s: Side)
    requires Inv(r) && Inv(b) && Relists(Resting(r, s), Resting(b, s)) && Resting(r, s) != Resting(b, s)
    ensures Resting(r, s) != [] && Resting(b, s) != []
    ensures Resting(r, s)[0].remaining > 0 && Resting(b, s)[0].remaining > 0
  {
    hide Sorted, Distinct;
    Inside(Resting(r, s), 0);
    Inside(Resting(b, s), 0);
  }

  /** Listings with the same first id have the same first order and list the same rest. */
  lemma SameHead(rs: seq<Order>, os: seq<Order>)
    requires Relists(rs, os) && rs != [] && os != [] && rs[0].id == os[0].id
    ensures rs[0] == os[0] && Relists(rs[1..], os[1..])
  {
    hide Distinct;
    Inside(rs, 0);
    var j :| 0 <= j < |os| && os[j] == rs[0];
    FirstId(os, j);
    assert rs[..0] + rs[1..] == rs[1..] && os[..0] + os[1..] == os[1..];
    DropOrdered(rs, 0);
    DropOrdered(os, 0);
    forall o ensures o in rs[1..] <==> o in os[1..] {
      Rejoins(rs, 0, o);
      Rejoins(os, 0, o);
    }
  }

  lemma FirstId(os: seq<Order>, j: nat)
    requires Distinct(os) && j < |os| && os[j].id == os[0].id
    ensures j == 0
  {
  }

  lemma RunOne(b: Book, c: Sequenced)
    ensures Run(b, [c]) == Apply(b, c)
  {
    hide Apply;
    assert [c][1..] == [];
    assert Apply(b, c).events + [] == Apply(b, c).events;
  }

  lemma SameHasId(r: Book, b: Book, id: OrderId)
    requires Relists(r.bids, b.bids) && Relists(r.asks, b.asks) && Pending(r) == 0 && Pending(b) == 0
    ensures HasId(r, id) <==> HasId(b, id)
  {
    hide IndexOf;
    RelistsHas(r.bids, b.bids, id);
    RelistsHas(r.asks, b.asks, id);
    assert r.buyStops == b.buyStops == [] && r.sellStops == b.sellStops == [];
  }

  /**
    Recovery from a list of a book's orders answers every later command stream as the book itself does, exactly
    when the list keeps every price level in time order.
   */
  lemma RebuiltBehaves(es: seq<Order>, b: Book)
    requires Inv(b) && Enumerates(es, b) && Pending(b) == 0
    ensures KeepsTime(es, b) <==>
      forall cs: seq<Sequenced> :: Run(Rebuilt(es, b.lastTrade), cs).events == Run(b, cs).events
  {
    hide Distinct, Sorted, Inv, KeepsTime, Enumerates, Sum, Run, Relists, Pending, Stack, OnSide;
    var r := Rebuilt(es, b.lastTrade);
    RebuiltExactly(es, b);
    if r != b {
      RebuiltSame(es, b, b.lastTrade);
      assert Relists(Resting(r, Buy), Resting(b, Buy)) && Relists(Resting(r, Sell), Resting(b, Sell));
      NothingPending(r, b);
      var cs := QueueShows(r, b, if r.bids != b.bids then Buy else Sell);
      assert Run(r, cs).events != Run(b, cs).events;
    }
  }

  lemma NothingPending(r: Book, b: Book)
    requires Pending(b) == 0 && r.buyStops == [] && r.sellStops == []
    ensures Pending(r) == 0 && b.buyStops == [] && b.sellStops == []
  {
  }
}
