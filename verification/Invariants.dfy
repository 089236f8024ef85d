/**
  What every command keeps: the sides stay in price-time order with open quantity in every order,
  ids stay unique over the whole book, and the book never crosses. After an order that reaches
  the stop check no pending stop is left on the triggered side of the last trade.
 */
module Invariants {
  import opened Types
  import opened PriceTime
  import opened Spec

  ghost predicate SideWF(os: seq<Order>, s: Side) {
    && Sorted(os) && Distinct(os)
    && forall i :: 0 <= i < |os| ==>
         os[i].side == s && os[i].kind.Limit? && 0 < os[i].remaining <= os[i].qty && os[i].price > 0
  }

  ghost predicate StopsWF(os: seq<Order>, s: Side) {
    && Sorted(os) && Distinct(os)
    && forall i :: 0 <= i < |os| ==>
         os[i].side == s && IsStop(os[i].kind) && 0 < os[i].remaining == os[i].qty
           && (os[i].kind.StopLimit? ==> os[i].price > 0)
  }

  ghost predicate NoShared(os: seq<Order>, ps: seq<Order>) {
    forall id :: Has(os, id) ==> !Has(ps, id)
  }

  ghost predicate UniqueIds(b: Book) {
    && NoShared(b.bids, b.asks) && NoShared(b.bids, b.buyStops) && NoShared(b.bids, b.sellStops)
    && NoShared(b.asks, b.buyStops) && NoShared(b.asks, b.sellStops) && NoShared(b.buyStops, b.sellStops)
  }

  ghost predicate WF(b: Book) {
    && SideWF(b.bids, Buy) && SideWF(b.asks, Sell)
    && StopsWF(b.buyStops, Buy) && StopsWF(b.sellStops, Sell)
    && UniqueIds(b)
  }

  /** Best bid below best ask, or a side is empty. */
  ghost predicate NoCross(b: Book) {
    b.bids != [] && b.asks != [] ==> b.bids[0].price < b.asks[0].price
  }

  ghost predicate Inv(b: Book) {
    WF(b) && NoCross(b)
  }

  /** No pending stop is on the triggered side of the last trade. */
  ghost predicate Quiet(b: Book) {
    b.lastTrade.Some? ==>
      forall s: Side, i :: 0 <= i < |Stops(b, s)| ==> Rank(s.Opposite(), b.lastTrade.value) < RankOf(Stops(b, s)[i])
  }

  // ---------------------------------------------------------------- one sequence at a time

  lemma SideInsert(os: seq<Order>, s: Side, o: Order)
    requires SideWF(os, s) && !Has(os, o.id)
    requires o.side == s && o.kind.Limit? && 0 < o.remaining <= o.qty && o.price > 0
    ensures SideWF(Insert(os, o), s)
    ensures forall id :: Has(Insert(os, o), id) <==> id == o.id || Has(os, id)
  {
    InsertSorted(os, o);
    InsertDistinct(os, o);
    forall id ensures Has(Insert(os, o), id) <==> id == o.id || Has(os, id) {
      InsertLookup(os, o, id);
    }
  }

  lemma StopsInsert(os: seq<Order>, s: Side, o: Order)
    requires StopsWF(os, s) && !Has(os, o.id)
    requires o.side == s && IsStop(o.kind) && 0 < o.remaining == o.qty && (o.kind.StopLimit? ==> o.price > 0)
    ensures StopsWF(Insert(os, o), s)
    ensures forall id :: Has(Insert(os, o), id) <==> id == o.id || Has(os, id)
  {
    InsertSorted(os, o);
    InsertDistinct(os, o);
    forall id ensures Has(Insert(os, o), id) <==> id == o.id || Has(os, id) {
      InsertLookup(os, o, id);
    }
  }

  lemma InsertDistinct(os: seq<Order>, o: Order)
    requires Distinct(os) && !Has(os, o.id)
    ensures Distinct(Insert(os, o))
  {
    var p := Pos(os, RankOf(o));
    var r := Insert(os, o);
    forall i, j | 0 <= i < j < |r| ensures r[i].id != r[j].id {
      assert i != p ==> r[i] == os[if i < p then i else i - 1];
      assert j != p ==> r[j] == os[if j < p then j else j - 1];
    }
  }

  lemma WithoutKeeps(os: seq<Order>, id: OrderId)
    requires Distinct(os) && Sorted(os)
    ensures Distinct(Without(os, id)) && Sorted(Without(os, id))
    ensures forall i :: 0 <= i < |Without(os, id)| ==> Without(os, id)[i] in os
    ensures forall x :: Has(Without(os, id), x) <==> x != id && Has(os, x)
  {
    if Has(os, id) {
      DropOrdered(os, IndexOf(os, id));
    }
    forall x ensures Has(Without(os, id), x) <==> x != id && Has(os, x) {
      WithoutLookup(os, id, x);
    }
  }

  lemma RemoveKeeps(b: Book, id: OrderId)
    requires Inv(b)
    ensures Inv(Remove(b, id))
    ensures forall x :: HasId(Remove(b, id), x) <==> x != id && HasId(b, x)
  {
    hide SideWF, StopsWF, Has, Without;
    WithoutSide(b.bids, Buy, id);
    WithoutSide(b.asks, Sell, id);
    WithoutStops(b.buyStops, Buy, id);
    WithoutStops(b.sellStops, Sell, id);
    var r := Remove(b, id);
    if r.bids != [] && r.asks != [] {
      HeadWithout(b.bids, Buy, id);
      HeadWithout(b.asks, Sell, id);
    }
  }

  lemma WithoutSide(os: seq<Order>, s: Side, id: OrderId)
    requires SideWF(os, s)
    ensures SideWF(Without(os, id), s) && forall x :: Has(Without(os, id), x) <==> x != id && Has(os, x)
  {
    hide Sorted, Distinct, Has, Without;
    WithoutKeeps(os, id);
  }

  lemma WithoutStops(os: seq<Order>, s: Side, id: OrderId)
    requires StopsWF(os, s)
    ensures StopsWF(Without(os, id), s) && forall x :: Has(Without(os, id), x) <==> x != id && Has(os, x)
  {
    hide Sorted, Distinct, Has, Without;
    WithoutKeeps(os, id);
  }

  /** Removing an order never improves the best rank. */
  lemma HeadWithout(os: seq<Order>, s: Side, id: OrderId)
    requires SideWF(os, s) && Without(os, id) != []
    ensures os != [] && RankOf(os[0]) <= RankOf(Without(os, id)[0])
    ensures Without(os, id)[0].side == s && Without(os, id)[0].kind.Limit? && os[0].side == s && os[0].kind.Limit?
  {
  }

  lemma SideTail(os: seq<Order>, s: Side)
    requires SideWF(os, s) && os != []
    ensures SideWF(os[1..], s) && (forall id :: Has(os[1..], id) ==> Has(os, id))
    ensures |os| > 1 ==> RankOf(os[0]) <= RankOf(os[1])
  {
  }

  /** Less quantity left in its first order leaves a side in order. */
  lemma SideHead(os: seq<Order>, s: Side, left: Qty)
    requires SideWF(os, s) && os != [] && 0 < left <= os[0].remaining
    ensures var r := [os[0].(remaining := left)] + os[1..];
      SideWF(r, s) && RankOf(r[0]) == RankOf(os[0]) && forall id :: Has(r, id) ==> Has(os, id)
  {
    var r := [os[0].(remaining := left)] + os[1..];
    assert r[1..] == os[1..];
    forall i | 0 <= i < |r| ensures r[i].id == os[i].id && RankOf(r[i]) == RankOf(os[i]) {
    }
  }

  // ---------------------------------------------------------------- matching

  /** Matching keeps the makers' side in order and stops only where nothing more can trade. */
  lemma {:induction false} MatchKeeps(taker: Order, makers: seq<Order>, last: Option<Price>, sq: nat, ts: nat)
    requires SideWF(makers, taker.side.Opposite())
    ensures var r := Match(taker, makers, last, sq, ts);
      && SideWF(r.makers, taker.side.Opposite())
      && (forall id :: Has(r.makers, id) ==> Has(makers, id))
      && (r.makers != [] ==> makers != [] && RankOf(makers[0]) <= RankOf(r.makers[0]))
      && (r.remaining > 0 ==> r.makers == [] || !Crosses(taker, r.makers[0]))
      && (r.last == last || r.last.Some?)
    decreases |makers|
  {
    hide Match, Sorted, Distinct, SideWF, Has;
    if taker.remaining > 0 && makers != [] && Crosses(taker, makers[0]) {
      MatchStep(taker, makers, last, sq, ts);
      var t := Min(taker.remaining, makers[0].remaining);
      if makers[0].remaining == t {
        SideTail(makers, taker.side.Opposite());
        MatchKeeps(taker.(remaining := taker.remaining - t), makers[1..], Some(makers[0].price), sq, ts);
      } else {
        SideHead(makers, taker.side.Opposite(), makers[0].remaining - t);
      }
    } else {
      MatchOver(taker, makers, last, sq, ts);
    }
  }

  /** The book once the makers are consumed and before the taker's remainder is dealt with. */
  function AfterMatch(b: Book, taker: Order, sq: nat, ts: nat): Book {
    var r := Match(taker, Resting(b, taker.side.Opposite()), b.lastTrade, sq, ts);
    WithResting(b, taker.side.Opposite(), r.makers).(lastTrade := r.last)
  }

  lemma AfterMatchKeeps(b: Book, taker: Order, sq: nat, ts: nat)
    requires Inv(b)
    ensures Inv(AfterMatch(b, taker, sq, ts))
    ensures forall x :: HasId(AfterMatch(b, taker, sq, ts), x) ==> HasId(b, x)
  {
    hide Sorted, Distinct, Match;
    MatchKeeps(taker, Resting(b, taker.side.Opposite()), b.lastTrade, sq, ts);
    var b1 := AfterMatch(b, taker, sq, ts);
    assert UniqueIds(b1);
    assert NoCross(b1);
  }

  lemma RestKeeps(b: Book, o: Order)
    requires Inv(b) && !HasId(b, o.id)
    requires o.kind.Limit? && 0 < o.remaining <= o.qty && o.price > 0
    requires var opposite := Resting(b, o.side.Opposite()); opposite == [] || !Crosses(o, opposite[0])
    ensures var b1 := WithResting(b, o.side, Insert(Resting(b, o.side), o));
      Inv(b1) && forall x :: HasId(b1, x) ==> x == o.id || HasId(b, x)
  {
    hide Sorted, Distinct;
    SideInsert(Resting(b, o.side), o.side, o);
    var b1 := WithResting(b, o.side, Insert(Resting(b, o.side), o));
    assert UniqueIds(b1);
  }

  lemma PlaceKeeps(b: Book, no: NewOrder, sq: nat, ts: nat)
    requires Inv(b) && !HasId(b, no.id) && no.qty > 0 && !IsStop(no.kind) && (NeedsPrice(no.kind) ==> no.price > 0)
    ensures Inv(Place(b, no, sq, ts).book)
    ensures !no.kind.Fok? ==> Place(b, no, sq, ts).settled
    ensures forall x :: HasId(Place(b, no, sq, ts).book, x) ==> x == no.id || HasId(b, x)
  {
    var taker := OrderOf(no, sq, ts);
    var r := Match(taker, Resting(b, no.side.Opposite()), b.lastTrade, sq, ts);
    AfterMatchKeeps(b, taker, sq, ts);
    if no.kind.Limit? && r.remaining > 0 {
      MatchKeeps(taker, Resting(b, no.side.Opposite()), b.lastTrade, sq, ts);
      RestKeeps(AfterMatch(b, taker, sq, ts), taker.(remaining := r.remaining));
    }
  }

  lemma SamePending(a: Book, b: Book)
    requires a.buyStops == b.buyStops && a.sellStops == b.sellStops
    ensures Pending(a) == Pending(b) && forall x :: HasStop(a, x) <==> HasStop(b, x)
  {
    hide Has;
  }

  // ---------------------------------------------------------------- the cascade

  /** The three checks at the door. */
  predicate Admitted(b: Book, no: NewOrder) {
    no.qty > 0 && !HasId(b, no.id) && (NeedsPrice(no.kind) ==> no.price > 0)
  }

  lemma {:induction false} SubmitKeeps(b: Book, no: NewOrder, sq: nat, ts: nat)
    requires Inv(b)
    ensures Inv(SubmitNew(b, no, sq, ts).book)
    ensures Admitted(b, no) && !IsStop(no.kind) && (no.kind.Fok? ==> Place(b, no, sq, ts).settled)
      ==> Quiet(SubmitNew(b, no, sq, ts).book)
    decreases Pending(b), 2, 0
  {
    hide WF, NoCross, Place;
    if !Admitted(b, no) {
    } else if IsStop(no.kind) {
      StopKeeps(b, OrderOf(no, sq, ts));
    } else {
      PlaceKeeps(b, no, sq, ts);
      var p := Place(b, no, sq, ts);
      if p.settled && p.book.lastTrade.Some? {
        TriggerKeeps(p.book, sq, ts);
      }
    }
  }

  lemma StopKeeps(b: Book, o: Order)
    requires Inv(b) && !HasId(b, o.id) && IsStop(o.kind) && 0 < o.remaining == o.qty
      && (o.kind.StopLimit? ==> o.price > 0)
    ensures Inv(WithStops(b, o.side, Insert(Stops(b, o.side), o)))
  {
    hide Sorted, Distinct;
    StopsInsert(Stops(b, o.side), o.side, o);
    assert UniqueIds(WithStops(b, o.side, Insert(Stops(b, o.side), o)));
  }

  lemma {:induction false} TriggerKeeps(b: Book, sq: nat, ts: nat)
    requires Inv(b) && b.lastTrade.Some?
    ensures Inv(Trigger(b, b.lastTrade.value, sq, ts).book) && Quiet(Trigger(b, b.lastTrade.value, sq, ts).book)
    decreases Pending(b), 1, 0
  {
    var last := b.lastTrade.value;
    TriggeredPending(b, Buy, last);
    FireKeeps(b, Buy, Triggered(b, Buy, last), sq, ts);
    var buys := FireAll(b, Buy, Triggered(b, Buy, last), sq, ts);
    TriggeredPending(buys.book, Sell, last);
    FireKeeps(buys.book, Sell, Triggered(buys.book, Sell, last), sq, ts);
  }

  /** The first triggered stop is pending, and if none is triggered the trigger price lies beyond every stop. */
  lemma TriggeredPending(b: Book, s: Side, last: Price)
    requires Sorted(Stops(b, s))
    ensures Triggered(b, s, last) != [] ==> Has(Stops(b, s), Triggered(b, s, last)[0])
    ensures Triggered(b, s, last) == [] ==>
      forall i :: 0 <= i < |Stops(b, s)| ==> Rank(s.Opposite(), last) < RankOf(Stops(b, s)[i])
  {
    var stops := Stops(b, s);
    if Triggered(b, s, last) != [] {
      assert stops[0].id == Triggered(b, s, last)[0];
    } else if stops != [] {
      assert Rank(s.Opposite(), last) < RankOf(stops[0]);
    }
  }

  lemma ReleaseKeeps(b: Book, s: Side, id: OrderId)
    requires Inv(b) && Has(Stops(b, s), id)
    ensures var b1 := WithStops(b, s, Without(Stops(b, s), id)); Inv(b1) && !HasId(b1, id)
    ensures var stop := Lookup(Stops(b, s), id).value;
      && !IsStop(Released(stop).kind) && !Released(stop).kind.Fok?
      && stop.id == id && 0 < stop.remaining == stop.qty && stop.side == s
      && Admitted(WithStops(b, s, Without(Stops(b, s), id)), Released(stop))
  {
    hide Sorted, Distinct;
    WithoutKeeps(Stops(b, s), id);
    var b1 := WithStops(b, s, Without(Stops(b, s), id));
    assert UniqueIds(b1);
  }

  lemma {:induction false} FireKeeps(b: Book, s: Side, ids: seq<OrderId>, sq: nat, ts: nat)
    requires Inv(b)
    ensures Inv(FireAll(b, s, ids, sq, ts).book)
    ensures FireAll(b, s, ids, sq, ts).book == b || Quiet(FireAll(b, s, ids, sq, ts).book)
    decreases Pending(b), 0, |ids|
  {
    if ids == [] {
    } else if !Has(Stops(b, s), ids[0]) {
      FireKeeps(b, s, ids[1..], sq, ts);
    } else {
      ReleaseKeeps(b, s, ids[0]);
      var b1 := WithStops(b, s, Without(Stops(b, s), ids[0]));
      var no := Released(Lookup(Stops(b, s), ids[0]).value);
      SubmitKeeps(b1, no, sq, ts);
      var o := SubmitNew(b1, no, sq, ts);
      FireKeeps(o.book, s, ids[1..], sq, ts);
    }
  }

  // ---------------------------------------------------------------- commands and runs

  lemma ApplyKeeps(b: Book, c: Sequenced)
    requires Inv(b)
    ensures Inv(Apply(b, c).book)
  {
    hide Inv, SubmitNew, Remove, Fetch;
    match c.cmd
    case New(no) => SubmitKeeps(b, no, c.seqNo, c.ts);
    case Cancel(id, _) => RemoveKeeps(b, id);
    case Replace(id, newPrice, newQty, _) =>
      if newQty > 0 && Fetch(b, id).Some? {
        RemoveKeeps(b, id);
        SubmitKeeps(Remove(b, id), Renewed(Fetch(b, id).value, id, newPrice, newQty), c.seqNo, c.ts);
      }
  }

  /** Every run from the empty book ends in a well-formed, uncrossed book. */
  lemma {:induction false} RunKeeps(b: Book, cs: seq<Sequenced>)
    requires Inv(b)
    ensures Inv(Run(b, cs).book)
    decreases |cs|
  {
    if cs != [] {
      ApplyKeeps(b, cs[0]);
      RunKeeps(Apply(b, cs[0]).book, cs[1..]);
    }
  }
}
