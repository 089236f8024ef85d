/**
  Which commands are refused, with which reason and at what cost: conditions a client can read off the book before
  the call, in the order in which they are checked.
 */
module Refusals {
  import opened Types
  import opened PriceTime
  import opened Spec
  import opened Invariants
  import opened Priority
  import opened Releases

  /** An order of the book, resting or waiting, carries the id. */
  ghost predicate Known(b: Book, id: OrderId) {
    exists o :: (o in b.bids || o in b.asks || o in b.buyStops || o in b.sellStops) && o.id == id
  }

  lemma KnownIs(b: Book, id: OrderId)
    ensures Known(b, id) <==> HasId(b, id)
  {
    hide Has;
    HasMember(b.bids, id);
    HasMember(b.asks, id);
    HasMember(b.buyStops, id);
    HasMember(b.sellStops, id);
  }

  lemma HasMember(os: seq<Order>, id: OrderId)
    ensures Has(os, id) <==> exists o :: o in os && o.id == id
  {
    if Has(os, id) {
      assert os[IndexOf(os, id)] in os;
    }
    forall o | o in os && o.id == id ensures Has(os, id) {
      var i :| 0 <= i < |os| && os[i] == o;
    }
  }

  /** The quantity an order of side s finds within its limit price. */
  function Within(b: Book, s: Side, limit: Price): nat {
    if s.Buy? then AtMost(b.asks, limit) else AtLeast(b.bids, limit)
  }

  function AtMost(os: seq<Order>, limit: Price): nat {
    if os == [] then 0 else (if os[0].price <= limit then os[0].remaining else 0) + AtMost(os[1..], limit)
  }

  function AtLeast(os: seq<Order>, limit: Price): nat {
    if os == [] then 0 else (if os[0].price >= limit then os[0].remaining else 0) + AtLeast(os[1..], limit)
  }

  lemma {:induction false} AtMostIs(os: seq<Order>, limit: Price)
    requires forall o :: o in os ==> o.side.Sell? && o.kind.Limit?
    ensures AtMost(os, limit) == SumWithin(os, Rank(Sell, limit))
  {
    if os != [] { AtMostIs(os[1..], limit); }
  }

  lemma {:induction false} AtLeastIs(os: seq<Order>, limit: Price)
    requires forall o :: o in os ==> o.side.Buy? && o.kind.Limit?
    ensures AtLeast(os, limit) == SumWithin(os, Rank(Buy, limit))
  {
    if os != [] { AtLeastIs(os[1..], limit); }
  }

  lemma WithinIs(b: Book, s: Side, limit: Price)
    requires Inv(b)
    ensures Within(b, s, limit) == SumWithin(Resting(b, s.Opposite()), Rank(s.Opposite(), limit))
  {
    hide Sorted, Distinct, SumWithin;
    RestingSides(b, s.Opposite());
    if s.Buy? { AtMostIs(b.asks, limit); } else { AtLeastIs(b.bids, limit); }
  }

  /** No event of a tape is a rejection. */
  ghost predicate NoneRejected(es: seq<OutputEvent>) {
    forall e :: e in es ==> !e.Rejected?
  }

  /**
    A new order is refused for quantity 0, then for an id the book has, then for a limit price that is not positive,
    and leaves the book alone. A fill-or-kill order is accepted and refused when the quantity within its limit falls
    short. Nothing else is refused.
   */
  lemma NewRefused(b: Book, no: NewOrder, sq: nat, ts: nat)
    requires Inv(b)
    ensures var out := Apply(b, Sequenced(sq, ts, New(no)));
      if no.qty == 0 then out == Outcome(b, [Rejected(no.id, ZeroQty, sq)])
      else if Known(b, no.id) then out == Outcome(b, [Rejected(no.id, DuplicateId, sq)])
      else if (no.kind.Limit? || no.kind.Ioc? || no.kind.Fok? || no.kind.StopLimit?) && no.price <= 0 then
        out == Outcome(b, [Rejected(no.id, BadPrice, sq)])
      else if no.kind.Fok? && Within(b, no.side, no.price) < no.qty then
        out == Outcome(b, [Accepted(no.id, sq), Rejected(no.id, FokUnfillable, sq)])
      else
        out.events != [] && out.events[0] == Accepted(no.id, sq) && NoneRejected(out.events)
  {
    hide Inv, Place, Trigger, SumWithin, Within, Known, HasId, Available;
    KnownIs(b, no.id);
    if Admitted(b, no) && !IsStop(no.kind) {
      WithinIs(b, no.side, no.price);
      Capped(b, no);
      if no.kind.Fok? && Within(b, no.side, no.price) < no.qty {
        PlaceRefused(b, no, sq, ts);
      } else {
        AcceptedClean(b, no, sq, ts);
      }
    }
  }

  /** The cap on the quantity the check can see makes no difference. */
  lemma Capped(b: Book, no: NewOrder)
    ensures Available(b, no.side, no.price) < no.qty
      <==> SumWithin(Resting(b, no.side.Opposite()), Rank(no.side.Opposite(), no.price)) < no.qty
  {
    hide SumWithin;
  }

  lemma AcceptedClean(b: Book, no: NewOrder, sq: nat, ts: nat)
    requires Inv(b) && Admitted(b, no) && !IsStop(no.kind)
    requires !(no.kind.Fok? && Available(b, no.side, no.price) < no.qty)
    ensures var es := SubmitNew(b, no, sq, ts).events;
      es != [] && es[0] == Accepted(no.id, sq) && NoneRejected(es)
  {
    hide Inv, SubmitNew, Place, Trigger, Match, Available, HasStop;
    var closing := PlaceSplit(b, no, sq, ts);
    MatchEvents(OrderOf(no, sq, ts), Resting(b, no.side.Opposite()), b.lastTrade, sq, ts);
    SubmitSplit(b, no, sq, ts);
    PlaceKeepsInv(b, no, sq, ts);
    var p := Place(b, no, sq, ts);
    if p.settled && p.book.lastTrade.Some? {
      TriggerEvents(p.book, p.book.lastTrade.value, sq, ts);
    }
  }

  /** A cancel is refused for an unknown id only; otherwise the order is gone and every other one stands. */
  lemma CancelRefused(b: Book, id: OrderId, symbol: SymbolId, sq: nat, ts: nat)
    requires Inv(b)
    ensures var out := Apply(b, Sequenced(sq, ts, Cancel(id, symbol)));
      if !Known(b, id) then out == Outcome(b, [Rejected(id, UnknownId, sq)])
      else
        && out.events == [Cancelled(id, sq)] && out.book.lastTrade == b.lastTrade
        && AllBut(b.bids, id, out.book.bids) && AllBut(b.asks, id, out.book.asks)
        && AllBut(b.buyStops, id, out.book.buyStops) && AllBut(b.sellStops, id, out.book.sellStops)
  {
    hide Has, Known, AllBut, Without, Inv;
    KnownIs(b, id);
    RemovedAll(b, id);
  }

  /** The orders of os but the one called id, in their order. */
  ghost predicate AllBut(os: seq<Order>, id: OrderId, rest: seq<Order>) {
    && (forall o :: o in rest ==> o.id != id)
    && (rest == os || exists i :: 0 <= i < |os| && os[i].id == id && rest == os[..i] + os[i + 1..])
  }

  lemma RemovedAll(b: Book, id: OrderId)
    requires Inv(b)
    ensures var r := Remove(b, id);
      && AllBut(b.bids, id, r.bids) && AllBut(b.asks, id, r.asks)
      && AllBut(b.buyStops, id, r.buyStops) && AllBut(b.sellStops, id, r.sellStops)
  {
    hide Sorted, Distinct, Without, AllBut;
    WithoutAllBut(b.bids, id);
    WithoutAllBut(b.asks, id);
    WithoutAllBut(b.buyStops, id);
    WithoutAllBut(b.sellStops, id);
  }

  lemma WithoutAllBut(os: seq<Order>, id: OrderId)
    requires Sorted(os) && Distinct(os)
    ensures AllBut(os, id, Without(os, id))
  {
    WithoutKeeps(os, id);
    HasMember(Without(os, id), id);
    var i := IndexOf(os, id);
    if i < |os| {
      assert Without(os, id) == os[..i] + os[i + 1..];
    }
  }

  /**
    A replace is refused for quantity 0, then for an unknown id, and then leaves the book alone. With a limit price
    that is not positive the new order is refused, but by then the old one has left the book.
   */
  lemma ReplaceRefused(b: Book, id: OrderId, newPrice: Price, newQty: Qty, symbol: SymbolId, sq: nat, ts: nat)
    requires Inv(b)
    ensures var out := Apply(b, Sequenced(sq, ts, Replace(id, newPrice, newQty, symbol)));
      if newQty == 0 then out == Outcome(b, [Rejected(id, ZeroQty, sq)])
      else if !Known(b, id) then out == Outcome(b, [Rejected(id, UnknownId, sq)])
      else if newPrice <= 0 && !WaitsAtMarket(b, id) then
        && out.events == [Replaced(id, sq), Rejected(id, BadPrice, sq)] && out.book.lastTrade == b.lastTrade
        && AllBut(b.bids, id, out.book.bids) && AllBut(b.asks, id, out.book.asks)
        && AllBut(b.buyStops, id, out.book.buyStops) && AllBut(b.sellStops, id, out.book.sellStops)
      else
        && |out.events| >= 2 && out.events[0] == Replaced(id, sq) && out.events[1] == Accepted(id, sq)
        && NoneRejected(out.events)
  {
    hide Inv, SubmitNew, Known, HasId, Fetch, Remove, WaitsAtMarket, AllBut;
    KnownIs(b, id);
    FetchKnown(b, id);
    if newQty > 0 && HasId(b, id) {
      var no := Renewed(Fetch(b, id).value, id, newPrice, newQty);
      RemoveKeeps(b, id);
      RemovedAll(b, id);
      FetchedKind(b, id);
      KnownIs(Remove(b, id), id);
      NewRefused(Remove(b, id), no, sq, ts);
      SameLast(b, id);
    }
  }

  /** A stop without a limit is pending under the id. */
  ghost predicate WaitsAtMarket(b: Book, id: OrderId) {
    exists o :: (o in b.buyStops || o in b.sellStops) && o.id == id && o.kind.StopMarket?
  }

  lemma SameLast(b: Book, id: OrderId)
    ensures Remove(b, id).lastTrade == b.lastTrade
  {
    hide Without;
  }

  lemma FetchKnown(b: Book, id: OrderId)
    ensures HasId(b, id) <==> Fetch(b, id).Some?
  {
  }

  /** The order a replace finds: a resting limit order or the pending stop. */
  lemma FetchedKind(b: Book, id: OrderId)
    requires Inv(b) && HasId(b, id)
    ensures Fetch(b, id).Some? && (Fetch(b, id).value.kind.StopMarket? <==> WaitsAtMarket(b, id))
    ensures !Fetch(b, id).value.kind.Fok?
    ensures !Fetch(b, id).value.kind.StopMarket? ==>
      Fetch(b, id).value.kind.Limit? || Fetch(b, id).value.kind.StopLimit?
  {
    hide Sorted, IndexOf;
    var o := Fetch(b, id).value;
    if Has(b.buyStops, id) { OneNamed(b.buyStops, id); }
    if Has(b.sellStops, id) { OneNamed(b.sellStops, id); }
    HasMember(b.buyStops, id);
    HasMember(b.sellStops, id);
  }

  lemma OneNamed(os: seq<Order>, id: OrderId)
    requires Distinct(os) && Has(os, id)
    ensures forall o :: o in os && o.id == id ==> Lookup(os, id) == Some(o)
    ensures Lookup(os, id).Some? && Lookup(os, id).value in os && Lookup(os, id).value.id == id
  {
    forall o | o in os && o.id == id ensures Lookup(os, id) == Some(o) {
      var i :| 0 <= i < |os| && os[i] == o;
      LookupMember(os, i);
    }
  }

  /**
    A command answered with a rejection has left the book as it was, unless it is a replace of a known order with a
    positive quantity: that order is lost.
   */
  lemma RejectedUntouched(b: Book, c: Sequenced)
    requires Inv(b) && exists e :: e in Apply(b, c).events && e.Rejected?
    ensures Apply(b, c).book == b <==> !(c.cmd.Replace? && c.cmd.newQty > 0 && Known(b, c.cmd.id))
  {
    hide Inv, Apply, Known, Within, WaitsAtMarket, AllBut;
    match c.cmd
    case New(no) => NewRefused(b, no, c.seqNo, c.ts);
    case Cancel(id, symbol) =>
      CancelRefused(b, id, symbol, c.seqNo, c.ts);
    case Replace(id, newPrice, newQty, symbol) =>
      ReplaceRefused(b, id, newPrice, newQty, symbol, c.seqNo, c.ts);
      if newQty > 0 && Known(b, id) { KnownLost(b, Apply(b, c).book, id); }
  }

  lemma KnownLost(b: Book, r: Book, id: OrderId)
    requires Known(b, id) && AllBut(b.bids, id, r.bids) && AllBut(b.asks, id, r.asks)
    requires AllBut(b.buyStops, id, r.buyStops) && AllBut(b.sellStops, id, r.sellStops)
    ensures r != b
  {
  }
}
