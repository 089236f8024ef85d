/**
  What the stop cascade does, told by the tape alone: who is released, in which order, at which price, and how a
  released stop trades.
 */
module Releases {
  import opened Types
  import opened PriceTime
  import opened Spec
  import opened Invariants
  import opened Priority

  // ---------------------------------------------------------------- whose events they are

  /** An event of the order that is being placed. */
  predicate OwnEvent(e: OutputEvent, no: NewOrder, sq: nat, ts: nat) {
    && e.seqNo == sq && !e.Replaced?
    && (e.Rejected? ==> no.kind.Fok? && e == Rejected(no.id, FokUnfillable, sq))
    && (e.Trade? ==> e.taker == no.id && e.side == no.side && e.ts == ts)
    && (e.Cancelled? || e.Accepted? ==> e.id == no.id)
  }

  /** An event of a stop that was pending in b. */
  predicate CascadeEvent(e: OutputEvent, b: Book, sq: nat, ts: nat) {
    && e.seqNo == sq && !e.Replaced? && !e.Rejected?
    && (e.Trade? ==> HasStop(b, e.taker) && e.ts == ts)
    && (e.Cancelled? || e.Accepted? ==> HasStop(b, e.id))
  }

  /** A match tells of trades of its taker, and of fills of the makers. */
  predicate MatchEvent(e: OutputEvent, taker: Order, sq: nat, ts: nat) {
    && e.seqNo == sq && (e.Trade? || e.Filled? || e.PartiallyFilled?)
    && (e.Trade? ==> e.taker == taker.id && e.side == taker.side && e.ts == ts)
  }

  lemma {:induction false} MatchEvents(taker: Order, makers: seq<Order>, last: Option<Price>, sq: nat, ts: nat)
    ensures forall e :: e in Match(taker, makers, last, sq, ts).events ==> MatchEvent(e, taker, sq, ts)
    decreases |makers|
  {
    hide Match;
    if taker.remaining == 0 || makers == [] || !Crosses(taker, makers[0]) {
      MatchOver(taker, makers, last, sq, ts);
    } else {
      MatchStep(taker, makers, last, sq, ts);
      var t := Min(taker.remaining, makers[0].remaining);
      if makers[0].remaining == t {
        MatchEvents(taker.(remaining := taker.remaining - t), makers[1..], Some(makers[0].price), sq, ts);
      }
    }
  }

  /** How the tape of an order ends that has so much left: a market order does not rest, a limit order does. */
  function Ending(no: NewOrder, left: Qty, sq: nat): seq<OutputEvent> {
    if left == 0 then [Filled(no.id, sq)]
    else
      (if left < no.qty then [PartiallyFilled(no.id, no.qty - left, left, sq)] else [])
      + (if no.kind.Limit? then [] else [Cancelled(no.id, sq)])
  }

  /** Placing: the acceptance, the match, and what becomes of the rest. */
  lemma PlaceSplit(b: Book, no: NewOrder, sq: nat, ts: nat) returns (closing: seq<OutputEvent>)
    requires no.qty > 0 && !(no.kind.Fok? && Available(b, no.side, no.price) < no.qty)
    ensures var r := Match(OrderOf(no, sq, ts), Resting(b, no.side.Opposite()), b.lastTrade, sq, ts);
      && Place(b, no, sq, ts).events == [Accepted(no.id, sq)] + r.events + closing
      && closing == Ending(no, r.remaining, sq)
      && (forall e :: e in closing ==>
           OwnEvent(e, no, sq, ts) && !e.Trade? && !e.Accepted? && !e.Rejected?)
      && (Cancelled(no.id, sq) in closing <==> !no.kind.Limit? && r.remaining > 0)
  {
    hide Match, Insert;
    var r := Match(OrderOf(no, sq, ts), Resting(b, no.side.Opposite()), b.lastTrade, sq, ts);
    var note := if r.remaining < no.qty then [PartiallyFilled(no.id, no.qty - r.remaining, r.remaining, sq)] else [];
    closing := Ending(no, r.remaining, sq);
    var opening := [Accepted(no.id, sq)] + r.events;
    assert opening + (note + []) == opening + note;
    assert opening + (note + [Cancelled(no.id, sq)]) == opening + note + [Cancelled(no.id, sq)];
  }

  lemma PlaceEvents(b: Book, no: NewOrder, sq: nat, ts: nat)
    requires no.qty > 0
    ensures forall e :: e in Place(b, no, sq, ts).events ==> OwnEvent(e, no, sq, ts)
  {
    hide Place, Match;
    if no.kind.Fok? && Available(b, no.side, no.price) < no.qty {
      PlaceRefused(b, no, sq, ts);
    } else {
      var closing := PlaceSplit(b, no, sq, ts);
      MatchEvents(OrderOf(no, sq, ts), Resting(b, no.side.Opposite()), b.lastTrade, sq, ts);
    }
  }

  lemma PlaceRefused(b: Book, no: NewOrder, sq: nat, ts: nat)
    requires no.kind.Fok? && Available(b, no.side, no.price) < no.qty
    ensures Place(b, no, sq, ts) == Placed(b, [Accepted(no.id, sq), Rejected(no.id, FokUnfillable, sq)], false)
  {
  }

  /** An order that is not a stop: its own events, then those of the cascade. */
  lemma SubmitSplit(b: Book, no: NewOrder, sq: nat, ts: nat)
    requires Admitted(b, no) && !IsStop(no.kind)
    ensures var p := Place(b, no, sq, ts);
      SubmitNew(b, no, sq, ts) ==
        if p.settled && p.book.lastTrade.Some? then
          var o := Trigger(p.book, p.book.lastTrade.value, sq, ts); Outcome(o.book, p.events + o.events)
        else Outcome(p.book, p.events)
  {
    hide Place, Trigger;
  }

  lemma {:induction false} SubmitEvents(b: Book, no: NewOrder, sq: nat, ts: nat)
    requires Inv(b) && Admitted(b, no) && !IsStop(no.kind)
    ensures forall e :: e in SubmitNew(b, no, sq, ts).events ==> OwnEvent(e, no, sq, ts) || CascadeEvent(e, b, sq, ts)
    ensures forall x :: HasStop(SubmitNew(b, no, sq, ts).book, x) ==> HasStop(b, x)
    ensures forall x :: HasId(SubmitNew(b, no, sq, ts).book, x) ==> x == no.id || HasId(b, x)
    decreases Pending(b), 2, 0
  {
    hide Inv, HasStop, HasId, Place, Trigger, SubmitNew, OwnEvent;
    PlaceEvents(b, no, sq, ts);
    PlaceIds(b, no, sq, ts);
    PlaceKeepsInv(b, no, sq, ts);
    SubmitSplit(b, no, sq, ts);
    var p := Place(b, no, sq, ts);
    SamePending(b, p.book);
    if p.settled && p.book.lastTrade.Some? {
      TriggerEvents(p.book, p.book.lastTrade.value, sq, ts);
    }
  }

  lemma PlaceIds(b: Book, no: NewOrder, sq: nat, ts: nat)
    requires Inv(b) && Admitted(b, no) && !IsStop(no.kind)
    ensures forall x :: HasId(Place(b, no, sq, ts).book, x) ==> x == no.id || HasId(b, x)
  {
    hide Place, Inv, HasId;
    PlaceKeeps(b, no, sq, ts);
  }

  lemma PlaceKeepsInv(b: Book, no: NewOrder, sq: nat, ts: nat)
    requires Inv(b) && Admitted(b, no) && !IsStop(no.kind)
    ensures Inv(Place(b, no, sq, ts).book)
  {
    hide Place, Inv;
    PlaceKeeps(b, no, sq, ts);
  }

  lemma {:induction false} TriggerEvents(b: Book, last: Price, sq: nat, ts: nat)
    requires Inv(b)
    ensures forall e :: e in Trigger(b, last, sq, ts).events ==> CascadeEvent(e, b, sq, ts)
    ensures forall x :: HasStop(Trigger(b, last, sq, ts).book, x) ==> HasStop(b, x)
    ensures forall x :: HasId(Trigger(b, last, sq, ts).book, x) ==> HasId(b, x)
    decreases Pending(b), 1, 0
  {
    hide Inv, HasStop, HasId, FireAll;
    var buys := FireAll(b, Buy, Triggered(b, Buy, last), sq, ts);
    FireEvents(b, Buy, Triggered(b, Buy, last), sq, ts);
    FireKeeps(b, Buy, Triggered(b, Buy, last), sq, ts);
    FireEvents(buys.book, Sell, Triggered(buys.book, Sell, last), sq, ts);
  }

  /** The book without a released stop. */
  function Unwaited(b: Book, s: Side, id: OrderId): Book {
    WithStops(b, s, Without(Stops(b, s), id))
  }

  lemma FireStep(b: Book, s: Side, ids: seq<OrderId>, sq: nat, ts: nat)
    requires ids != []
    ensures FireAll(b, s, ids, sq, ts) ==
      if !Has(Stops(b, s), ids[0]) then FireAll(b, s, ids[1..], sq, ts)
      else
        var o := SubmitNew(Unwaited(b, s, ids[0]), Released(Lookup(Stops(b, s), ids[0]).value), sq, ts);
        var rest := FireAll(o.book, s, ids[1..], sq, ts);
        Outcome(rest.book, o.events + rest.events)
  {
    hide SubmitNew;
  }

  /** What releasing one stop starts from. */
  lemma ReleaseFacts(b: Book, s: Side, id: OrderId)
    requires Inv(b) && Has(Stops(b, s), id)
    ensures var b1 := Unwaited(b, s, id); var no := Released(Lookup(Stops(b, s), id).value);
      && Inv(b1) && Admitted(b1, no) && !IsStop(no.kind) && !no.kind.Fok? && no.id == id
      && Pending(b1) < Pending(b) && HasStop(b, id) && !HasStop(b1, id)
      && (forall x :: HasStop(b1, x) ==> HasStop(b, x)) && HasId(b, id) && forall x :: HasId(b1, x) ==> HasId(b, x)
  {
    hide Inv, Has, Lookup, Released;
    ReleaseKeeps(b, s, id);
    LookupNamed(Stops(b, s), id);
    StopsSides(b, s);
    WithoutKeeps(Stops(b, s), id);
  }

  lemma LookupNamed(os: seq<Order>, id: OrderId)
    requires Has(os, id)
    ensures Lookup(os, id).Some? && Lookup(os, id).value.id == id && |Without(os, id)| < |os|
    ensures Released(Lookup(os, id).value).id == id
  {
  }

  lemma StopsSides(b: Book, s: Side)
    requires Inv(b)
    ensures StopsWF(Stops(b, s), s) && Sorted(Stops(b, s)) && Distinct(Stops(b, s))
  {
  }

  lemma {:induction false} FireEvents(b: Book, s: Side, ids: seq<OrderId>, sq: nat, ts: nat)
    requires Inv(b)
    ensures forall e :: e in FireAll(b, s, ids, sq, ts).events ==> CascadeEvent(e, b, sq, ts)
    ensures forall x :: HasStop(FireAll(b, s, ids, sq, ts).book, x) ==> HasStop(b, x)
    ensures forall x :: HasId(FireAll(b, s, ids, sq, ts).book, x) ==> HasId(b, x)
    decreases Pending(b), 0, |ids|
  {
    hide Inv, HasStop, HasId, Has, Lookup, SubmitNew, Released, Unwaited;
    if ids != [] {
      FireStep(b, s, ids, sq, ts);
      if !Has(Stops(b, s), ids[0]) {
        hide FireAll;
        FireEvents(b, s, ids[1..], sq, ts);
      } else {
        LookupNamed(Stops(b, s), ids[0]);
        var b1, no := Unwaited(b, s, ids[0]), Released(Lookup(Stops(b, s), ids[0]).value);
        ReleaseFacts(b, s, ids[0]);
        SubmitEvents(b1, no, sq, ts);
        SubmitKeeps(b1, no, sq, ts);
        PendingShrinks(b1, no, sq, ts);
        FireEvents(SubmitNew(b1, no, sq, ts).book, s, ids[1..], sq, ts);
      }
    }
  }

  /** The ids of a book come from the book before or from the command. */
  lemma ApplyIds(b: Book, c: Sequenced, x: OrderId)
    requires Inv(b) && !HasId(b, x) && !(c.cmd.New? && c.cmd.order.id == x)
    ensures !HasId(Apply(b, c).book, x)
  {
    hide Inv, HasId, SubmitNew, Remove;
    match c.cmd
    case New(no) => SubmitIds(b, no, c.seqNo, c.ts);
    case Cancel(id, _) => RemoveKeeps(b, id);
    case Replace(id, newPrice, newQty, _) =>
      RemoveKeeps(b, id);
      if newQty > 0 && Fetch(b, id).Some? {
        SubmitIds(Remove(b, id), Renewed(Fetch(b, id).value, id, newPrice, newQty), c.seqNo, c.ts);
        FetchHas(b, id);
      }
  }

  lemma FetchHas(b: Book, id: OrderId)
    requires Fetch(b, id).Some?
    ensures HasId(b, id)
  {
  }

  lemma SubmitIds(b: Book, no: NewOrder, sq: nat, ts: nat)
    requires Inv(b)
    ensures forall x :: HasId(SubmitNew(b, no, sq, ts).book, x) ==> x == no.id || HasId(b, x)
  {
    hide Inv, HasId, Place, Trigger, Insert;
    if Admitted(b, no) {
      if IsStop(no.kind) {
        InsertIds(b, OrderOf(no, sq, ts));
      } else {
        SubmitEvents(b, no, sq, ts);
      }
    }
  }

  lemma InsertIds(b: Book, o: Order)
    requires !HasId(b, o.id)
    ensures forall x :: HasId(WithStops(b, o.side, Insert(Stops(b, o.side), o)), x) ==> x == o.id || HasId(b, x)
  {
    hide Insert, IndexOf;
    forall x ensures Has(Insert(Stops(b, o.side), o), x) ==> x == o.id || Has(Stops(b, o.side), x) {
      InsertLookup(Stops(b, o.side), o, x);
    }
  }

  lemma PendingShrinks(b: Book, no: NewOrder, sq: nat, ts: nat)
    requires !IsStop(no.kind)
    ensures Pending(SubmitNew(b, no, sq, ts).book) <= Pending(b)
  {
    hide SubmitNew;
  }

  // ---------------------------------------------------------------- how a released stop trades

  /** The trades in which x is the taker. */
  function TakenBy(x: OrderId, es: seq<OutputEvent>): seq<OutputEvent> {
    if es == [] then [] else (if es[0].Trade? && es[0].taker == x then [es[0]] else []) + TakenBy(x, es[1..])
  }

  lemma {:induction false} TakenConcat(x: OrderId, es: seq<OutputEvent>, fs: seq<OutputEvent>)
    ensures TakenBy(x, es + fs) == TakenBy(x, es) + TakenBy(x, fs)
  {
    if es == [] {
      assert es + fs == fs;
    } else {
      var first := if es[0].Trade? && es[0].taker == x then [es[0]] else [];
      assert (es + fs)[0] == es[0] && (es + fs)[1..] == es[1..] + fs;
      TakenConcat(x, es[1..], fs);
      assert first + (TakenBy(x, es[1..]) + TakenBy(x, fs)) == first + TakenBy(x, es[1..]) + TakenBy(x, fs);
    }
  }

  lemma {:induction false} TakenNone(x: OrderId, es: seq<OutputEvent>)
    requires forall e :: e in es && e.Trade? ==> e.taker != x
    ensures TakenBy(x, es) == []
  {
    if es != [] {
      assert forall e :: e in es[1..] ==> e in es;
      TakenNone(x, es[1..]);
    }
  }

  lemma {:induction false} TakenAll(x: OrderId, es: seq<OutputEvent>)
    requires forall e :: e in es && e.Trade? ==> e.taker == x
    ensures TakenBy(x, es) == Trades(es)
  {
    if es != [] {
      assert forall e :: e in es[1..] ==> e in es;
      TakenAll(x, es[1..]);
    }
  }

  /** What is within reach of an order: its limit counts for a stop-limit, a stop without a limit takes all there is. */
  function WithinReach(stop: Order, makers: seq<Order>): nat {
    if stop.kind.StopLimit? then SumWithin(makers, Rank(stop.side.Opposite(), stop.price)) else Sum(makers)
  }

  /** Taker and waterfall of the match an order of the book takes part in. */
  lemma PlaceTrades(b: Book, no: NewOrder, sq: nat, ts: nat)
    requires Inv(b) && Admitted(b, no) && !IsStop(no.kind) && !no.kind.Fok?
    ensures var makers := Resting(b, no.side.Opposite()); var p := Place(b, no, sq, ts);
      var r := Match(OrderOf(no, sq, ts), makers, b.lastTrade, sq, ts);
      && p.settled && TakenBy(no.id, p.events) == Trades(r.events)
      && AreShares(Trades(r.events), OrderOf(no, sq, ts), makers, sq, ts)
      && (Cancelled(no.id, sq) in p.events <==> !no.kind.Limit? && r.remaining > 0)
      && Volume(Trades(r.events)) + r.remaining == no.qty
  {
    hide Match, Place, AreShares, Inv, SideWF, Trades, Volume, TakenBy, Ending;
    var makers := Resting(b, no.side.Opposite());
    var taker := OrderOf(no, sq, ts);
    var r := Match(taker, makers, b.lastTrade, sq, ts);
    var closing := PlaceSplit(b, no, sq, ts);
    PlaceKeeps(b, no, sq, ts);
    MatchEvents(taker, makers, b.lastTrade, sq, ts);
    RestingSides(b, no.side.Opposite());
    Waterfalls(taker, makers, b.lastTrade, sq, ts);
    MatchConserves(taker, makers, b.lastTrade, sq, ts);
    VolumeOfTrades(r.events);
    TakenMiddle(no.id, Accepted(no.id, sq), r.events, closing);
    assert Cancelled(no.id, sq) !in r.events && Cancelled(no.id, sq) !in [Accepted(no.id, sq)];
  }

  lemma TakenMiddle(x: OrderId, first: OutputEvent, es: seq<OutputEvent>, closing: seq<OutputEvent>)
    requires !first.Trade? && forall e :: e in es && e.Trade? ==> e.taker == x
    requires forall e :: e in closing ==> !e.Trade?
    ensures TakenBy(x, [first] + es + closing) == Trades(es)
  {
    hide TakenBy, Trades;
    TakenConcat(x, [first] + es, closing);
    TakenConcat(x, [first], es);
    TakenNone(x, [first]);
    TakenNone(x, closing);
    TakenAll(x, es);
    assert [] + Trades(es) + [] == Trades(es);
  }

  lemma Waterfalls(taker: Order, makers: seq<Order>, last: Option<Price>, sq: nat, ts: nat)
    requires SideWF(makers, taker.side.Opposite())
    ensures AreShares(Trades(Match(taker, makers, last, sq, ts).events), taker, makers, sq, ts)
  {
    hide Match, SideWF, AreShares;
    PriceTimePriority(taker, makers, last, sq, ts);
  }

  lemma RestingSides(b: Book, s: Side)
    requires Inv(b)
    ensures SideWF(Resting(b, s), s)
  {
  }

  lemma {:induction false} VolumeOfTrades(es: seq<OutputEvent>)
    ensures Volume(Trades(es)) == Volume(es)
  {
    if es != [] {
      VolumeOfTrades(es[1..]);
      var first := if es[0].Trade? then [es[0]] else [];
      VolumeConcat(first, Trades(es[1..]));
      assert first != [] ==> first[1..] == [];
    }
  }

  /**
    A released stop buys if it was a buy stop and sells if it was a sell stop: its trades are its shares of the
    waterfall over the other side, for its whole quantity as far as its limit, if it has one, reaches. What a stop
    without a limit finds no maker for is cancelled; a stop-limit order is never cancelled by its release.
   */
  lemma ReleaseTrades(b: Book, s: Side, id: OrderId, sq: nat, ts: nat)
    requires Inv(b) && Has(Stops(b, s), id)
    ensures var stop := Lookup(Stops(b, s), id).value; var makers := Resting(b, s.Opposite());
      var es := FireAll(b, s, [id], sq, ts).events; var mine := TakenBy(id, es);
      && AreShares(mine, stop, makers, sq, ts) && (forall i :: 0 <= i < |mine| ==> mine[i].side == s)
      && Volume(mine) == Min(stop.remaining, WithinReach(stop, makers))
      && es != [] && es[0] == Accepted(id, sq)
      && (Cancelled(id, sq) in es <==> stop.kind.StopMarket? && Sum(makers) < stop.remaining)
  {
    hide Inv, FireAll, SubmitNew, Place, Match, HasStop, Has, Lookup, Trigger, AreShares, Sum, SumWithin, Without;
    hide Trades, Volume;
    FireStep(b, s, [id], sq, ts);
    FireNone(b, s, sq, ts);
    LookupNamed(Stops(b, s), id);
    var stop := Lookup(Stops(b, s), id).value;
    var b1, no := Unwaited(b, s, id), Released(stop);
    ReleaseFacts(b, s, id);
    StopFields(b, s, id);
    var out := SubmitNew(b1, no, sq, ts);
    var makers := Resting(b, s.Opposite());
    assert Resting(b1, s.Opposite()) == makers;
    var rest := FireAll(out.book, s, [id][1..], sq, ts);
    FireNone(out.book, s, sq, ts);
    assert [id][1..] == [];
    assert FireAll(b, s, [id], sq, ts).events == out.events + [] == out.events;
    SubmitTaken(b1, no, sq, ts);
    ReleasedReach(b1, stop, sq, ts);
    SharesLike(TakenBy(id, out.events), OrderOf(no, sq, ts), stop, makers, sq, ts);
  }

  /** The tape of an order that is not a stop: nothing after its own placing is taken or cancelled in its name. */
  lemma SubmitTaken(b: Book, no: NewOrder, sq: nat, ts: nat)
    requires Inv(b) && Admitted(b, no) && !IsStop(no.kind) && !no.kind.Fok? && !HasStop(b, no.id)
    ensures var r := Match(OrderOf(no, sq, ts), Resting(b, no.side.Opposite()), b.lastTrade, sq, ts);
      var es := SubmitNew(b, no, sq, ts).events; var mine := TakenBy(no.id, es);
      && mine == Trades(r.events)
      && AreShares(mine, OrderOf(no, sq, ts), Resting(b, no.side.Opposite()), sq, ts)
      && Volume(mine) + r.remaining == no.qty
      && es != [] && es[0] == Accepted(no.id, sq)
      && (Cancelled(no.id, sq) in es <==> !no.kind.Limit? && r.remaining > 0)
  {
    hide Inv, SubmitNew, Place, Match, HasStop, Trigger, AreShares, Trades, Volume;
    var p := Place(b, no, sq, ts);
    PlaceTrades(b, no, sq, ts);
    var closing := PlaceSplit(b, no, sq, ts);
    SubmitSplit(b, no, sq, ts);
    PlaceKeepsInv(b, no, sq, ts);
    SamePending(b, PlaceStops(b, no, sq, ts));
    if p.book.lastTrade.Some? {
      var o := Trigger(p.book, p.book.lastTrade.value, sq, ts);
      TriggerEvents(p.book, p.book.lastTrade.value, sq, ts);
      TakenConcat(no.id, p.events, o.events);
      TakenNone(no.id, o.events);
      assert TakenBy(no.id, p.events) + [] == TakenBy(no.id, p.events);
    }
  }

  /** The book after placing: the stops are those of before. */
  function PlaceStops(b: Book, no: NewOrder, sq: nat, ts: nat): (r: Book)
    ensures r == Place(b, no, sq, ts).book && r.buyStops == b.buyStops && r.sellStops == b.sellStops
  {
    hide Match, Insert;
    Place(b, no, sq, ts).book
  }

  lemma FireNone(b: Book, s: Side, sq: nat, ts: nat)
    ensures FireAll(b, s, [], sq, ts) == Outcome(b, [])
  {
  }

  lemma StopFields(b: Book, s: Side, id: OrderId)
    requires Inv(b) && Has(Stops(b, s), id)
    ensures var stop := Lookup(Stops(b, s), id).value; IsStop(stop.kind) && stop.side == s && stop.remaining > 0
  {
    StopsSides(b, s);
  }

  lemma SharesLike(trades: seq<OutputEvent>, a: Order, o: Order, makers: seq<Order>, sq: nat, ts: nat)
    requires AreShares(trades, a, makers, sq, ts) && a.id == o.id && a.side == o.side && a.remaining == o.remaining
    ensures AreShares(trades, o, makers, sq, ts)
    ensures forall i :: 0 <= i < |trades| ==> trades[i].Trade? && trades[i].side == o.side
  {
    hide Share;
    forall i | 0 <= i < |trades| ensures IsShare(trades[i], o, makers, i, sq, ts) && trades[i].side == o.side {
      assert IsShare(trades[i], a, makers, i, sq, ts);
    }
  }

  /** What the match leaves of a released stop. */
  lemma ReleasedReach(b: Book, stop: Order, sq: nat, ts: nat)
    requires Inv(b) && IsStop(stop.kind)
    ensures var makers := Resting(b, stop.side.Opposite()); var no := Released(stop);
      var r := Match(OrderOf(no, sq, ts), makers, b.lastTrade, sq, ts);
      && no.id == stop.id && no.side == stop.side && no.qty == stop.remaining
      && (no.kind.Limit? <==> stop.kind.StopLimit?)
      && stop.remaining - r.remaining == Min(stop.remaining, WithinReach(stop, makers))
      && (stop.kind.StopMarket? ==> (r.remaining > 0 <==> Sum(makers) < stop.remaining))
  {
    hide Inv, Match, Sum, SumWithin, Pos;
    var makers := Resting(b, stop.side.Opposite());
    var taker := OrderOf(Released(stop), sq, ts);
    RestingSides(b, stop.side.Opposite());
    if stop.kind.StopLimit? {
      LimitTakes(taker, makers, b.lastTrade, sq, ts);
    } else {
      ImmediateTakesAll(taker, makers, b.lastTrade, sq, ts);
    }
  }

  /** A limit order takes what lies within its limit, up to its quantity. */
  lemma {:induction false} LimitTakes(taker: Order, makers: seq<Order>, last: Option<Price>, sq: nat, ts: nat)
    requires taker.kind.Limit? && SideWF(makers, taker.side.Opposite())
    ensures var within := SumWithin(makers, Rank(taker.side.Opposite(), taker.price));
      Match(taker, makers, last, sq, ts).remaining == taker.remaining - Min(taker.remaining, within)
    decreases |makers|
  {
    hide Match, Distinct;
    var limit := Rank(taker.side.Opposite(), taker.price);
    if taker.remaining == 0 || makers == [] || !Crosses(taker, makers[0]) {
      MatchOver(taker, makers, last, sq, ts);
      SumWithinAll(makers, limit);
    } else {
      MatchStep(taker, makers, last, sq, ts);
      SideTail(makers, taker.side.Opposite());
      if makers[0].remaining <= taker.remaining {
        LimitTakes(taker.(remaining := taker.remaining - makers[0].remaining),
          makers[1..], Some(makers[0].price), sq, ts);
      }
    }
  }
}
