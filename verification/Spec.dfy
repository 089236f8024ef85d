/**
  The reference book: two price-time sequences of resting orders, two trigger-time sequences
  of pending stops and the last traded price. Every operation of the matcher is defined here
  on these sequences alone; module Matcher shows that the linked, indexed book computes them.
 */
module Spec {
  import opened Types
  import opened PriceTime

  datatype Book = Book(
    bids: seq<Order>, asks: seq<Order>, buyStops: seq<Order>, sellStops: seq<Order>, lastTrade: Option<Price>)

  datatype Outcome = Outcome(book: Book, events: seq<OutputEvent>)

  const EMPTY := Book([], [], [], [], None)

  function Resting(b: Book, s: Side): seq<Order> {
    if s.Buy? then b.bids else b.asks
  }

  function WithResting(b: Book, s: Side, os: seq<Order>): Book {
    if s.Buy? then b.(bids := os) else b.(asks := os)
  }

  function Stops(b: Book, s: Side): seq<Order> {
    if s.Buy? then b.buyStops else b.sellStops
  }

  function WithStops(b: Book, s: Side, os: seq<Order>): Book {
    if s.Buy? then b.(buyStops := os) else b.(sellStops := os)
  }

  function Pending(b: Book): nat {
    |b.buyStops| + |b.sellStops|
  }

  predicate HasId(b: Book, id: OrderId) {
    Has(b.bids, id) || Has(b.asks, id) || Has(b.buyStops, id) || Has(b.sellStops, id)
  }

  predicate HasStop(b: Book, id: OrderId) {
    Has(b.buyStops, id) || Has(b.sellStops, id)
  }

  function Remove(b: Book, id: OrderId): Book {
    Book(Without(b.bids, id), Without(b.asks, id), Without(b.buyStops, id), Without(b.sellStops, id), b.lastTrade)
  }

  function Fetch(b: Book, id: OrderId): Option<Order> {
    if Has(b.bids, id) then Lookup(b.bids, id)
    else if Has(b.asks, id) then Lookup(b.asks, id)
    else if Has(b.buyStops, id) then Lookup(b.buyStops, id)
    else Lookup(b.sellStops, id)
  }

  // ---------------------------------------------------------------- matching

  predicate Crosses(taker: Order, maker: Order) {
    IgnoresLimit(taker.kind) || RankOf(maker) <= Rank(taker.side.Opposite(), taker.price)
  }

  datatype Matched = Matched(remaining: Qty, makers: seq<Order>, last: Option<Price>, events: seq<OutputEvent>)

  function TradeOf(taker: Order, maker: Order, qty: Qty, sq: nat, ts: nat): OutputEvent {
    Trade(sq, taker.id, maker.id, maker.price, qty, taker.side, ts)
  }

  /** Best maker first, until the taker is filled, the side is empty or the best maker does not cross. */
  function Match(taker: Order, makers: seq<Order>, last: Option<Price>, sq: nat, ts: nat): (r: Matched)
    ensures r.remaining <= taker.remaining
    decreases |makers|
  {
    if taker.remaining == 0 || makers == [] || !Crosses(taker, makers[0]) then
      Matched(taker.remaining, makers, last, [])
    else
      var maker := makers[0];
      var t := Min(taker.remaining, maker.remaining);
      var trade := TradeOf(taker, maker, t, sq, ts);
      var rest := taker.remaining - t;
      if maker.remaining == t then
        var r := Match(taker.(remaining := rest), makers[1..], Some(maker.price), sq, ts);
        r.(events := [trade, Filled(maker.id, sq)] + r.events)
      else
        var left := maker.remaining - t;
        Matched(rest, [maker.(remaining := left)] + makers[1..], Some(maker.price),
                [trade, PartiallyFilled(maker.id, t, left, sq)])
  }

  lemma MatchOver(taker: Order, makers: seq<Order>, last: Option<Price>, sq: nat, ts: nat)
    requires taker.remaining == 0 || makers == [] || !Crosses(taker, makers[0])
    ensures Match(taker, makers, last, sq, ts) == Matched(taker.remaining, makers, last, [])
  {
  }

  /** One step of the match: the first maker trades, and the rest of the match follows. */
  lemma MatchStep(taker: Order, makers: seq<Order>, last: Option<Price>, sq: nat, ts: nat)
    requires taker.remaining > 0 && makers != [] && Crosses(taker, makers[0])
    ensures var r, m := Match(taker, makers, last, sq, ts), makers[0]; var t := Min(taker.remaining, m.remaining);
      if m.remaining == t then
        var rest := Match(taker.(remaining := taker.remaining - t), makers[1..], Some(m.price), sq, ts);
        r == rest.(events := [TradeOf(taker, m, t, sq, ts), Filled(m.id, sq)] + rest.events)
      else
        r == Matched(taker.remaining - t, [m.(remaining := m.remaining - t)] + makers[1..], Some(m.price),
                     [TradeOf(taker, m, t, sq, ts), PartiallyFilled(m.id, t, m.remaining - t, sq)])
  {
  }

  /** What the fill-or-kill check sees: the quantity within the limit, capped at the largest 64-bit value. */
  function Available(b: Book, s: Side, limit: Price): Qty {
    Min(SumWithin(Resting(b, s.Opposite()), Rank(s.Opposite(), limit)), U64_MAX)
  }

  /** settled is false when the order left before the stop check. */
  datatype Placed = Placed(book: Book, events: seq<OutputEvent>, settled: bool)

  /** An accepted order that is not a stop: match it, then rest or discard what is left. */
  function Place(b: Book, no: NewOrder, sq: nat, ts: nat): (p: Placed)
    ensures p.book.buyStops == b.buyStops && p.book.sellStops == b.sellStops
  {
    if no.kind.Fok? && Available(b, no.side, no.price) < no.qty then
      Placed(b, [Accepted(no.id, sq), Rejected(no.id, FokUnfillable, sq)], false)
    else
      var taker := OrderOf(no, sq, ts);
      var r := Match(taker, Resting(b, no.side.Opposite()), b.lastTrade, sq, ts);
      var filled := no.qty - r.remaining;
      var b1 := WithResting(b, no.side.Opposite(), r.makers).(lastTrade := r.last);
      var events := [Accepted(no.id, sq)] + r.events;
      if filled > 0 && r.remaining == 0 then
        Placed(b1, events + [Filled(no.id, sq)], true)
      else
        var note := if filled > 0 then [PartiallyFilled(no.id, filled, r.remaining, sq)] else [];
        if no.kind.Limit? then
          var own := Insert(Resting(b1, no.side), taker.(remaining := r.remaining));
          Placed(WithResting(b1, no.side, own), events + note, true)
        else
          Placed(b1, events + note + [Cancelled(no.id, sq)], true)
  }

  // ---------------------------------------------------------------- new orders and the stop cascade

  function SubmitNew(b: Book, no: NewOrder, sq: nat, ts: nat): (o: Outcome)
    ensures !IsStop(no.kind) ==> Pending(o.book) <= Pending(b)
    decreases Pending(b), 2, 0
  {
    if no.qty == 0 then Outcome(b, [Rejected(no.id, ZeroQty, sq)])
    else if HasId(b, no.id) then Outcome(b, [Rejected(no.id, DuplicateId, sq)])
    else if NeedsPrice(no.kind) && no.price <= 0 then Outcome(b, [Rejected(no.id, BadPrice, sq)])
    else if IsStop(no.kind) then
      Outcome(WithStops(b, no.side, Insert(Stops(b, no.side), OrderOf(no, sq, ts))), [Accepted(no.id, sq)])
    else
      var p := Place(b, no, sq, ts);
      if p.settled && p.book.lastTrade.Some? then
        var o := Trigger(p.book, p.book.lastTrade.value, sq, ts);
        Outcome(o.book, p.events + o.events)
      else
        Outcome(p.book, p.events)
  }

  /** The stops a trade at price last sets off, in trigger order. */
  function Triggered(b: Book, s: Side, last: Price): seq<OrderId> {
    var stops := Stops(b, s);
    Names(stops[..Pos(stops, Rank(s.Opposite(), last))])
  }

  function Trigger(b: Book, last: Price, sq: nat, ts: nat): (o: Outcome)
    ensures Pending(o.book) <= Pending(b)
    decreases Pending(b), 1, 0
  {
    var buys := FireAll(b, Buy, Triggered(b, Buy, last), sq, ts);
    var sells := FireAll(buys.book, Sell, Triggered(buys.book, Sell, last), sq, ts);
    Outcome(sells.book, buys.events + sells.events)
  }

  /** A triggered stop re-enters as a market order, or as a limit order if it carries a limit. */
  function Released(o: Order): NewOrder {
    NewOrder(o.id, o.symbol, o.side, if o.kind.StopMarket? then Market else Limit, o.tif, o.price, 0, o.remaining)
  }

  /** Release the named stops one after the other; a nested cascade may already have released some. */
  function FireAll(b: Book, s: Side, ids: seq<OrderId>, sq: nat, ts: nat): (o: Outcome)
    ensures Pending(o.book) <= Pending(b)
    ensures ids != [] && Has(Stops(b, s), ids[0]) ==> Pending(o.book) < Pending(b)
    decreases Pending(b), 0, |ids|
  {
    if ids == [] then Outcome(b, [])
    else if !Has(Stops(b, s), ids[0]) then FireAll(b, s, ids[1..], sq, ts)
    else
      var stop := Lookup(Stops(b, s), ids[0]).value;
      var o := SubmitNew(WithStops(b, s, Without(Stops(b, s), ids[0])), Released(stop), sq, ts);
      var rest := FireAll(o.book, s, ids[1..], sq, ts);
      Outcome(rest.book, o.events + rest.events)
  }

  // ---------------------------------------------------------------- commands

  function CancelOrder(b: Book, id: OrderId, sq: nat): Outcome {
    if !HasId(b, id) then Outcome(b, [Rejected(id, UnknownId, sq)])
    else Outcome(Remove(b, id), [Cancelled(id, sq)])
  }

  function Renewed(o: Order, id: OrderId, newPrice: Price, newQty: Qty): NewOrder {
    NewOrder(id, o.symbol, o.side, o.kind, o.tif, newPrice, 0, newQty)
  }

  function ReplaceOrder(b: Book, id: OrderId, newPrice: Price, newQty: Qty, sq: nat, ts: nat): Outcome {
    if newQty == 0 then Outcome(b, [Rejected(id, ZeroQty, sq)])
    else
      match Fetch(b, id)
      case None => Outcome(b, [Rejected(id, UnknownId, sq)])
      case Some(prior) =>
        var o := SubmitNew(Remove(b, id), Renewed(prior, id, newPrice, newQty), sq, ts);
        Outcome(o.book, [Replaced(id, sq)] + o.events)
  }

  function Apply(b: Book, c: Sequenced): Outcome {
    match c.cmd
    case New(no) => SubmitNew(b, no, c.seqNo, c.ts)
    case Cancel(id, _) => CancelOrder(b, id, c.seqNo)
    case Replace(id, newPrice, newQty, _) => ReplaceOrder(b, id, newPrice, newQty, c.seqNo, c.ts)
  }

  /** The book and the concatenated events after a sequence of commands. */
  function Run(b: Book, cs: seq<Sequenced>): Outcome
    decreases |cs|
  {
    if cs == [] then Outcome(b, [])
    else
      var first := Apply(b, cs[0]);
      var rest := Run(first.book, cs[1..]);
      Outcome(rest.book, first.events + rest.events)
  }

  lemma {:induction false} RunConcat(b: Book, cs: seq<Sequenced>, ds: seq<Sequenced>)
    ensures var first := Run(b, cs); var rest := Run(first.book, ds);
            Run(b, cs + ds) == Outcome(rest.book, first.events + rest.events)
    decreases |cs|
  {
    hide Apply;
    if cs == [] {
      assert cs + ds == ds;
    } else {
      var first := Apply(b, cs[0]);
      assert (cs + ds)[1..] == cs[1..] + ds;
      RunConcat(first.book, cs[1..], ds);
      var middle := Run(first.book, cs[1..]);
      var rest := Run(middle.book, ds);
      assert first.events + (middle.events + rest.events) == first.events + middle.events + rest.events;
    }
  }
}
