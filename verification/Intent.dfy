/**
  What a client asked for is what the exchange does in its name. The record of what each id asked for is read off the
  commands and their first answers alone; over every run, orders, trades and releases agree with it.
 */
module Intent {
  import opened Types
  import opened PriceTime
  import opened Spec
  import opened Invariants
  import opened Releases
  import opened StopQueue
  import opened Refusals

  /** By id, the order last accepted, as submitted or replaced. */
  type Asked = map<OrderId, NewOrder>

  /** A new order counts once accepted. A replace that takes hold changes price and quantity and drops the trigger. */
  function Told(m: Asked, cmd: Command, es: seq<OutputEvent>): Asked {
    match cmd
    case New(no) => if es != [] && es[0].Accepted? then m[no.id := no] else m
    case Cancel(_, _) => m
    case Replace(id, newPrice, newQty, _) =>
      if es != [] && es[0].Replaced? && id in m
      then m[id := m[id].(price := newPrice, qty := newQty, stopPrice := 0)] else m
  }

  function ToldAll(m: Asked, b: Book, cs: seq<Sequenced>): Asked
    decreases |cs|
  {
    if cs == [] then m
    else
      var o := Apply(b, cs[0]);
      ToldAll(Told(m, cs[0].cmd, o.events), o.book, cs[1..])
  }

  // ---------------------------------------------------------------- what the book holds

  predicate Same(o: Order, m: Asked) {
    o.id in m && var no := m[o.id];
    o.symbol == no.symbol && o.side == no.side && o.tif == no.tif && o.price == no.price && o.qty == no.qty
  }

  predicate Limited(kind: OrderType) {
    kind.Limit? || kind.StopLimit?
  }

  /** A resting order is a limit order as asked for, or the limit order of a stop-limit. */
  predicate RestsAsAsked(o: Order, m: Asked) {
    Same(o, m) && o.kind.Limit? && Limited(m[o.id].kind)
  }

  predicate WaitsAsAsked(o: Order, m: Asked) {
    Same(o, m) && o.kind == m[o.id].kind && o.stopPrice == m[o.id].stopPrice && IsStop(o.kind)
  }

  ghost predicate AllRest(os: seq<Order>, m: Asked) {
    forall i :: 0 <= i < |os| ==> RestsAsAsked(os[i], m)
  }

  ghost predicate AllWait(os: seq<Order>, m: Asked) {
    forall i :: 0 <= i < |os| ==> WaitsAsAsked(os[i], m)
  }

  ghost predicate AsAsked(b: Book, m: Asked) {
    AllRest(b.bids, m) && AllRest(b.asks, m) && AllWait(b.buyStops, m) && AllWait(b.sellStops, m)
  }

  // ---------------------------------------------------------------- what the tape says

  /**
    A trade is between a buyer and a seller, at the price the maker asked for, and never beyond the limit of a taker
    that was submitted as a limit or a stop-limit order.
   */
  predicate Honoured(e: OutputEvent, m: Asked)
    requires e.Trade?
  {
    && e.taker in m && e.maker in m
    && var t, k := m[e.taker], m[e.maker];
       && e.side == t.side && k.side == t.side.Opposite()
       && e.price == k.price && Limited(k.kind) && 0 < e.qty <= t.qty && e.qty <= k.qty
       && (Limited(t.kind) ==> if t.side.Buy? then e.price <= t.price else t.price <= e.price)
  }

  ghost predicate AllHonoured(es: seq<OutputEvent>, m: Asked) {
    forall e :: e in es && e.Trade? ==> Honoured(e, m)
  }

  /** Prices traded on a tape. */
  function Prices(es: seq<OutputEvent>): set<Price> {
    set e | e in es && e.Trade? :: e.price
  }

  /**
    Every acceptance at i is the release of a stop, and a price seen before it, on the tape or among the prices seen,
    had reached the stop price asked for.
   */
  ghost predicate Timely(es: seq<OutputEvent>, m: Asked, seen: set<Price>) {
    forall i :: 0 <= i < |es| && es[i].Accepted? ==> Due(es[i].id, m, seen + Prices(es[..i]))
  }

  ghost predicate Due(id: OrderId, m: Asked, seen: set<Price>) {
    id in m && IsStop(m[id].kind) && exists p :: p in seen && Reaches(p, m[id].side, m[id].stopPrice)
  }

  lemma PricesConcat(es: seq<OutputEvent>, fs: seq<OutputEvent>)
    ensures Prices(es + fs) == Prices(es) + Prices(fs)
  {
  }

  lemma TimelyConcat(es: seq<OutputEvent>, fs: seq<OutputEvent>, m: Asked, seen: set<Price>)
    requires Timely(es, m, seen) && Timely(fs, m, seen + Prices(es))
    ensures Timely(es + fs, m, seen)
  {
    hide Due;
    var all := es + fs;
    forall i | 0 <= i < |all| && all[i].Accepted? ensures Due(all[i].id, m, seen + Prices(all[..i])) {
      if i < |es| {
        assert all[..i] == es[..i];
      } else {
        var j := i - |es|;
        assert all[i] == fs[j] && all[..i] == es + fs[..j];
        PricesConcat(es, fs[..j]);
        assert seen + Prices(es) + Prices(fs[..j]) == seen + (Prices(es) + Prices(fs[..j]));
      }
    }
  }

  lemma TimelyNone(es: seq<OutputEvent>, m: Asked, seen: set<Price>)
    requires forall e :: e in es ==> !e.Accepted?
    ensures Timely(es, m, seen)
  {
    hide Due;
  }

  // ---------------------------------------------------------------- matching and placing

  /** The order being placed is the one asked for, or what its stop turns into. */
  predicate Entering(no: NewOrder, m: Asked) {
    no.id in m && var a := m[no.id];
    && no.symbol == a.symbol && no.side == a.side && no.tif == a.tif && no.price == a.price && no.qty == a.qty
    && (no.kind == a.kind || (no.kind.Market? && a.kind.StopMarket?) || (no.kind.Limit? && a.kind.StopLimit?))
  }

  lemma {:induction false} MatchHonours(
    taker: Order, makers: seq<Order>, last: Option<Price>, m: Asked, sq: nat, ts: nat)
    requires SideWF(makers, taker.side.Opposite()) && AllRest(makers, m)
    requires taker.id in m && taker.side == m[taker.id].side && taker.remaining <= m[taker.id].qty
    requires Limited(m[taker.id].kind) ==> taker.kind.Limit? && taker.price == m[taker.id].price
    ensures var r := Match(taker, makers, last, sq, ts);
      && AllHonoured(r.events, m) && AllRest(r.makers, m)
      && (r.last == last || (r.last.Some? && r.last.value in Prices(r.events)))
    decreases |makers|
  {
    hide Match, Sorted, Distinct;
    if taker.remaining == 0 || makers == [] || !Crosses(taker, makers[0]) {
      MatchOver(taker, makers, last, sq, ts);
    } else {
      MatchStep(taker, makers, last, sq, ts);
      var t := Min(taker.remaining, makers[0].remaining);
      var trade := TradeOf(taker, makers[0], t, sq, ts);
      assert Honoured(trade, m);
      var r := Match(taker, makers, last, sq, ts);
      assert r.events[0] == trade;
      if makers[0].remaining == t {
        SideTail(makers, taker.side.Opposite());
        var less := taker.(remaining := taker.remaining - t);
        MatchHonours(less, makers[1..], Some(makers[0].price), m, sq, ts);
        PricesConcat(r.events[..2], r.events[2..]);
        assert r.events == r.events[..2] + r.events[2..];
        assert r.events[2..] == Match(less, makers[1..], Some(makers[0].price), sq, ts).events;
      }
    }
  }

  lemma BookSides(b: Book, m: Asked, s: Side)
    requires AsAsked(b, m)
    ensures AllRest(Resting(b, s), m) && AllWait(Stops(b, s), m)
  {
  }

  lemma WithSide(b: Book, m: Asked, s: Side, os: seq<Order>, last: Option<Price>)
    requires AsAsked(b, m) && AllRest(os, m)
    ensures AsAsked(WithResting(b, s, os).(lastTrade := last), m)
  {
    hide AllRest, AllWait;
  }

  lemma InsertRest(os: seq<Order>, o: Order, m: Asked)
    requires AllRest(os, m) && RestsAsAsked(o, m)
    ensures AllRest(Insert(os, o), m)
  {
    hide RestsAsAsked, Pos;
    var p := Pos(os, RankOf(o));
    var r := Insert(os, o);
    forall i | 0 <= i < |r| ensures RestsAsAsked(r[i], m) {
      assert r[i] == if i < p then os[i] else if i == p then o else os[i - 1];
    }
  }

  lemma InsertWait(os: seq<Order>, o: Order, m: Asked)
    requires AllWait(os, m) && WaitsAsAsked(o, m)
    ensures AllWait(Insert(os, o), m)
  {
    hide WaitsAsAsked, Pos;
    var p := Pos(os, RankOf(o));
    var r := Insert(os, o);
    forall i | 0 <= i < |r| ensures WaitsAsAsked(r[i], m) {
      assert r[i] == if i < p then os[i] else if i == p then o else os[i - 1];
    }
  }

  /** The last price of a book is among those seen. */
  predicate LastSeen(b: Book, seen: set<Price>) {
    b.lastTrade.Some? ==> b.lastTrade.value in seen
  }

  /** Where placing leaves the book. */
  lemma PlaceAsks(b: Book, no: NewOrder, m: Asked, sq: nat, ts: nat)
    requires Inv(b) && AsAsked(b, m) && Entering(no, m) && !IsStop(no.kind)
    ensures AsAsked(Place(b, no, sq, ts).book, m)
  {
    hide Inv, Match, Insert, AsAsked, AllRest, WithResting;
    var s := no.side.Opposite();
    var taker := OrderOf(no, sq, ts);
    var r := Match(taker, Resting(b, s), b.lastTrade, sq, ts);
    BookSides(b, m, s);
    RestingSides(b, s);
    MatchHonours(taker, Resting(b, s), b.lastTrade, m, sq, ts);
    WithSide(b, m, s, r.makers, r.last);
    var b1 := WithResting(b, s, r.makers).(lastTrade := r.last);
    if no.kind.Limit? {
      var rest := taker.(remaining := r.remaining);
      BookSides(b1, m, no.side);
      assert RestsAsAsked(rest, m);
      InsertRest(Resting(b1, no.side), rest, m);
      WithSide(b1, m, no.side, Insert(Resting(b1, no.side), rest), b1.lastTrade);
      SameLastTrade(b1, no.side, Insert(Resting(b1, no.side), rest));
    }
  }

  lemma SameLastTrade(b: Book, s: Side, os: seq<Order>)
    ensures WithResting(b, s, os).(lastTrade := b.lastTrade) == WithResting(b, s, os)
  {
  }

  /** What placing tells. */
  lemma PlaceHonours(b: Book, no: NewOrder, m: Asked, seen: set<Price>, sq: nat, ts: nat)
    requires Inv(b) && AsAsked(b, m) && Entering(no, m) && Admitted(b, no) && !IsStop(no.kind) && LastSeen(b, seen)
    ensures var p := Place(b, no, sq, ts);
      && p.events != [] && p.events[0] == Accepted(no.id, sq)
      && AllHonoured(p.events, m) && Timely(p.events[1..], m, seen) && LastSeen(p.book, seen + Prices(p.events))
      && Prices(p.events) == Prices(p.events[1..])
  {
    hide Inv, Place, Match, AsAsked, AllRest, AllHonoured, Timely, Prices;
    var p := Place(b, no, sq, ts);
    var s := no.side.Opposite();
    if no.kind.Fok? && Available(b, no.side, no.price) < no.qty {
      PlaceRefused(b, no, sq, ts);
      TellsOnly(Accepted(no.id, sq), [], [Rejected(no.id, FokUnfillable, sq)], m, seen);
      PricesNone([]);
      assert p.events == [Accepted(no.id, sq)] + [] + [Rejected(no.id, FokUnfillable, sq)];
    } else {
      var taker := OrderOf(no, sq, ts);
      var r := Match(taker, Resting(b, s), b.lastTrade, sq, ts);
      var closing := PlaceSplit(b, no, sq, ts);
      BookSides(b, m, s);
      RestingSides(b, s);
      MatchHonours(taker, Resting(b, s), b.lastTrade, m, sq, ts);
      MatchEvents(taker, Resting(b, s), b.lastTrade, sq, ts);
      PlaceLast(b, no, sq, ts);
      TellsOnly(Accepted(no.id, sq), r.events, closing, m, seen);
    }
  }

  /** Between the acceptance and the closing of a tape stand the trades. */
  lemma TellsOnly(
    first: OutputEvent, es: seq<OutputEvent>, closing: seq<OutputEvent>, m: Asked, seen: set<Price>)
    requires !first.Trade? && (forall e :: e in closing ==> !e.Trade? && !e.Accepted?)
    requires forall e :: e in es ==> !e.Accepted?
    ensures var all := [first] + es + closing;
      && all[1..] == es + closing && Prices(all) == Prices(all[1..]) == Prices(es) && Timely(all[1..], m, seen)
      && (AllHonoured(es, m) ==> AllHonoured(all, m))
    ensures [first] + closing == [first] + [] + closing && AllHonoured([], m)
  {
    hide Honoured, Prices, Timely;
    var all := [first] + es + closing;
    assert all == [first] + (es + closing);
    assert all[1..] == es + closing;
    TimelyNone(all[1..], m, seen);
    PricesConcat([first], es + closing);
    PricesConcat(es, closing);
    PricesNone([first]);
    PricesNone(closing);
    assert {} + (Prices(es) + {}) == Prices(es);
    assert [first] + [] == [first];
  }

  lemma PricesNone(es: seq<OutputEvent>)
    requires forall e :: e in es ==> !e.Trade?
    ensures Prices(es) == {}
  {
  }

  lemma PlaceLast(b: Book, no: NewOrder, sq: nat, ts: nat)
    requires !(no.kind.Fok? && Available(b, no.side, no.price) < no.qty)
    ensures Place(b, no, sq, ts).book.lastTrade
         == Match(OrderOf(no, sq, ts), Resting(b, no.side.Opposite()), b.lastTrade, sq, ts).last
  {
    hide Match, Insert;
  }

  // ---------------------------------------------------------------- the cascade

  lemma {:induction false} SubmitHonours(b: Book, no: NewOrder, m: Asked, seen: set<Price>, sq: nat, ts: nat)
    requires Inv(b) && AsAsked(b, m) && Entering(no, m) && Admitted(b, no) && !IsStop(no.kind) && LastSeen(b, seen)
    ensures var out := SubmitNew(b, no, sq, ts);
      && AsAsked(out.book, m) && AllHonoured(out.events, m) && LastSeen(out.book, seen + Prices(out.events))
      && out.events != [] && out.events[0] == Accepted(no.id, sq) && Timely(out.events[1..], m, seen)
      && Prices(out.events) == Prices(out.events[1..])
    decreases Pending(b), 2, 0
  {
    hide Inv, SubmitNew, Place, Trigger, AsAsked, Timely, Honoured, Entering;
    SubmitSplit(b, no, sq, ts);
    PlaceKeepsInv(b, no, sq, ts);
    PlaceAsks(b, no, m, sq, ts);
    PlaceHonours(b, no, m, seen, sq, ts);
    var p := Place(b, no, sq, ts);
    if p.settled && p.book.lastTrade.Some? {
      var last := p.book.lastTrade.value;
      var o := Trigger(p.book, last, sq, ts);
      SamePending(b, PlaceStops(b, no, sq, ts));
      TriggerHonours(p.book, last, m, seen + Prices(p.events), sq, ts);
      assert (p.events + o.events)[1..] == p.events[1..] + o.events;
      TimelyConcat(p.events[1..], o.events, m, seen);
      PricesConcat(p.events, o.events);
      PricesConcat(p.events[1..], o.events);
      assert seen + Prices(p.events) + Prices(o.events) == seen + (Prices(p.events) + Prices(o.events));
    }
  }

  lemma {:induction false} TriggerHonours(b: Book, last: Price, m: Asked, seen: set<Price>, sq: nat, ts: nat)
    requires Inv(b) && AsAsked(b, m) && last in seen && LastSeen(b, seen)
    ensures var out := Trigger(b, last, sq, ts);
      && AsAsked(out.book, m) && AllHonoured(out.events, m) && LastSeen(out.book, seen + Prices(out.events))
      && Timely(out.events, m, seen)
    decreases Pending(b), 1, 0
  {
    hide Inv, FireAll, Triggered, AsAsked, Timely, Honoured, Due;
    var buys := FireAll(b, Buy, Triggered(b, Buy, last), sq, ts);
    TriggeredDue(b, Buy, last, m, seen);
    FireHonours(b, Buy, Triggered(b, Buy, last), m, seen, sq, ts);
    FireKeeps(b, Buy, Triggered(b, Buy, last), sq, ts);
    var more := seen + Prices(buys.events);
    TriggeredDue(buys.book, Sell, last, m, more);
    var sells := FireAll(buys.book, Sell, Triggered(buys.book, Sell, last), sq, ts);
    FireHonours(buys.book, Sell, Triggered(buys.book, Sell, last), m, more, sq, ts);
    TimelyConcat(buys.events, sells.events, m, seen);
    PricesConcat(buys.events, sells.events);
    assert more + Prices(sells.events) == seen + (Prices(buys.events) + Prices(sells.events));
  }

  lemma TriggeredDue(b: Book, s: Side, last: Price, m: Asked, seen: set<Price>)
    requires Inv(b) && AsAsked(b, m) && last in seen
    ensures forall id :: id in Triggered(b, s, last) ==> Due(id, m, seen)
  {
    hide Inv, Triggered, Reaches, AsAsked;
    TriggeredExactly(b, s, last);
    BookSides(b, m, s);
    StopsSides(b, s);
    forall id | id in Triggered(b, s, last) ensures Due(id, m, seen) {
      var i :| 0 <= i < |Triggered(b, s, last)| && Triggered(b, s, last)[i] == id;
      assert WaitsAsAsked(Stops(b, s)[i], m);
    }
  }

  /** A pending stop enters as what it was asked to turn into. */
  lemma StopEnters(b: Book, s: Side, id: OrderId, m: Asked)
    requires Inv(b) && AsAsked(b, m) && Has(Stops(b, s), id)
    ensures Lookup(Stops(b, s), id).Some? && Entering(Released(Lookup(Stops(b, s), id).value), m)
    ensures AsAsked(Unwaited(b, s, id), m)
  {
    hide Inv, AsAsked;
    StopsSides(b, s);
    BookSides(b, m, s);
    WaitWithout(b, s, id, m);
  }

  lemma WaitWithout(b: Book, s: Side, id: OrderId, m: Asked)
    requires AsAsked(b, m)
    ensures AsAsked(Unwaited(b, s, id), m)
  {
    hide WaitsAsAsked, RestsAsAsked, Without;
    RestWithout(Stops(b, s), m, id);
  }

  lemma {:induction false} FireHonours(
    b: Book, s: Side, ids: seq<OrderId>, m: Asked, seen: set<Price>, sq: nat, ts: nat)
    requires Inv(b) && AsAsked(b, m) && LastSeen(b, seen) && forall id :: id in ids ==> Due(id, m, seen)
    ensures var out := FireAll(b, s, ids, sq, ts);
      && AsAsked(out.book, m) && AllHonoured(out.events, m) && LastSeen(out.book, seen + Prices(out.events))
      && Timely(out.events, m, seen)
    decreases Pending(b), 0, |ids|
  {
    hide Inv, FireAll, SubmitNew, AsAsked, Timely, Honoured, Due, Entering, Released, Unwaited, Has, Lookup, HasStop;
    if ids == [] {
      FireNone(b, s, sq, ts);
      TimelyNone([], m, seen);
    } else {
      FireStep(b, s, ids, sq, ts);
      assert forall id :: id in ids[1..] ==> id in ids;
      if !Has(Stops(b, s), ids[0]) {
        FireHonours(b, s, ids[1..], m, seen, sq, ts);
      } else {
        StopEnters(b, s, ids[0], m);
        ReleaseFacts(b, s, ids[0]);
        var b1, no := Unwaited(b, s, ids[0]), Released(Lookup(Stops(b, s), ids[0]).value);
        SameLastWaiting(b, s, ids[0]);
        SubmitHonours(b1, no, m, seen, sq, ts);
        SubmitKeeps(b1, no, sq, ts);
        PendingShrinks(b1, no, sq, ts);
        var o := SubmitNew(b1, no, sq, ts);
        var more := seen + Prices(o.events);
        forall id | id in ids[1..] ensures Due(id, m, more) { DueGrows(id, m, seen, more); }
        FireHonours(o.book, s, ids[1..], m, more, sq, ts);
        var rest := FireAll(o.book, s, ids[1..], sq, ts);
        TimelyFirst(o.events, m, seen);
        TimelyConcat(o.events, rest.events, m, seen);
        PricesConcat(o.events, rest.events);
        assert more + Prices(rest.events) == seen + (Prices(o.events) + Prices(rest.events));
      }
    }
  }

  lemma SameLastWaiting(b: Book, s: Side, id: OrderId)
    ensures Unwaited(b, s, id).lastTrade == b.lastTrade
  {
    hide Without;
  }

  lemma DueGrows(id: OrderId, m: Asked, seen: set<Price>, more: set<Price>)
    requires Due(id, m, seen) && seen <= more
    ensures Due(id, m, more)
  {
    hide Reaches;
  }

  /** The acceptance that opens the tape of a release is due as well. */
  lemma TimelyFirst(es: seq<OutputEvent>, m: Asked, seen: set<Price>)
    requires es != [] && es[0].Accepted? && Due(es[0].id, m, seen) && Timely(es[1..], m, seen)
    ensures Timely(es, m, seen)
  {
    hide Due;
    forall i | 0 <= i < |es| && es[i].Accepted? ensures Due(es[i].id, m, seen + Prices(es[..i])) {
      DueGrows(es[0].id, m, seen, seen + Prices(es[..0]));
      if i > 0 {
        assert es[1..][i - 1] == es[i];
        DueGrows(es[i].id, m, seen + Prices(es[1..][..i - 1]), seen + Prices(es[..i]));
      }
    }
  }

  // ---------------------------------------------------------------- commands and runs

  /** The tape of a command after the answer to the command itself. */
  function Consequences(cmd: Command, es: seq<OutputEvent>): seq<OutputEvent> {
    match cmd
    case New(_) => if |es| >= 1 then es[1..] else []
    case Cancel(_, _) => []
    case Replace(_, _, _, _) => if |es| >= 2 then es[2..] else []
  }

  function LastPrices(b: Book): set<Price> {
    if b.lastTrade.Some? then {b.lastTrade.value} else {}
  }

  /**
    One command: book, trades and releases agree with what was asked for, this command included. A release needs a
    price that has reached the stop price asked for: the last one before the command, or one traded on its tape before.
   */
  lemma ApplyHonours(b: Book, m: Asked, c: Sequenced)
    requires Inv(b) && AsAsked(b, m)
    ensures var out := Apply(b, c); var m1 := Told(m, c.cmd, out.events);
      && AsAsked(out.book, m1) && AllHonoured(out.events, m1)
      && Timely(Consequences(c.cmd, out.events), m1, LastPrices(b))
  {
    hide Inv, SubmitNew, AsAsked, Timely, Honoured, HasId, Fetch, Remove;
    match c.cmd
    case New(no) => NewHonours(b, m, no, c.seqNo, c.ts);
    case Cancel(id, _) =>
      RemoveAsked(b, m, id);
      TimelyNone([], m, LastPrices(b));
    case Replace(id, newPrice, newQty, _) =>
      TimelyNone([], m, LastPrices(b));
      FetchKnown(b, id);
      if newQty > 0 && Fetch(b, id).Some? {
        ReplaceHonours(b, m, id, newPrice, newQty, c.seqNo, c.ts);
      }
  }

  lemma NewHonours(b: Book, m: Asked, no: NewOrder, sq: nat, ts: nat)
    requires Inv(b) && AsAsked(b, m)
    ensures var out := SubmitNew(b, no, sq, ts); var m1 := Told(m, New(no), out.events);
      && AsAsked(out.book, m1) && AllHonoured(out.events, m1) && out.events != []
      && Timely(out.events[1..], m1, LastPrices(b))
  {
    hide Inv, AsAsked, Timely, Honoured, HasId, Place, Trigger, Insert;
    var out := SubmitNew(b, no, sq, ts);
    if !Admitted(b, no) {
      TimelyNone(out.events[1..], m, LastPrices(b));
    } else {
      FreshAsked(b, m, no.id, no);
      EnterHonours(b, m[no.id := no], no, sq, ts);
    }
  }

  /** The order asked for enters. */
  lemma EnterHonours(b: Book, m: Asked, no: NewOrder, sq: nat, ts: nat)
    requires Inv(b) && AsAsked(b, m) && Admitted(b, no) && Entering(no, m)
    requires IsStop(no.kind) ==> no.stopPrice == m[no.id].stopPrice && no.kind == m[no.id].kind
    ensures var out := SubmitNew(b, no, sq, ts);
      && out.events != [] && out.events[0] == Accepted(no.id, sq)
      && AsAsked(out.book, m) && AllHonoured(out.events, m) && Timely(out.events[1..], m, LastPrices(b))
  {
    hide Inv, AsAsked, Timely, Honoured, HasId, Insert, SubmitNew;
    if IsStop(no.kind) {
      SubmitStop(b, no, sq, ts);
      BookSides(b, m, no.side);
      InsertWait(Stops(b, no.side), OrderOf(no, sq, ts), m);
      WithWaiting(b, m, no.side, Insert(Stops(b, no.side), OrderOf(no, sq, ts)));
      TimelyNone([Accepted(no.id, sq)][1..], m, LastPrices(b));
    } else {
      SubmitHonours(b, no, m, LastPrices(b), sq, ts);
    }
  }

  lemma WithWaiting(b: Book, m: Asked, s: Side, os: seq<Order>)
    requires AsAsked(b, m) && AllWait(os, m)
    ensures AsAsked(WithStops(b, s, os), m)
  {
    hide AllRest, AllWait;
  }

  /** What is asked for an id the book does not have concerns none of its orders. */
  lemma FreshAsked(b: Book, m: Asked, id: OrderId, no: NewOrder)
    requires AsAsked(b, m) && !HasId(b, id)
    ensures AsAsked(b, m[id := no])
  {
    hide Has;
    FreshSide(b.bids, m, id, no);
    FreshSide(b.asks, m, id, no);
    FreshSide(b.buyStops, m, id, no);
    FreshSide(b.sellStops, m, id, no);
  }

  lemma FreshSide(os: seq<Order>, m: Asked, id: OrderId, no: NewOrder)
    requires !Has(os, id)
    ensures AllRest(os, m) ==> AllRest(os, m[id := no])
    ensures AllWait(os, m) ==> AllWait(os, m[id := no])
  {
    forall i | 0 <= i < |os| ensures os[i].id != id {
      HasMember(os, id);
      assert os[i] in os;
    }
  }

  lemma RemoveAsked(b: Book, m: Asked, id: OrderId)
    requires AsAsked(b, m)
    ensures AsAsked(Remove(b, id), m)
  {
    hide RestsAsAsked, WaitsAsAsked, Without;
    RestWithout(b.bids, m, id);
    RestWithout(b.asks, m, id);
    RestWithout(b.buyStops, m, id);
    RestWithout(b.sellStops, m, id);
  }

  lemma RestWithout(os: seq<Order>, m: Asked, id: OrderId)
    ensures AllRest(os, m) ==> AllRest(Without(os, id), m)
    ensures AllWait(os, m) ==> AllWait(Without(os, id), m)
  {
    hide RestsAsAsked, WaitsAsAsked, Without;
    WithoutMembers(os, id);
    forall j | 0 <= j < |Without(os, id)|
      ensures AllRest(os, m) ==> RestsAsAsked(Without(os, id)[j], m)
      ensures AllWait(os, m) ==> WaitsAsAsked(Without(os, id)[j], m)
    {
      assert Without(os, id)[j] in Without(os, id);
      assert Without(os, id)[j] in os;
      var i :| 0 <= i < |os| && os[i] == Without(os, id)[j];
    }
  }

  lemma WithoutMembers(os: seq<Order>, id: OrderId)
    ensures forall o :: o in Without(os, id) ==> o in os
  {
    var i := IndexOf(os, id);
    if i < |os| {
      assert os == os[..i] + [os[i]] + os[i + 1..];
    }
  }

  lemma ReplaceHonours(b: Book, m: Asked, id: OrderId, newPrice: Price, newQty: Qty, sq: nat, ts: nat)
    requires Inv(b) && AsAsked(b, m) && newQty > 0 && Fetch(b, id).Some?
    ensures var out := ReplaceOrder(b, id, newPrice, newQty, sq, ts);
      var m1 := Told(m, Replace(id, newPrice, newQty, 0), out.events);
      && AsAsked(out.book, m1) && AllHonoured(out.events, m1) && |out.events| >= 2
      && Timely(out.events[2..], m1, LastPrices(b))
  {
    hide Inv, AsAsked, Timely, Honoured, HasId, Fetch, Remove, SubmitNew;
    var o := Fetch(b, id).value;
    FetchedAsked(b, m, id);
    var m1 := m[id := m[id].(price := newPrice, qty := newQty, stopPrice := 0)];
    var r, no := Remove(b, id), Renewed(o, id, newPrice, newQty);
    RemoveKeeps(b, id);
    FetchKnown(b, id);
    RemoveAsked(b, m, id);
    FreshAsked(r, m, id, m1[id]);
    SameLast(b, id);
    var out := SubmitNew(r, no, sq, ts);
    if Admitted(r, no) {
      EnterHonours(r, m1, no, sq, ts);
    } else {
      BadRenewal(r, no, sq, ts);
      TimelyNone(out.events[1..], m1, LastPrices(b));
    }
    assert ([Replaced(id, sq)] + out.events)[2..] == out.events[1..];
  }

  lemma BadRenewal(r: Book, no: NewOrder, sq: nat, ts: nat)
    requires !Admitted(r, no)
    ensures var out := SubmitNew(r, no, sq, ts); out.book == r && |out.events| == 1 && out.events[0].Rejected?
  {
  }

  lemma FetchedAsked(b: Book, m: Asked, id: OrderId)
    requires AsAsked(b, m) && Fetch(b, id).Some?
    ensures var o := Fetch(b, id).value;
      && o.id == id && Same(o, m) && (o.kind == m[id].kind || (o.kind.Limit? && m[id].kind.StopLimit?))
  {
  }

  /**
    Every point of every run from the empty book: the orders and stops the book holds are those asked for, and so are
    the trades and releases of the next command.
   */
  lemma RunHonours(front: seq<Sequenced>, c: Sequenced)
    ensures var b, m := Run(EMPTY, front).book, ToldAll(map[], EMPTY, front);
      var out := Apply(b, c); var m1 := Told(m, c.cmd, out.events);
      && AsAsked(b, m) && AsAsked(out.book, m1) && AllHonoured(out.events, m1)
      && Timely(Consequences(c.cmd, out.events), m1, LastPrices(b))
  {
    hide Inv, Run, Apply, AsAsked, Timely, Honoured, Told, ToldAll;
    StartAsked();
    RunKeeps(EMPTY, front);
    RunAsked(EMPTY, map[], front);
    ApplyHonours(Run(EMPTY, front).book, ToldAll(map[], EMPTY, front), c);
  }

  lemma StartAsked()
    ensures Inv(EMPTY) && AsAsked(EMPTY, map[])
  {
  }

  lemma {:induction false} RunAsked(b: Book, m: Asked, cs: seq<Sequenced>)
    requires Inv(b) && AsAsked(b, m)
    ensures AsAsked(Run(b, cs).book, ToldAll(m, b, cs))
    decreases |cs|
  {
    hide Inv, Apply, AsAsked, Timely, Honoured, Told;
    if cs != [] {
      var o := Apply(b, cs[0]);
      ApplyHonours(b, m, cs[0]);
      ApplyKeeps(b, cs[0]);
      RunAsked(o.book, Told(m, cs[0].cmd, o.events), cs[1..]);
    }
  }

  /** After an order that reaches the stop check, no stop waits whose stop price the last trade has reached. */
  lemma NoneOverdue(b: Book, m: Asked, no: NewOrder, sq: nat, ts: nat)
    requires Inv(b) && AsAsked(b, m) && Admitted(b, no) && !IsStop(no.kind)
    requires no.kind.Fok? ==> no.qty <= Within(b, no.side, no.price)
    ensures var out := SubmitNew(b, no, sq, ts); var m1 := Told(m, New(no), out.events);
      forall s: Side, i :: 0 <= i < |Stops(out.book, s)| ==>
        var id := Stops(out.book, s)[i].id;
        && id in m1 && m1[id].side == s
        && (out.book.lastTrade.Some? ==> !Reaches(out.book.lastTrade.value, s, m1[id].stopPrice))
  {
    hide Inv, SubmitNew, Place, Within, SumWithin, Available, AsAsked, Quiet, Reaches;
    var out := SubmitNew(b, no, sq, ts);
    var m1 := Told(m, New(no), out.events);
    WithinIs(b, no.side, no.price);
    Capped(b, no);
    Settles(b, no, sq, ts);
    SubmitKeeps(b, no, sq, ts);
    NewHonours(b, m, no, sq, ts);
    forall s: Side, i | 0 <= i < |Stops(out.book, s)|
      ensures var id := Stops(out.book, s)[i].id;
        && id in m1 && m1[id].side == s
        && (out.book.lastTrade.Some? ==> !Reaches(out.book.lastTrade.value, s, m1[id].stopPrice))
    {
      BookSides(out.book, m1, s);
      QuietReaches(out.book, s, i);
      assert WaitsAsAsked(Stops(out.book, s)[i], m1);
    }
  }

  lemma Settles(b: Book, no: NewOrder, sq: nat, ts: nat)
    requires !(no.kind.Fok? && Available(b, no.side, no.price) < no.qty)
    ensures Place(b, no, sq, ts).settled
  {
    hide Match, Insert, Available;
  }

  lemma QuietReaches(b: Book, s: Side, i: nat)
    requires Inv(b) && Quiet(b) && i < |Stops(b, s)|
    ensures Stops(b, s)[i].side == s
    ensures b.lastTrade.Some? ==> !Reaches(b.lastTrade.value, s, Stops(b, s)[i].stopPrice)
  {
    hide Sorted, Distinct;
  }
}
