/**
  Laws between commands on the reference book: cancel is exact and undoes an order that did not trade, replace
  is cancel followed by a new order at the back of its price, and a bound on the submitted quantity keeps a whole
  run within the capacity of the levels.
 */
module Commands {
  import opened Types
  import opened PriceTime
  import opened Spec
  import opened Invariants
  import opened Priority
  import opened Scope

  /** Cancelling a resting order takes out its one element, from any position; nothing else moves. */
  lemma CancelExact(b: Book, s: Side, id: OrderId, sq: nat)
    requires Inv(b) && Has(Resting(b, s), id)
    ensures var os := Resting(b, s); var i := IndexOf(os, id);
      CancelOrder(b, id, sq) == Outcome(WithResting(b, s, os[..i] + os[i + 1..]), [Cancelled(id, sq)])
  {
    hide SideWF, StopsWF;
    assert UniqueIds(b);
  }

  lemma PutWithout(os: seq<Order>, o: Order)
    requires !Has(os, o.id)
    ensures Without(Insert(os, o), o.id) == os
  {
    var p := Pos(os, RankOf(o));
    var r := Insert(os, o);
    InsertLookup(os, o, o.id);
    var i := IndexOf(r, o.id);
    forall j | 0 <= j < |r| && j != p ensures r[j].id != o.id {
      assert r[j] == os[if j < p then j else j - 1];
      NotHas(os, o.id, if j < p then j else j - 1);
    }
    assert i == p;
  }

  lemma {:induction false} NotHas(os: seq<Order>, id: OrderId, j: nat)
    requires !Has(os, id) && j < |os|
    ensures os[j].id != id
  {
  }

  /** A limit order that meets nothing it may trade with rests whole. */
  lemma RestsWhole(b: Book, no: NewOrder, sq: nat, ts: nat)
    requires Admitted(b, no) && no.kind.Limit?
    requires var makers := Resting(b, no.side.Opposite()); makers == [] || !Crosses(OrderOf(no, sq, ts), makers[0])
    ensures Place(b, no, sq, ts)
         == Placed(
              WithResting(b, no.side, Insert(Resting(b, no.side), OrderOf(no, sq, ts))), [Accepted(no.id, sq)], true)
  {
    var taker := OrderOf(no, sq, ts);
    assert taker.(remaining := no.qty) == taker;
  }

  lemma QuietTriggersNothing(b: Book, sq: nat, ts: nat)
    requires b.lastTrade.Some?
    ensures Quiet(b) ==> Trigger(b, b.lastTrade.value, sq, ts) == Outcome(b, [])
    ensures Sorted(b.buyStops) && Sorted(b.sellStops) && !Quiet(b) ==>
      Pending(Trigger(b, b.lastTrade.value, sq, ts).book) < Pending(b)
  {
    var last := b.lastTrade.value;
    var buys := Triggered(b, Buy, last);
    if Quiet(b) {
      if b.buyStops != [] { assert Rank(Sell, last) < RankOf(Stops(b, Buy)[0]); }
      if b.sellStops != [] { assert Rank(Buy, last) < RankOf(Stops(b, Sell)[0]); }
      assert buys == [] && Triggered(b, Sell, last) == [];
    } else if Sorted(b.buyStops) && Sorted(b.sellStops) {
      TriggeredPending(b, Buy, last);
      TriggeredPending(b, Sell, last);
      if buys == [] {
        assert FireAll(b, Buy, buys, sq, ts).book == b;
      }
    }
  }

  /**
    Placing a limit order that does not trade and cancelling it again restores the book, exactly when no pending
    stop was waiting on the triggered side of the last trade: placing any order releases such stops.
   */
  lemma NewThenCancel(b: Book, no: NewOrder, sq: nat, ts: nat, sq2: nat)
    requires Inv(b) && Admitted(b, no) && no.kind.Limit?
    requires var makers := Resting(b, no.side.Opposite()); makers == [] || !Crosses(OrderOf(no, sq, ts), makers[0])
    ensures CancelOrder(SubmitNew(b, no, sq, ts).book, no.id, sq2).book == b <==> Quiet(b)
  {
    hide Inv, SubmitNew, Insert, Quiet, Trigger, Pending, Remove, HasId;
    var o := OrderOf(no, sq, ts);
    var placed := WithResting(b, no.side, Insert(Resting(b, no.side), o));
    SubmitRests(b, no, sq, ts);
    RemovePlaced(b, o);
    SameQuiet(b, placed);
    StopsSorted(b);
    if b.lastTrade.Some? {
      QuietTriggersNothing(placed, sq, ts);
      RemoveShrinks(SubmitNew(b, no, sq, ts).book, no.id);
      SamePending(b, placed);
    } else {
      NoTradeQuiet(b);
    }
  }

  lemma NoTradeQuiet(b: Book)
    requires b.lastTrade.None?
    ensures Quiet(b)
  {
  }

  lemma SubmitRests(b: Book, no: NewOrder, sq: nat, ts: nat)
    requires Admitted(b, no) && no.kind.Limit?
    requires var makers := Resting(b, no.side.Opposite()); makers == [] || !Crosses(OrderOf(no, sq, ts), makers[0])
    ensures var placed := WithResting(b, no.side, Insert(Resting(b, no.side), OrderOf(no, sq, ts)));
      SubmitNew(b, no, sq, ts).book ==
        if b.lastTrade.Some? then Trigger(placed, b.lastTrade.value, sq, ts).book else placed
  {
    hide Insert, Match, HasId, Trigger;
    RestsWhole(b, no, sq, ts);
  }

  lemma RemovePlaced(b: Book, o: Order)
    requires !HasId(b, o.id)
    ensures var placed := WithResting(b, o.side, Insert(Resting(b, o.side), o));
      Remove(placed, o.id) == b && HasId(placed, o.id)
  {
    hide Insert, IndexOf;
    PutWithout(Resting(b, o.side), o);
    InsertLookup(Resting(b, o.side), o, o.id);
  }

  lemma SameQuiet(a: Book, b: Book)
    requires a.buyStops == b.buyStops && a.sellStops == b.sellStops && a.lastTrade == b.lastTrade
    ensures Quiet(a) <==> Quiet(b)
  {
    assert forall s: Side :: Stops(a, s) == Stops(b, s);
  }

  lemma StopsSorted(b: Book)
    requires Inv(b)
    ensures Sorted(b.buyStops) && Sorted(b.sellStops)
  {
  }

  lemma RemoveShrinks(b: Book, id: OrderId)
    ensures Pending(Remove(b, id)) <= Pending(b)
  {
  }

  /** Replacing a resting order is cancelling it and submitting the new price and quantity under its id. */
  lemma ReplaceIsCancelNew(b: Book, id: OrderId, newPrice: Price, newQty: Qty, sq: nat, ts: nat)
    requires Inv(b) && newQty > 0 && Fetch(b, id).Some? && !HasStop(b, id)
    ensures var o := Fetch(b, id).value;
      var cancelled := Apply(b, Sequenced(sq, ts, Cancel(id, o.symbol)));
      var submitted := Apply(cancelled.book,
        Sequenced(sq, ts, New(NewOrder(id, o.symbol, o.side, Limit, o.tif, newPrice, 0, newQty))));
      var replaced := Apply(b, Sequenced(sq, ts, Replace(id, newPrice, newQty, o.symbol)));
      && replaced.book == submitted.book && Trades(replaced.events) == Trades(submitted.events)
      && cancelled.events == [Cancelled(id, sq)] && replaced.events == [Replaced(id, sq)] + submitted.events
  {
    hide Inv, SubmitNew, Remove, HasId, HasStop, Fetch;
    var o := Fetch(b, id).value;
    FetchedLimit(b, id);
    var submitted := SubmitNew(Remove(b, id), Renewed(o, id, newPrice, newQty), sq, ts);
    VolumeConcat([Replaced(id, sq)], submitted.events);
  }

  lemma FetchedLimit(b: Book, id: OrderId)
    requires Inv(b) && Fetch(b, id).Some? && !HasStop(b, id)
    ensures HasId(b, id) && Fetch(b, id).value.kind.Limit?
  {
    hide Sorted, Distinct;
  }

  /** What is left of a limit order, new or replaced, rests behind every order of its price. */
  lemma RestsLast(b: Book, no: NewOrder, sq: nat, ts: nat)
    requires Inv(b) && Admitted(b, no) && no.kind.Limit?
    requires Match(OrderOf(no, sq, ts), Resting(b, no.side.Opposite()), b.lastTrade, sq, ts).remaining > 0
    ensures var os := Resting(Place(b, no, sq, ts).book, no.side); var i := IndexOf(os, no.id);
      && i < |os| && os[i].price == no.price
      && (forall j :: 0 <= j < |os| && j != i && os[j].price == no.price ==> j < i)
      && os[..i] + os[i + 1..] == Resting(b, no.side)
  {
    hide Distinct, Sorted, Match, Insert, IndexOf;
    var taker := OrderOf(no, sq, ts);
    var rest := taker.(remaining := Match(taker, Resting(b, no.side.Opposite()), b.lastTrade, sq, ts).remaining);
    assert Resting(Place(b, no, sq, ts).book, no.side) == Insert(Resting(b, no.side), rest);
    InsertLast(Resting(b, no.side), no.side, rest);
  }

  lemma InsertLast(own: seq<Order>, s: Side, o: Order)
    requires SideWF(own, s) && !Has(own, o.id) && o.side == s && o.kind.Limit?
    ensures var os := Insert(own, o); var i := IndexOf(os, o.id);
      && i < |os| && os[i] == o && os[..i] + os[i + 1..] == own
      && (forall j :: 0 <= j < |os| && j != i && os[j].price == o.price ==> j < i)
  {
    hide SideWF, IndexOf, Pos;
    var p := Pos(own, RankOf(o));
    var os := Insert(own, o);
    PutIndex(own, p, o);
    assert os[..p] == own[..p] && os[p + 1..] == own[p..];
    forall j | p < j < |os| ensures os[j].price != o.price {
      assert os[j] == own[j - 1];
      BehindWorse(own, s, o, j - 1);
    }
  }

  lemma BehindWorse(own: seq<Order>, s: Side, o: Order, j: nat)
    requires SideWF(own, s) && o.side == s && o.kind.Limit? && Pos(own, RankOf(o)) <= j < |own|
    ensures own[j].price != o.price
  {
    hide Pos, Distinct;
    var p := Pos(own, RankOf(o));
    assert RankOf(own[p]) <= RankOf(own[j]);
  }

  lemma PutIndex(os: seq<Order>, p: nat, o: Order)
    requires p <= |os| && !Has(os, o.id)
    ensures IndexOf(os[..p] + [o] + os[p..], o.id) == p
  {
    var r := os[..p] + [o] + os[p..];
    forall j | 0 <= j < p ensures r[j].id != o.id {
      NotHas(os, o.id, j);
    }
    assert r[p].id == o.id;
  }

  // ---------------------------------------------------------------- capacity

  /** Open quantity of the whole book, pending stops included. */
  function OpenQty(b: Book): nat {
    Sum(b.bids) + Sum(b.asks) + Sum(b.buyStops) + Sum(b.sellStops)
  }

  function Submitted(cs: seq<Sequenced>): nat {
    if cs == [] then 0 else AskedQty(cs[0].cmd) + Submitted(cs[1..])
  }

  function AskedQty(cmd: Command): nat {
    match cmd
    case New(no) => no.qty
    case Cancel(_, _) => 0
    case Replace(_, _, newQty, _) => newQty
  }

  lemma InsertSum(os: seq<Order>, o: Order)
    ensures Sum(Insert(os, o)) == Sum(os) + o.remaining
  {
    SumPut(os, Pos(os, RankOf(o)), o, 0);
  }

  lemma WithoutSum(os: seq<Order>, id: OrderId)
    ensures Sum(Without(os, id)) + (if Has(os, id) then os[IndexOf(os, id)].remaining else 0) == Sum(os)
  {
    if Has(os, id) {
      SumDrop(os, IndexOf(os, id), 0);
    }
  }

  /** Changing one side changes the open quantity by what that side gains or loses. */
  lemma OpenWith(b: Book, s: Side, os: seq<Order>, last: Option<Price>)
    ensures OpenQty(WithResting(b, s, os).(lastTrade := last)) + Sum(Resting(b, s)) == OpenQty(b) + Sum(os)
  {
    hide Sum;
  }

  /** The three books placing can end in. */
  lemma PlacedBook(b: Book, no: NewOrder, sq: nat, ts: nat)
    ensures var taker := OrderOf(no, sq, ts);
      var r := Match(taker, Resting(b, no.side.Opposite()), b.lastTrade, sq, ts);
      var b1 := WithResting(b, no.side.Opposite(), r.makers).(lastTrade := r.last);
      var own := Insert(Resting(b, no.side), taker.(remaining := r.remaining));
      var book := Place(b, no, sq, ts).book;
      book == b || book == b1 || book == WithResting(b1, no.side, own).(lastTrade := r.last)
  {
    hide Match, Insert, Available;
  }

  lemma PlaceOpen(b: Book, no: NewOrder, sq: nat, ts: nat)
    ensures OpenQty(Place(b, no, sq, ts).book) <= OpenQty(b) + no.qty
  {
    hide Match, Insert, Sum, Place, OpenQty, Volume;
    var taker := OrderOf(no, sq, ts);
    var r := Match(taker, Resting(b, no.side.Opposite()), b.lastTrade, sq, ts);
    var b1 := WithResting(b, no.side.Opposite(), r.makers).(lastTrade := r.last);
    var rest := taker.(remaining := r.remaining);
    PlacedBook(b, no, sq, ts);
    MatchConserves(taker, Resting(b, no.side.Opposite()), b.lastTrade, sq, ts);
    OpenWith(b, no.side.Opposite(), r.makers, r.last);
    InsertSum(Resting(b, no.side), rest);
    OpenWith(b1, no.side, Insert(Resting(b, no.side), rest), r.last);
  }

  lemma {:induction false} SubmitOpen(b: Book, no: NewOrder, sq: nat, ts: nat)
    ensures OpenQty(SubmitNew(b, no, sq, ts).book) <= OpenQty(b) + no.qty
    decreases Pending(b), 2, 0
  {
    hide Place, Insert;
    if Admitted(b, no) {
      if IsStop(no.kind) {
        InsertSum(Stops(b, no.side), OrderOf(no, sq, ts));
      } else {
        PlaceOpen(b, no, sq, ts);
        var p := Place(b, no, sq, ts);
        if p.settled && p.book.lastTrade.Some? {
          var last := p.book.lastTrade.value;
          FireOpen(p.book, Buy, Triggered(p.book, Buy, last), sq, ts);
          var buys := FireAll(p.book, Buy, Triggered(p.book, Buy, last), sq, ts);
          FireOpen(buys.book, Sell, Triggered(buys.book, Sell, last), sq, ts);
        }
      }
    }
  }

  lemma {:induction false} FireOpen(b: Book, s: Side, ids: seq<OrderId>, sq: nat, ts: nat)
    ensures OpenQty(FireAll(b, s, ids, sq, ts).book) <= OpenQty(b)
    decreases Pending(b), 0, |ids|
  {
    if ids != [] {
      if !Has(Stops(b, s), ids[0]) {
        FireOpen(b, s, ids[1..], sq, ts);
      } else {
        WithoutSum(Stops(b, s), ids[0]);
        var b1 := WithStops(b, s, Without(Stops(b, s), ids[0]));
        var no := Released(Lookup(Stops(b, s), ids[0]).value);
        SubmitOpen(b1, no, sq, ts);
        FireOpen(SubmitNew(b1, no, sq, ts).book, s, ids[1..], sq, ts);
      }
    }
  }

  lemma RemoveOpen(b: Book, id: OrderId)
    ensures OpenQty(Remove(b, id)) <= OpenQty(b)
  {
    WithoutSum(b.bids, id);
    WithoutSum(b.asks, id);
    WithoutSum(b.buyStops, id);
    WithoutSum(b.sellStops, id);
  }

  /** One command adds at most the quantity it asks for. */
  lemma ApplyOpen(b: Book, c: Sequenced)
    ensures OpenQty(Apply(b, c).book) <= OpenQty(b) + AskedQty(c.cmd)
  {
    hide SubmitNew, Remove, OpenQty;
    match c.cmd
    case New(no) => SubmitOpen(b, no, c.seqNo, c.ts);
    case Cancel(id, _) => RemoveOpen(b, id);
    case Replace(id, newPrice, newQty, _) =>
      RemoveOpen(b, id);
      if newQty > 0 && Fetch(b, id).Some? {
        SubmitOpen(Remove(b, id), Renewed(Fetch(b, id).value, id, newPrice, newQty), c.seqNo, c.ts);
      }
  }

  lemma {:induction false} SumAtSum(os: seq<Order>, k: int)
    ensures SumAt(os, k) <= Sum(os)
  {
    if os != [] {
      SumAtSum(os[1..], k);
    }
  }

  /** Every pending stop turns into a market order. */
  ghost predicate MarketStops(b: Book) {
    forall s: Side, i :: 0 <= i < |Stops(b, s)| ==> Stops(b, s)[i].kind.StopMarket?
  }

  lemma MarketInsert(b: Book, o: Order)
    requires MarketStops(b) && o.kind.StopMarket?
    ensures MarketStops(WithStops(b, o.side, Insert(Stops(b, o.side), o)))
  {
    var os := Stops(b, o.side);
    var r := Insert(os, o);
    var p := Pos(os, RankOf(o));
    var b1 := WithStops(b, o.side, r);
    assert Stops(b1, o.side.Opposite()) == Stops(b, o.side.Opposite());
    forall i | 0 <= i < |r| ensures r[i].kind.StopMarket? {
      if i != p { assert r[i] == os[if i < p then i else i - 1]; }
    }
  }

  lemma MarketWithout(b: Book, s: Side, id: OrderId)
    requires MarketStops(b)
    ensures MarketStops(WithStops(b, s, Without(Stops(b, s), id)))
    ensures Has(Stops(b, s), id) ==> Lookup(Stops(b, s), id).value.kind.StopMarket?
  {
    var os, rest := Stops(b, s), Without(Stops(b, s), id);
    assert Stops(WithStops(b, s, rest), s.Opposite()) == Stops(b, s.Opposite());
    var j := IndexOf(os, id);
    forall i | 0 <= i < |rest| ensures rest[i].kind.StopMarket? {
      assert rest[i] == os[if i < j then i else i + 1];
    }
  }

  lemma MarketSame(a: Book, b: Book)
    requires MarketStops(a) && a.buyStops == b.buyStops && a.sellStops == b.sellStops
    ensures MarketStops(b)
  {
    assert forall s: Side :: Stops(a, s) == Stops(b, s);
  }

  /** Without pending stop-limit orders none is released, and none appears. */
  lemma {:induction false} SubmitPlain(b: Book, no: NewOrder, sq: nat, ts: nat)
    requires MarketStops(b) && !no.kind.StopLimit?
    ensures Calm(b, no, sq, ts) && MarketStops(SubmitNew(b, no, sq, ts).book)
    decreases Pending(b), 2, 0
  {
    hide MarketStops, Place, Insert;
    if Admitted(b, no) {
      if IsStop(no.kind) {
        MarketInsert(b, OrderOf(no, sq, ts));
      } else {
        var p := Place(b, no, sq, ts);
        MarketSame(b, p.book);
        if p.settled && p.book.lastTrade.Some? {
          var last := p.book.lastTrade.value;
          FirePlain(p.book, Buy, Triggered(p.book, Buy, last), sq, ts);
          var buys := FireAll(p.book, Buy, Triggered(p.book, Buy, last), sq, ts);
          FirePlain(buys.book, Sell, Triggered(buys.book, Sell, last), sq, ts);
        }
      }
    }
  }

  lemma {:induction false} FirePlain(b: Book, s: Side, ids: seq<OrderId>, sq: nat, ts: nat)
    requires MarketStops(b)
    ensures FireCalm(b, s, ids, sq, ts) && MarketStops(FireAll(b, s, ids, sq, ts).book)
    decreases Pending(b), 0, |ids|
  {
    hide MarketStops;
    if ids != [] {
      if !Has(Stops(b, s), ids[0]) {
        FirePlain(b, s, ids[1..], sq, ts);
      } else {
        MarketWithout(b, s, ids[0]);
        var b1 := WithStops(b, s, Without(Stops(b, s), ids[0]));
        var no := Released(Lookup(Stops(b, s), ids[0]).value);
        SubmitPlain(b1, no, sq, ts);
        FirePlain(SubmitNew(b1, no, sq, ts).book, s, ids[1..], sq, ts);
      }
    }
  }

  /** No stop-limit order is submitted and no pending stop is cancelled or replaced. */
  ghost predicate MarketStopsOnly(b: Book, cs: seq<Sequenced>)
    decreases |cs|
  {
    cs != [] ==>
      && (match cs[0].cmd
          case New(no) => !no.kind.StopLimit?
          case Cancel(id, _) => !HasStop(b, id)
          case Replace(id, _, _, _) => !HasStop(b, id))
      && MarketStopsOnly(Apply(b, cs[0]).book, cs[1..])
  }

  lemma MarketRemove(b: Book, id: OrderId)
    requires MarketStops(b)
    ensures MarketStops(Remove(b, id))
    ensures Fetch(b, id).Some? && !HasStop(b, id) && WF(b) ==> Fetch(b, id).value.kind.Limit?
  {
    hide Without;
    MarketWithout(b, Buy, id);
    MarketWithout(b, Sell, id);
    var r := Remove(b, id);
    assert Stops(r, Buy) == Stops(WithStops(b, Buy, Without(b.buyStops, id)), Buy);
    assert Stops(r, Sell) == Stops(WithStops(b, Sell, Without(b.sellStops, id)), Sell);
  }

  /** One command of such a run is in scope and keeps the stops market stops. */
  lemma PlainCommand(b: Book, c: Sequenced)
    requires Inv(b) && MarketStops(b) && MarketStopsOnly(b, [c]) && OpenQty(b) + AskedQty(c.cmd) <= U64_MAX
    ensures InScope(b, c) && MarketStops(Apply(b, c).book)
  {
    hide MarketStops, SumAt, Remove, SubmitNew, Calm, OpenQty, WF;
    OpenSides(b);
    match c.cmd
    case New(no) =>
      SubmitPlain(b, no, c.seqNo, c.ts);
      SumAtSum(Resting(b, no.side), Rank(no.side, no.price));
    case Cancel(id, _) => MarketRemove(b, id);
    case Replace(id, newPrice, newQty, _) =>
      MarketRemove(b, id);
      if newQty > 0 && Fetch(b, id).Some? {
        var no := Renewed(Fetch(b, id).value, id, newPrice, newQty);
        RemoveOpen(b, id);
        OpenSides(Remove(b, id));
        SubmitPlain(Remove(b, id), no, c.seqNo, c.ts);
        SumAtSum(Resting(Remove(b, id), no.side), Rank(no.side, newPrice));
      }
  }

  lemma OpenSides(b: Book)
    ensures forall s: Side :: Sum(Resting(b, s)) <= OpenQty(b)
  {
  }

  /** If all the quantity ever submitted fits in 64 bits, no level total of the run can overflow. */
  lemma {:induction false} VolumeKeepsScope(b: Book, cs: seq<Sequenced>)
    requires Inv(b) && MarketStops(b) && MarketStopsOnly(b, cs) && OpenQty(b) + Submitted(cs) <= U64_MAX
    ensures RunInScope(b, cs)
    decreases |cs|
  {
    hide Inv, MarketStops, InScope, Apply, OpenQty, AskedQty;
    if cs != [] {
      assert [cs[0]][1..] == [];
      ApplyOpen(b, cs[0]);
      ApplyKeeps(b, cs[0]);
      PlainCommand(b, cs[0]);
      VolumeKeepsScope(Apply(b, cs[0]).book, cs[1..]);
    }
  }

  /** A run leaves at most what it was asked for. */
  lemma {:induction false} RunOpen(b: Book, cs: seq<Sequenced>)
    ensures OpenQty(Run(b, cs).book) <= OpenQty(b) + Submitted(cs)
    decreases |cs|
  {
    hide OpenQty, Apply, AskedQty;
    if cs != [] {
      ApplyOpen(b, cs[0]);
      RunOpen(Apply(b, cs[0]).book, cs[1..]);
    }
  }
}
