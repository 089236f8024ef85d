/**
  The event tape as seen by one client: the account of one order id, driven by output events alone.
  On every run the tape never does anything illegal to an id, and the account it leads to is what
  the book holds for that id. Quantity is conserved along the way.
 */
module Ledger {
  import opened Types
  import opened PriceTime
  import opened Spec
  import opened Invariants

  /** filled is the quantity traded since the last acceptance. */
  datatype Life =
    | Absent
    | Waiting(open: nat)
    | Live(open: nat, filled: nat)
    | Broken

  datatype Account = Account(life: Life, accepted: nat, traded: nat, dropped: nat)

  const FRESH := Account(Absent, 0, 0, 0)

  /** What a command asks for, in case it is accepted. A replaced order keeps its kind. */
  datatype Ask = Ask(id: OrderId, qty: nat, stop: bool)

  function AskOf(b: Book, cmd: Command): Ask {
    match cmd
    case New(no) => Ask(no.id, no.qty, IsStop(no.kind))
    case Cancel(id, _) => Ask(id, 0, false)
    case Replace(id, _, newQty, _) => Ask(id, newQty, HasStop(b, id))
  }

  function Break(a: Account): Account {
    a.(life := Broken)
  }

  /** The order leaves with its open quantity unfilled. */
  function Drop(a: Account): Account {
    match a.life
    case Live(open, _) => a.(life := Absent, dropped := a.dropped + open)
    case Waiting(open) => a.(life := Absent, dropped := a.dropped + open)
    case _ => Break(a)
  }

  function Take(a: Account, qty: nat): Account {
    if a.life.Live? && 0 < qty <= a.life.open
    then a.(life := Live(a.life.open - qty, a.life.filled + qty), traded := a.traded + qty)
    else Break(a)
  }

  /** The life-cycle automaton of id x. Anything not listed leads to Broken, for good. */
  function Advance(a: Account, x: OrderId, e: OutputEvent, ask: Ask): Account {
    if a.life.Broken? then a
    else
      match e
      case Accepted(id, _) =>
        if id != x then a
        else if a.life.Waiting? then a.(life := Live(a.life.open, 0))
        else if a.life.Absent? && ask.id == x then
          a.(life := if ask.stop then Waiting(ask.qty) else Live(ask.qty, 0), accepted := a.accepted + ask.qty)
        else Break(a)
      case Rejected(id, reason, _) => if id == x && reason.FokUnfillable? then Drop(a) else a
      case Trade(_, taker, maker, _, qty, _, _) =>
        if taker == x && maker == x then Break(a)
        else if taker == x || maker == x then Take(a, qty)
        else a
      case PartiallyFilled(id, filled, remaining, _) =>
        if id != x || (a.life.Live? && 0 < a.life.open == remaining && 0 < filled <= a.life.filled) then a else Break(a)
      case Filled(id, _) =>
        if id != x then a
        else if a.life.Live? && a.life.open == 0 && 0 < a.life.filled then a.(life := Absent)
        else Break(a)
      case Cancelled(id, _) => if id == x then Drop(a) else a
      case Replaced(id, _) => if id == x then Drop(a) else a
  }

  function Replay(a: Account, x: OrderId, es: seq<OutputEvent>, ask: Ask): Account
    decreases |es|
  {
    if es == [] then a else Replay(Advance(a, x, es[0], ask), x, es[1..], ask)
  }

  /** The tape of a run, command by command, driving the account of x. */
  function ReplayRun(a: Account, x: OrderId, b: Book, cs: seq<Sequenced>): Account
    decreases |cs|
  {
    if cs == [] then a
    else
      var o := Apply(b, cs[0]);
      ReplayRun(Replay(a, x, o.events, AskOf(b, cs[0].cmd)), x, o.book, cs[1..])
  }

  /** What a book holds for id x. */
  function LifeIn(os: seq<Order>, x: OrderId): Life {
    match Lookup(os, x)
    case None => Absent
    case Some(o) => Live(o.remaining, if o.remaining <= o.qty then o.qty - o.remaining else 0)
  }

  function LifeOf(b: Book, x: OrderId): Life {
    if Has(b.bids, x) then LifeIn(b.bids, x)
    else if Has(b.asks, x) then LifeIn(b.asks, x)
    else if Has(b.buyStops, x) then Waiting(Lookup(b.buyStops, x).value.remaining)
    else if Has(b.sellStops, x) then Waiting(Lookup(b.sellStops, x).value.remaining)
    else Absent
  }

  // ---------------------------------------------------------------- conservation on the tape

  function Open(a: Account): nat {
    match a.life
    case Waiting(open) => open
    case Live(open, _) => open
    case _ => 0
  }

  /** On a legal tape everything accepted was traded, was dropped or is still open. */
  lemma {:induction false} TapeConserves(a: Account, x: OrderId, es: seq<OutputEvent>, ask: Ask)
    requires a.accepted == a.traded + a.dropped + Open(a)
    ensures var r := Replay(a, x, es, ask); !r.life.Broken? ==> r.accepted == r.traded + r.dropped + Open(r)
    decreases |es|
  {
    if es != [] {
      var a1 := Advance(a, x, es[0], ask);
      if a1.life.Broken? {
        BrokenStays(a1, x, es[1..], ask);
      } else {
        TapeConserves(a1, x, es[1..], ask);
      }
    }
  }

  lemma {:induction false} BrokenStays(a: Account, x: OrderId, es: seq<OutputEvent>, ask: Ask)
    requires a.life.Broken?
    ensures Replay(a, x, es, ask) == a
    decreases |es|
  {
    if es != [] {
      BrokenStays(a, x, es[1..], ask);
    }
  }

  lemma {:induction false} ReplayConcat(a: Account, x: OrderId, es: seq<OutputEvent>, fs: seq<OutputEvent>, ask: Ask)
    ensures Replay(a, x, es + fs, ask) == Replay(Replay(a, x, es, ask), x, fs, ask)
    decreases |es|
  {
    if es == [] {
      assert es + fs == fs;
    } else {
      assert (es + fs)[1..] == es[1..] + fs;
      ReplayConcat(Advance(a, x, es[0], ask), x, es[1..], fs, ask);
    }
  }

  lemma ReplayShort(a: Account, x: OrderId, e: OutputEvent, f: OutputEvent, ask: Ask)
    ensures Replay(a, x, [e], ask) == Advance(a, x, e, ask)
    ensures Replay(a, x, [e, f], ask) == Advance(Advance(a, x, e, ask), x, f, ask)
  {
    assert [f][1..] == [] && [e][1..] == [] && [e, f][1..] == [f];
    assert Replay(Advance(a, x, e, ask), x, [f], ask) == Advance(Advance(a, x, e, ask), x, f, ask);
  }

  // ---------------------------------------------------------------- the tape of one match

  /** Where id x stands while a taker with the given open and filled quantity faces the makers. */
  function Facing(taker: Order, filled: nat, makers: seq<Order>, x: OrderId): Life {
    if x == taker.id then Live(taker.remaining, filled) else LifeIn(makers, x)
  }

  /** x is the taker or one of the makers: the match moves its account to where the match leaves it. */
  lemma {:induction false} MatchTape(
    a: Account, x: OrderId, ask: Ask, taker: Order, filled: nat, makers: seq<Order>, last: Option<Price>,
    sq: nat, ts: nat)
    requires SideWF(makers, taker.side.Opposite()) && !Has(makers, taker.id)
    requires a.life == Facing(taker, filled, makers, x) && (x == taker.id || Has(makers, x))
    ensures var r := Match(taker, makers, last, sq, ts);
      Replay(a, x, r.events, ask).life
      == Facing(taker.(remaining := r.remaining), filled + taker.remaining - r.remaining, r.makers, x)
    decreases |makers|
  {
    hide Sorted, Advance, Crosses, Match, Replay;
    if taker.remaining == 0 || makers == [] || !Crosses(taker, makers[0]) {
      MatchOver(taker, makers, last, sq, ts);
      ReplayNothing(a, x, ask);
    } else {
      if makers[0].remaining <= taker.remaining {
        var less := taker.(remaining := taker.remaining - makers[0].remaining);
        FilledTape(a, x, ask, taker, filled, makers, last, sq, ts);
        var a2 := FilledAccount(a, x, ask, taker, makers[0], sq, ts);
        TailLookup(makers, x);
        TailLookup(makers, taker.id);
        SideTail(makers, taker.side.Opposite());
        if x == makers[0].id {
          Bystander(a2, x, ask, less, makers[1..], Some(makers[0].price), sq, ts);
        } else {
          MatchTape(a2, x, ask, less, filled + makers[0].remaining, makers[1..], Some(makers[0].price), sq, ts);
        }
      } else {
        PartTape(a, x, ask, taker, filled, makers, last, sq, ts);
      }
    }
  }

  lemma ReplayNothing(a: Account, x: OrderId, ask: Ask)
    ensures Replay(a, x, [], ask) == a
  {
  }

  /** The account after the trade with, and the completion of, a maker that the taker consumes. */
  function FilledAccount(a: Account, x: OrderId, ask: Ask, taker: Order, maker: Order, sq: nat, ts: nat): Account {
    Advance(Advance(a, x, TradeOf(taker, maker, maker.remaining, sq, ts), ask), x, Filled(maker.id, sq), ask)
  }

  lemma FilledTape(
    a: Account, x: OrderId, ask: Ask, taker: Order, filled: nat, makers: seq<Order>, last: Option<Price>,
    sq: nat, ts: nat)
    requires makers != [] && 0 < makers[0].remaining <= taker.remaining && Crosses(taker, makers[0])
    requires Distinct(makers) && !Has(makers, taker.id) && makers[0].remaining <= makers[0].qty
    requires a.life == Facing(taker, filled, makers, x)
    ensures var m := makers[0];
      var less := taker.(remaining := taker.remaining - m.remaining);
      var a2 := FilledAccount(a, x, ask, taker, m, sq, ts);
      && a2.life == (if x == m.id then Absent else Facing(less, filled + m.remaining, makers[1..], x))
      && Replay(a, x, Match(taker, makers, last, sq, ts).events, ask)
         == Replay(a2, x, Match(less, makers[1..], Some(m.price), sq, ts).events, ask)
      && Match(taker, makers, last, sq, ts).makers == Match(less, makers[1..], Some(m.price), sq, ts).makers
      && Match(taker, makers, last, sq, ts).remaining == Match(less, makers[1..], Some(m.price), sq, ts).remaining
  {
    var r := Match(taker, makers, last, sq, ts);
    TailLookup(makers, x);
    TailLookup(makers, taker.id);
    assert r.events[1..][1..] == r.events[2..];
  }

  lemma PartTape(
    a: Account, x: OrderId, ask: Ask, taker: Order, filled: nat, makers: seq<Order>, last: Option<Price>,
    sq: nat, ts: nat)
    requires makers != [] && 0 < taker.remaining < makers[0].remaining <= makers[0].qty && Crosses(taker, makers[0])
    requires Distinct(makers) && !Has(makers, taker.id)
    requires a.life == Facing(taker, filled, makers, x)
    ensures var r := Match(taker, makers, last, sq, ts);
      r.remaining == 0 && Replay(a, x, r.events, ask).life
        == Facing(taker.(remaining := 0), filled + taker.remaining, r.makers, x)
  {
    var r := Match(taker, makers, last, sq, ts);
    ReplayShort(a, x, r.events[0], r.events[1], ask);
    assert r.events == [r.events[0], r.events[1]];
    TailLookup(makers, x);
    TailLookup(makers, taker.id);
    assert r.makers[1..] == makers[1..];
  }

  /** A trade and a fill that do not name x leave its account alone. */
  lemma Unnamed(a: Account, x: OrderId, ask: Ask, trade: OutputEvent, note: OutputEvent, rest: seq<OutputEvent>)
    requires trade.Trade? && trade.taker != x && trade.maker != x
    requires (note.Filled? || note.PartiallyFilled?) && note.id != x
    ensures Replay(a, x, [trade, note] + rest, ask) == Replay(a, x, rest, ask)
    ensures Replay(a, x, [trade, note], ask) == a
  {
    ReplayConcat(a, x, [trade, note], rest, ask);
    ReplayShort(a, x, trade, note, ask);
  }

  /** An id that takes no part in a match is not on its tape. */
  lemma {:induction false} Bystander(
    a: Account, x: OrderId, ask: Ask, taker: Order, makers: seq<Order>, last: Option<Price>, sq: nat, ts: nat)
    requires x != taker.id && !Has(makers, x)
    ensures var r := Match(taker, makers, last, sq, ts); Replay(a, x, r.events, ask) == a && !Has(r.makers, x)
    decreases |makers|
  {
    hide Advance, Crosses;
    if taker.remaining > 0 && makers != [] && Crosses(taker, makers[0]) {
      var maker := makers[0];
      var t := Min(taker.remaining, maker.remaining);
      var trade := TradeOf(taker, maker, t, sq, ts);
      if maker.remaining == t {
        var less := taker.(remaining := taker.remaining - t);
        Bystander(a, x, ask, less, makers[1..], Some(maker.price), sq, ts);
        Unnamed(a, x, ask, trade, Filled(maker.id, sq), Match(less, makers[1..], Some(maker.price), sq, ts).events);
      } else {
        var left := maker.remaining - t;
        Unnamed(a, x, ask, trade, PartiallyFilled(maker.id, t, left, sq), []);
        assert ([maker.(remaining := left)] + makers[1..])[1..] == makers[1..];
      }
    }
  }

  lemma TailLookup(os: seq<Order>, x: OrderId)
    requires os != [] && Distinct(os)
    ensures Lookup(os, x) == if x == os[0].id then Some(os[0]) else Lookup(os[1..], x)
    ensures x == os[0].id ==> !Has(os[1..], x)
  {
  }

  // ---------------------------------------------------------------- the tape of an order

  /** The account of the incoming order before its acceptance: absent and asked for, or a stop just released. */
  ghost predicate Entering(a: Account, x: OrderId, b: Book, no: NewOrder, ask: Ask) {
    if x != no.id then a.life == LifeOf(b, x)
    else
      || (a.life == Absent && ask == Ask(no.id, no.qty, IsStop(no.kind)))
      || (a.life == Waiting(no.qty) && !IsStop(no.kind))
  }

  lemma PlaceTape(a: Account, x: OrderId, ask: Ask, b: Book, no: NewOrder, sq: nat, ts: nat)
    requires Inv(b) && Admitted(b, no) && !IsStop(no.kind) && Entering(a, x, b, no, ask)
    ensures Replay(a, x, Place(b, no, sq, ts).events, ask).life == LifeOf(Place(b, no, sq, ts).book, x)
  {
    hide WF, NoCross, Match, LifeOf;
    var p := Place(b, no, sq, ts);
    var a1 := Advance(a, x, Accepted(no.id, sq), ask);
    if no.kind.Fok? && Available(b, no.side, no.price) < no.qty {
      RefusedTape(a, x, ask, b, no, sq);
    } else {
      var taker := OrderOf(no, sq, ts);
      var r := Match(taker, Resting(b, no.side.Opposite()), b.lastTrade, sq, ts);
      var tail := p.events[1 + |r.events|..];
      assert p.events == [Accepted(no.id, sq)] + (r.events + tail);
      ReplayConcat(a, x, [Accepted(no.id, sq)], r.events + tail, ask);
      ReplayConcat(a1, x, r.events, tail, ask);
      var a2 := Replay(a1, x, r.events, ask);
      PlaceMatchTape(a1, x, ask, b, no, sq, ts);
      PlaceTailTape(a2, x, ask, b, no, sq, ts, tail);
    }
  }

  lemma RefusedTape(a: Account, x: OrderId, ask: Ask, b: Book, no: NewOrder, sq: nat)
    requires Admitted(b, no) && !IsStop(no.kind) && Entering(a, x, b, no, ask)
    ensures Replay(a, x, [Accepted(no.id, sq), Rejected(no.id, FokUnfillable, sq)], ask).life == LifeOf(b, x)
  {
    ReplayShort(a, x, Accepted(no.id, sq), Rejected(no.id, FokUnfillable, sq), ask);
  }

  /** Where x stands once the match is over: the taker with what it has left, everyone else as in the book. */
  function AfterMatchLife(b: Book, no: NewOrder, sq: nat, ts: nat, x: OrderId): Life {
    var taker := OrderOf(no, sq, ts);
    var r := Match(taker, Resting(b, no.side.Opposite()), b.lastTrade, sq, ts);
    if x == no.id then Live(r.remaining, no.qty - r.remaining) else LifeOf(AfterMatch(b, taker, sq, ts), x)
  }

  lemma PlaceMatchTape(a1: Account, x: OrderId, ask: Ask, b: Book, no: NewOrder, sq: nat, ts: nat)
    requires Inv(b) && Admitted(b, no)
    requires a1.life == if x == no.id then Live(no.qty, 0) else LifeOf(b, x)
    ensures var taker := OrderOf(no, sq, ts);
      var r := Match(taker, Resting(b, no.side.Opposite()), b.lastTrade, sq, ts);
      Replay(a1, x, r.events, ask).life == AfterMatchLife(b, no, sq, ts, x)
  {
    hide Sorted, Distinct, Match, Replay;
    var taker := OrderOf(no, sq, ts);
    var makers := Resting(b, no.side.Opposite());
    if x == no.id || Has(makers, x) {
      MatchTape(a1, x, ask, taker, 0, makers, b.lastTrade, sq, ts);
    } else {
      Bystander(a1, x, ask, taker, makers, b.lastTrade, sq, ts);
    }
  }

  lemma PlaceTailTape(
    a2: Account, x: OrderId, ask: Ask, b: Book, no: NewOrder, sq: nat, ts: nat, tail: seq<OutputEvent>)
    requires Inv(b) && Admitted(b, no) && !IsStop(no.kind)
    requires !(no.kind.Fok? && Available(b, no.side, no.price) < no.qty)
    requires a2.life == AfterMatchLife(b, no, sq, ts, x)
    requires var r := Match(OrderOf(no, sq, ts), Resting(b, no.side.Opposite()), b.lastTrade, sq, ts);
      Place(b, no, sq, ts).events == [Accepted(no.id, sq)] + r.events + tail
    ensures Replay(a2, x, tail, ask).life == LifeOf(Place(b, no, sq, ts).book, x)
  {
    hide Sorted, Distinct, SideWF, StopsWF, NoCross, Match;
    var p := Place(b, no, sq, ts);
    var taker := OrderOf(no, sq, ts);
    var r := Match(taker, Resting(b, no.side.Opposite()), b.lastTrade, sq, ts);
    var b1 := AfterMatch(b, taker, sq, ts);
    AfterMatchKeeps(b, taker, sq, ts);
    assert !HasId(b1, no.id);
    TailShape(b, no, sq, ts, tail);
    if no.kind.Limit? && r.remaining > 0 {
      RestLife(b1, taker.(remaining := r.remaining), x);
    }
    Closing(a2, x, ask, no, r.remaining, sq, tail);
  }

  ghost predicate ClosingShape(no: NewOrder, remaining: nat, sq: nat, tail: seq<OutputEvent>) {
    var note := if 0 < remaining < no.qty then [PartiallyFilled(no.id, no.qty - remaining, remaining, sq)] else [];
    if remaining == 0 then tail == [Filled(no.id, sq)]
    else if no.kind.Limit? then tail == note
    else tail == note + [Cancelled(no.id, sq)]
  }

  lemma Closing(a: Account, x: OrderId, ask: Ask, no: NewOrder, remaining: nat, sq: nat, tail: seq<OutputEvent>)
    requires no.qty > 0 && remaining <= no.qty && ClosingShape(no, remaining, sq, tail) && !a.life.Broken?
    requires x == no.id ==> a.life == Live(remaining, no.qty - remaining)
    ensures Replay(a, x, tail, ask).life ==
      if x != no.id || (no.kind.Limit? && remaining > 0) then a.life else Absent
  {
    if |tail| == 1 {
      ReplayShort(a, x, tail[0], tail[0], ask);
      assert tail == [tail[0]];
    } else if |tail| == 2 {
      ReplayShort(a, x, tail[0], tail[1], ask);
      assert tail == [tail[0], tail[1]];
    }
  }

  /** The closing events of an order, case by case, and the book they go with. */
  lemma TailShape(b: Book, no: NewOrder, sq: nat, ts: nat, tail: seq<OutputEvent>)
    requires no.qty > 0 && !(no.kind.Fok? && Available(b, no.side, no.price) < no.qty)
    requires var r := Match(OrderOf(no, sq, ts), Resting(b, no.side.Opposite()), b.lastTrade, sq, ts);
      Place(b, no, sq, ts).events == [Accepted(no.id, sq)] + r.events + tail
    ensures var taker := OrderOf(no, sq, ts);
      var r := Match(taker, Resting(b, no.side.Opposite()), b.lastTrade, sq, ts);
      var b1 := AfterMatch(b, taker, sq, ts);
      && ClosingShape(no, r.remaining, sq, tail)
      && Place(b, no, sq, ts).book ==
         if no.kind.Limit? && r.remaining > 0
         then WithResting(b1, no.side, Insert(Resting(b1, no.side), taker.(remaining := r.remaining)))
         else b1
  {
    var p := Place(b, no, sq, ts);
    var r := Match(OrderOf(no, sq, ts), Resting(b, no.side.Opposite()), b.lastTrade, sq, ts);
    assert tail == p.events[1 + |r.events|..];
  }

  lemma RestLife(b: Book, o: Order, x: OrderId)
    requires UniqueIds(b) && !HasId(b, o.id) && o.remaining <= o.qty
    ensures LifeOf(WithResting(b, o.side, Insert(Resting(b, o.side), o)), x)
         == if x == o.id then Live(o.remaining, o.qty - o.remaining) else LifeOf(b, x)
  {
    InsertLookup(Resting(b, o.side), o, x);
    var grown := Insert(Resting(b, o.side), o);
    assert Has(grown, x) == Lookup(grown, x).Some?;
    assert Has(Resting(b, o.side), x) == Lookup(Resting(b, o.side), x).Some?;
    assert LifeIn(grown, x) ==
      if x == o.id then Live(o.remaining, o.qty - o.remaining) else LifeIn(Resting(b, o.side), x);
    if o.side.Buy? {
    } else {
    }
  }

  // ---------------------------------------------------------------- the tape of a cascade

  lemma {:induction false} SubmitTape(a: Account, x: OrderId, ask: Ask, b: Book, no: NewOrder, sq: nat, ts: nat)
    requires Inv(b)
    requires if Admitted(b, no) then Entering(a, x, b, no, ask) else a.life == LifeOf(b, x)
    ensures Replay(a, x, SubmitNew(b, no, sq, ts).events, ask).life == LifeOf(SubmitNew(b, no, sq, ts).book, x)
    decreases Pending(b), 2, 0
  {
    hide WF, NoCross, LifeOf, Place, FireAll;
    var o := SubmitNew(b, no, sq, ts);
    if !Admitted(b, no) {
      ReplayShort(a, x, o.events[0], o.events[0], ask);
    } else if IsStop(no.kind) {
      StopTape(a, x, ask, b, no, sq, ts);
    } else {
      var p := Place(b, no, sq, ts);
      PlaceTape(a, x, ask, b, no, sq, ts);
      PlaceKeeps(b, no, sq, ts);
      if p.settled && p.book.lastTrade.Some? {
        var last := p.book.lastTrade.value;
        TriggerTape(Replay(a, x, p.events, ask), x, ask, p.book, last, sq, ts);
        ReplayConcat(a, x, p.events, Trigger(p.book, last, sq, ts).events, ask);
      }
    }
  }

  lemma StopTape(a: Account, x: OrderId, ask: Ask, b: Book, no: NewOrder, sq: nat, ts: nat)
    requires Inv(b) && Admitted(b, no) && IsStop(no.kind) && Entering(a, x, b, no, ask)
    ensures Replay(a, x, SubmitNew(b, no, sq, ts).events, ask).life == LifeOf(SubmitNew(b, no, sq, ts).book, x)
  {
    hide Inv, LifeOf;
    var e := Accepted(no.id, sq);
    ReplayShort(a, x, e, e, ask);
    StopPending(b, OrderOf(no, sq, ts), x);
  }

  lemma StopPending(b: Book, o: Order, x: OrderId)
    requires Inv(b) && !HasId(b, o.id)
    ensures LifeOf(WithStops(b, o.side, Insert(Stops(b, o.side), o)), x) ==
      if x == o.id then Waiting(o.remaining) else LifeOf(b, x)
  {
    hide Sorted, Distinct, SideWF, StopsWF, Insert, IndexOf;
    InsertLookup(Stops(b, o.side), o, x);
  }

  lemma {:induction false} TriggerTape(a: Account, x: OrderId, ask: Ask, b: Book, last: Price, sq: nat, ts: nat)
    requires Inv(b) && a.life == LifeOf(b, x)
    ensures Replay(a, x, Trigger(b, last, sq, ts).events, ask).life == LifeOf(Trigger(b, last, sq, ts).book, x)
    decreases Pending(b), 1, 0
  {
    hide WF, NoCross, LifeOf, FireAll;
    var buys := FireAll(b, Buy, Triggered(b, Buy, last), sq, ts);
    FireKeeps(b, Buy, Triggered(b, Buy, last), sq, ts);
    FireTape(a, x, ask, b, Buy, Triggered(b, Buy, last), sq, ts);
    var sells := FireAll(buys.book, Sell, Triggered(buys.book, Sell, last), sq, ts);
    FireTape(Replay(a, x, buys.events, ask), x, ask, buys.book, Sell, Triggered(buys.book, Sell, last), sq, ts);
    ReplayConcat(a, x, buys.events, sells.events, ask);
  }

  lemma {:induction false} FireTape(
    a: Account, x: OrderId, ask: Ask, b: Book, s: Side, ids: seq<OrderId>, sq: nat, ts: nat)
    requires Inv(b) && a.life == LifeOf(b, x)
    ensures Replay(a, x, FireAll(b, s, ids, sq, ts).events, ask).life == LifeOf(FireAll(b, s, ids, sq, ts).book, x)
    decreases Pending(b), 0, |ids|
  {
    hide WF, NoCross, LifeOf;
    if ids == [] {
    } else if !Has(Stops(b, s), ids[0]) {
      FireTape(a, x, ask, b, s, ids[1..], sq, ts);
    } else {
      ReleaseKeeps(b, s, ids[0]);
      ReleaseTape(a, x, ask, b, s, ids[0]);
      var b1 := WithStops(b, s, Without(Stops(b, s), ids[0]));
      var no := Released(Lookup(Stops(b, s), ids[0]).value);
      var o := SubmitNew(b1, no, sq, ts);
      SubmitTape(a, x, ask, b1, no, sq, ts);
      SubmitKeeps(b1, no, sq, ts);
      FireTape(Replay(a, x, o.events, ask), x, ask, o.book, s, ids[1..], sq, ts);
      ReplayConcat(a, x, o.events, FireAll(o.book, s, ids[1..], sq, ts).events, ask);
    }
  }

  lemma ReleaseTape(a: Account, x: OrderId, ask: Ask, b: Book, s: Side, id: OrderId)
    requires Inv(b) && Has(Stops(b, s), id) && a.life == LifeOf(b, x)
    ensures Entering(a, x, WithStops(b, s, Without(Stops(b, s), id)), Released(Lookup(Stops(b, s), id).value), ask)
  {
    hide LifeOf, IndexOf, Sorted, Distinct;
    if x == id {
      StopLife(b, s, id);
      StopsDistinct(b, s);
      StopGone(b, s, id);
    } else {
      StopsDistinct(b, s);
      OtherLife(b, s, id, x);
    }
  }

  lemma StopsDistinct(b: Book, s: Side)
    requires Inv(b)
    ensures Distinct(Stops(b, s))
  {
  }

  lemma HasLookup(os: seq<Order>, x: OrderId)
    ensures Has(os, x) <==> Lookup(os, x).Some?
  {
  }

  /** Releasing one stop leaves every other id where it is. */
  lemma OtherLife(b: Book, s: Side, id: OrderId, x: OrderId)
    requires Distinct(Stops(b, s)) && x != id
    ensures LifeOf(WithStops(b, s, Without(Stops(b, s), id)), x) == LifeOf(b, x)
  {
    hide Has, Lookup, Without, Distinct;
    WithoutLookup(Stops(b, s), id, x);
    HasLookup(Stops(b, s), x);
    HasLookup(Without(Stops(b, s), id), x);
  }

  /** A released stop is nowhere in the book until it is submitted. */
  lemma StopGone(b: Book, s: Side, id: OrderId)
    requires Inv(b) && Has(Stops(b, s), id)
    ensures !HasId(WithStops(b, s, Without(Stops(b, s), id)), id)
  {
    hide Has, Lookup, Without, Distinct, Sorted;
    WithoutLookup(Stops(b, s), id, id);
    HasLookup(Without(Stops(b, s), id), id);
    assert UniqueIds(b);
  }

  lemma StopLife(b: Book, s: Side, id: OrderId)
    requires Inv(b) && Has(Stops(b, s), id)
    ensures var stop := Lookup(Stops(b, s), id).value;
      LifeOf(b, id) == Waiting(stop.remaining) && stop.id == id
        && Released(stop) == Released(stop).(id := id, qty := stop.remaining)
  {
  }

  // ---------------------------------------------------------------- commands and runs

  lemma RemoveTape(b: Book, id: OrderId, x: OrderId)
    requires Inv(b)
    ensures LifeOf(Remove(b, id), x) == if x == id then Absent else LifeOf(b, x)
  {
    hide Sorted, IndexOf, Without;
    WithoutLookup(b.bids, id, x);
    WithoutLookup(b.asks, id, x);
    WithoutLookup(b.buyStops, id, x);
    WithoutLookup(b.sellStops, id, x);
  }

  /** The events of one command move the account of every id from the old book to the new one. */
  lemma ApplyTape(a: Account, x: OrderId, b: Book, c: Sequenced)
    requires Inv(b) && a.life == LifeOf(b, x)
    ensures Replay(a, x, Apply(b, c).events, AskOf(b, c.cmd)).life == LifeOf(Apply(b, c).book, x)
  {
    match c.cmd
    case New(no) => SubmitTape(a, x, AskOf(b, c.cmd), b, no, c.seqNo, c.ts);
    case Cancel(id, _) => CancelTape(a, x, b, id, c.seqNo);
    case Replace(id, newPrice, newQty, _) => ReplaceTape(a, x, b, id, newPrice, newQty, c.seqNo, c.ts);
  }

  lemma CancelTape(a: Account, x: OrderId, b: Book, id: OrderId, sq: nat)
    requires Inv(b) && a.life == LifeOf(b, x)
    ensures Replay(a, x, CancelOrder(b, id, sq).events, Ask(id, 0, false)).life
      == LifeOf(CancelOrder(b, id, sq).book, x)
  {
    hide WF, NoCross, Remove, IndexOf;
    RemoveTape(b, id, x);
    ReplayShort(a, x, Cancelled(id, sq), Rejected(id, UnknownId, sq), Ask(id, 0, false));
    ReplayShort(a, x, Rejected(id, UnknownId, sq), Cancelled(id, sq), Ask(id, 0, false));
  }

  lemma ReplaceTape(a: Account, x: OrderId, b: Book, id: OrderId, newPrice: Price, newQty: Qty, sq: nat, ts: nat)
    requires Inv(b) && a.life == LifeOf(b, x)
    ensures var o := ReplaceOrder(b, id, newPrice, newQty, sq, ts);
      Replay(a, x, o.events, Ask(id, newQty, HasStop(b, id))).life == LifeOf(o.book, x)
  {
    hide WF, NoCross, LifeOf, HasStop, Has, Lookup, Remove;
    var ask := Ask(id, newQty, HasStop(b, id));
    if newQty == 0 || Fetch(b, id) == None {
      var e := ReplaceOrder(b, id, newPrice, newQty, sq, ts).events[0];
      ReplayShort(a, x, e, e, ask);
    } else {
      var no := Renewed(Fetch(b, id).value, id, newPrice, newQty);
      var o := SubmitNew(Remove(b, id), no, sq, ts);
      FetchKind(b, id);
      RemoveTape(b, id, x);
      RemoveKeeps(b, id);
      SubmitTape(Advance(a, x, Replaced(id, sq), ask), x, ask, Remove(b, id), no, sq, ts);
      assert ([Replaced(id, sq)] + o.events)[1..] == o.events;
    }
  }

  lemma FetchKind(b: Book, id: OrderId)
    requires WF(b) && Fetch(b, id).Some?
    ensures IsStop(Fetch(b, id).value.kind) <==> HasStop(b, id)
    ensures LifeOf(b, id).Live? || LifeOf(b, id).Waiting?
  {
    hide Sorted, Distinct;
  }

  lemma AliveInBook(b: Book, x: OrderId)
    ensures !LifeOf(b, x).Broken?
  {
  }

  /**
    Over whole runs, for every id: the tape is legal, the account it leads to is the order in the book (its open
    quantity, and what it traded since its last acceptance), and accepted == traded + dropped + open.
   */
  lemma {:induction false} RunTape(a: Account, x: OrderId, b: Book, cs: seq<Sequenced>)
    requires Inv(b)
    requires a.life == LifeOf(b, x) && a.accepted == a.traded + a.dropped + Open(a)
    ensures var r := ReplayRun(a, x, b, cs);
      && r.life == LifeOf(Run(b, cs).book, x)
      && r.accepted == r.traded + r.dropped + Open(r)
    decreases |cs|
  {
    hide Inv, LifeOf, Apply, Replay, Advance;
    if cs != [] {
      var o := Apply(b, cs[0]);
      ApplyTape(a, x, b, cs[0]);
      AliveInBook(o.book, x);
      TapeConserves(a, x, o.events, AskOf(b, cs[0].cmd));
      ApplyKeeps(b, cs[0]);
      RunTape(Replay(a, x, o.events, AskOf(b, cs[0].cmd)), x, o.book, cs[1..]);
    }
  }
}
