/**
  Who trades, how much and at what price. The reference is a waterfall over the opposite side:
  order i receives whatever the orders ahead of it leave, up to its own open quantity.
 */
module Priority {
  import opened Types
  import opened PriceTime
  import opened Spec
  import opened Invariants

  function Trades(es: seq<OutputEvent>): seq<OutputEvent> {
    if es == [] then [] else (if es[0].Trade? then [es[0]] else []) + Trades(es[1..])
  }

  function Volume(es: seq<OutputEvent>): nat {
    if es == [] then 0 else (if es[0].Trade? then es[0].qty else 0) + Volume(es[1..])
  }

  /** Open quantity of the makers ahead of maker i. */
  function Ahead(makers: seq<Order>, i: nat): nat
    requires i <= |makers|
  {
    Sum(makers[..i])
  }

  /** The share of a demand of q that the waterfall gives to maker i. */
  function Share(q: nat, makers: seq<Order>, i: nat): nat
    requires i < |makers|
  {
    if q <= Ahead(makers, i) then 0 else Min(makers[i].remaining, q - Ahead(makers, i))
  }

  /** Number of leading makers the taker may trade with. */
  function Reach(taker: Order, makers: seq<Order>): (n: nat)
    ensures n <= |makers|
  {
    if makers == [] || !Crosses(taker, makers[0]) then 0 else 1 + Reach(taker, makers[1..])
  }

  lemma {:induction false} AheadStep(makers: seq<Order>, i: nat)
    requires 0 < i <= |makers|
    ensures Ahead(makers, i) == makers[0].remaining + Ahead(makers[1..], i - 1)
  {
    assert makers[..i][1..] == makers[1..][..i - 1];
  }

  lemma {:induction false} VolumeConcat(es: seq<OutputEvent>, fs: seq<OutputEvent>)
    ensures Volume(es + fs) == Volume(es) + Volume(fs) && Trades(es + fs) == Trades(es) + Trades(fs)
  {
    if es == [] {
      assert es + fs == fs;
      assert [] + Trades(fs) == Trades(fs);
    } else {
      var first := if es[0].Trade? then [es[0]] else [];
      assert (es + fs)[0] == es[0] && (es + fs)[1..] == es[1..] + fs;
      VolumeConcat(es[1..], fs);
      assert first + (Trades(es[1..]) + Trades(fs)) == first + Trades(es[1..]) + Trades(fs);
    }
  }

  lemma TradePair(trade: OutputEvent, note: OutputEvent, rest: seq<OutputEvent>)
    requires trade.Trade? && !note.Trade?
    ensures Trades([trade, note] + rest) == [trade] + Trades(rest)
      && Volume([trade, note] + rest) == trade.qty + Volume(rest)
  {
    assert ([trade, note] + rest)[1..][1..] == rest;
  }

  lemma ReachKind(taker: Order, less: Order, makers: seq<Order>)
    requires less == taker.(remaining := less.remaining)
    ensures Reach(less, makers) == Reach(taker, makers)
  {
  }

  ghost predicate IsShare(trade: OutputEvent, taker: Order, makers: seq<Order>, i: nat, sq: nat, ts: nat)
    requires i < |makers|
  {
    0 < Share(taker.remaining, makers, i) <= U64_MAX
    && trade == Trade(sq, taker.id, makers[i].id, makers[i].price, Share(taker.remaining, makers, i), taker.side, ts)
  }

  /** The trades are the positive shares of the waterfall, in order, and only the last maker can be left unfilled. */
  ghost predicate AreShares(trades: seq<OutputEvent>, taker: Order, makers: seq<Order>, sq: nat, ts: nat) {
    && |trades| <= |makers|
    && (forall i :: 0 <= i < |trades| ==> IsShare(trades[i], taker, makers, i, sq, ts))
    && (forall i :: 0 <= i < |trades| - 1 ==> Share(taker.remaining, makers, i) == makers[i].remaining)
  }

  /** n makers traded: the taker is filled or every maker in reach is used up. */
  ghost predicate Spent(taker: Order, makers: seq<Order>, n: nat, remaining: nat) {
    && n <= Reach(taker, makers)
    && (remaining > 0 ==> n == Reach(taker, makers))
    && taker.remaining == remaining + Min(taker.remaining, Ahead(makers, Reach(taker, makers)))
  }

  /** What n trades leave of the makers' side: an unfilled last maker keeps the head, all others are untouched. */
  ghost predicate Leaves(q: nat, makers: seq<Order>, n: nat, left: seq<Order>)
    requires n <= |makers|
  {
    if n > 0 && Share(q, makers, n - 1) < makers[n - 1].remaining
    then left == [makers[n - 1].(remaining := makers[n - 1].remaining - Share(q, makers, n - 1))] + makers[n..]
    else left == makers[n..]
  }

  ghost predicate Waterfall(taker: Order, makers: seq<Order>, last: Option<Price>, r: Matched, sq: nat, ts: nat) {
    var trades := Trades(r.events);
    && AreShares(trades, taker, makers, sq, ts)
    && Spent(taker, makers, |trades|, r.remaining)
    && Leaves(taker.remaining, makers, |trades|, r.makers)
    && r.last == (if trades == [] then last else Some(makers[|trades| - 1].price))
  }

  /** Price-time priority, whole: a match is the waterfall over the opposite side. */
  lemma {:induction false} PriceTimePriority(taker: Order, makers: seq<Order>, last: Option<Price>, sq: nat, ts: nat)
    requires SideWF(makers, taker.side.Opposite())
    ensures Waterfall(taker, makers, last, Match(taker, makers, last, sq, ts), sq, ts)
    decreases |makers|
  {
    if taker.remaining == 0 || makers == [] || !Crosses(taker, makers[0]) {
      NoMaker(taker, makers, last, sq, ts);
    } else if makers[0].remaining <= taker.remaining {
      var less := taker.(remaining := taker.remaining - makers[0].remaining);
      var r1 := Match(less, makers[1..], Some(makers[0].price), sq, ts);
      SideTail(makers, taker.side.Opposite());
      PriceTimePriority(less, makers[1..], Some(makers[0].price), sq, ts);
      FilledMaker(taker, makers, last, r1, sq, ts);
      FirstFilled(taker, makers, last, sq, ts);
    } else {
      PartMaker(taker, makers, last, sq, ts);
    }
  }

  lemma FirstFilled(taker: Order, makers: seq<Order>, last: Option<Price>, sq: nat, ts: nat)
    requires makers != [] && 0 < makers[0].remaining <= taker.remaining && Crosses(taker, makers[0])
    ensures var less := taker.(remaining := taker.remaining - makers[0].remaining);
      var r1 := Match(less, makers[1..], Some(makers[0].price), sq, ts);
      Match(taker, makers, last, sq, ts)
      == r1.(events := [TradeOf(taker, makers[0], makers[0].remaining, sq, ts), Filled(makers[0].id, sq)] + r1.events)
  {
  }

  lemma NoMaker(taker: Order, makers: seq<Order>, last: Option<Price>, sq: nat, ts: nat)
    requires taker.remaining == 0 || makers == [] || !Crosses(taker, makers[0])
    ensures Waterfall(taker, makers, last, Match(taker, makers, last, sq, ts), sq, ts)
  {
    assert Ahead(makers, 0) == 0;
  }

  lemma PartMaker(taker: Order, makers: seq<Order>, last: Option<Price>, sq: nat, ts: nat)
    requires makers != [] && 0 < taker.remaining < makers[0].remaining && Crosses(taker, makers[0])
    ensures Waterfall(taker, makers, last, Match(taker, makers, last, sq, ts), sq, ts)
  {
    LastMaker(taker, makers, sq, ts);
    var r := Match(taker, makers, last, sq, ts);
    TradePair(r.events[0], r.events[1], []);
    assert r.events == [r.events[0], r.events[1]] + [];
  }

  lemma FilledMaker(taker: Order, makers: seq<Order>, last: Option<Price>, r1: Matched, sq: nat, ts: nat)
    requires makers != [] && 0 < makers[0].remaining <= taker.remaining && Crosses(taker, makers[0])
    requires Waterfall(taker.(remaining := taker.remaining - makers[0].remaining),
      makers[1..], Some(makers[0].price), r1, sq, ts)
    ensures Waterfall(taker, makers, last, r1.(events :=
      [TradeOf(taker, makers[0], makers[0].remaining, sq, ts), Filled(makers[0].id, sq)] + r1.events), sq, ts)
  {
    var trades := Trades(r1.events);
    var trade := TradeOf(taker, makers[0], makers[0].remaining, sq, ts);
    TradePair(trade, Filled(makers[0].id, sq), r1.events);
    SharesStep(taker, makers, trades, sq, ts);
    SpentStep(taker, makers, |trades|, r1.remaining);
    LeavesStep(taker, makers, |trades|, r1.makers);
  }

  /** The first maker covers the whole demand and keeps some of its quantity. */
  lemma LastMaker(taker: Order, makers: seq<Order>, sq: nat, ts: nat)
    requires makers != [] && 0 < taker.remaining < makers[0].remaining && Crosses(taker, makers[0])
    ensures AreShares([TradeOf(taker, makers[0], taker.remaining, sq, ts)], taker, makers, sq, ts)
    ensures Spent(taker, makers, 1, 0)
    ensures Share(taker.remaining, makers, 0) == taker.remaining
  {
    assert Ahead(makers, 0) == 0;
    AheadStep(makers, Reach(taker, makers));
  }

  /** Once the first maker is filled, the shares of the others are those of the tail for the reduced demand. */
  lemma ShareStep(q: nat, makers: seq<Order>, i: nat)
    requires makers != [] && makers[0].remaining <= q && 0 < i < |makers|
    ensures Share(q, makers, i) == Share(q - makers[0].remaining, makers[1..], i - 1)
  {
    AheadStep(makers, i);
  }

  lemma SharesStep(taker: Order, makers: seq<Order>, trades: seq<OutputEvent>, sq: nat, ts: nat)
    requires makers != [] && 0 < makers[0].remaining <= taker.remaining
    requires AreShares(trades, taker.(remaining := taker.remaining - makers[0].remaining), makers[1..], sq, ts)
    ensures AreShares([TradeOf(taker, makers[0], makers[0].remaining, sq, ts)] + trades, taker, makers, sq, ts)
  {
    var less := taker.(remaining := taker.remaining - makers[0].remaining);
    var all := [TradeOf(taker, makers[0], makers[0].remaining, sq, ts)] + trades;
    assert Ahead(makers, 0) == 0;
    forall i | 0 <= i < |all|
      ensures IsShare(all[i], taker, makers, i, sq, ts)
      ensures i < |all| - 1 ==> Share(taker.remaining, makers, i) == makers[i].remaining
    {
      if i > 0 {
        ShareStep(taker.remaining, makers, i);
        assert IsShare(trades[i - 1], less, makers[1..], i - 1, sq, ts);
        assert i < |all| - 1 ==> Share(less.remaining, makers[1..], i - 1) == makers[1..][i - 1].remaining;
      }
    }
  }

  lemma SpentStep(taker: Order, makers: seq<Order>, n: nat, remaining: nat)
    requires makers != [] && 0 < makers[0].remaining <= taker.remaining && Crosses(taker, makers[0])
    requires Spent(taker.(remaining := taker.remaining - makers[0].remaining), makers[1..], n, remaining)
    ensures Spent(taker, makers, n + 1, remaining)
  {
    var less := taker.(remaining := taker.remaining - makers[0].remaining);
    ReachKind(taker, less, makers[1..]);
    AheadStep(makers, Reach(taker, makers));
  }

  lemma LeavesStep(taker: Order, makers: seq<Order>, n: nat, left: seq<Order>)
    requires makers != [] && 0 < makers[0].remaining <= taker.remaining && n < |makers|
    requires Leaves(taker.remaining - makers[0].remaining, makers[1..], n, left)
    ensures Leaves(taker.remaining, makers, n + 1, left)
  {
    assert Ahead(makers, 0) == 0;
    if n > 0 {
      ShareStep(taker.remaining, makers, n);
    }
  }

  /** Each trade of a match is followed at once by what it means to its maker: used up, or left with so much. */
  ghost predicate Noted(es: seq<OutputEvent>, makers: seq<Order>, sq: nat) {
    && |es| % 2 == 0 && |es| / 2 <= |makers|
    && forall i :: 0 <= i < |es| / 2 ==> NotedAt(es[2 * i], es[2 * i + 1], makers[i], sq)
  }

  predicate NotedAt(trade: OutputEvent, note: OutputEvent, maker: Order, sq: nat) {
    trade.Trade? && trade.maker == maker.id && 0 < trade.qty <= maker.remaining
    && note == if trade.qty == maker.remaining then Filled(maker.id, sq)
               else PartiallyFilled(maker.id, trade.qty, maker.remaining - trade.qty, sq)
  }

  lemma {:induction false} MatchNotes(taker: Order, makers: seq<Order>, last: Option<Price>, sq: nat, ts: nat)
    requires SideWF(makers, taker.side.Opposite())
    ensures Noted(Match(taker, makers, last, sq, ts).events, makers, sq)
    decreases |makers|
  {
    hide Match, Sorted, Distinct, NotedAt, Crosses;
    if taker.remaining == 0 || makers == [] || !Crosses(taker, makers[0]) {
      MatchOver(taker, makers, last, sq, ts);
    } else {
      MatchStep(taker, makers, last, sq, ts);
      var es := Match(taker, makers, last, sq, ts).events;
      var t := Min(taker.remaining, makers[0].remaining);
      FirstNote(taker, makers[0], t, sq, ts);
      if makers[0].remaining == t {
        var less := taker.(remaining := taker.remaining - t);
        SideTail(makers, taker.side.Opposite());
        MatchNotes(less, makers[1..], Some(makers[0].price), sq, ts);
        var rest := Match(less, makers[1..], Some(makers[0].price), sq, ts).events;
        forall i | 0 <= i < |es| / 2 ensures NotedAt(es[2 * i], es[2 * i + 1], makers[i], sq) {
          if i > 0 {
            assert NotedAt(rest[2 * (i - 1)], rest[2 * (i - 1) + 1], makers[1..][i - 1], sq);
          }
        }
      }
    }
  }

  lemma FirstNote(taker: Order, maker: Order, t: Qty, sq: nat, ts: nat)
    requires 0 < t <= maker.remaining
    ensures NotedAt(TradeOf(taker, maker, t, sq, ts), if t == maker.remaining then Filled(maker.id, sq)
      else PartiallyFilled(maker.id, t, maker.remaining - t, sq), maker, sq)
  {
  }

  /** A maker trades only if every maker ahead of it, better priced or earlier, is filled. */
  lemma NoQueueJumping(q: nat, makers: seq<Order>, i: nat, j: nat)
    requires i < j < |makers|
    requires Share(q, makers, j) > 0
    ensures Share(q, makers, i) == makers[i].remaining
  {
    assert makers[..j] == makers[..i] + ([makers[i]] + makers[i + 1..j]);
    SumConcat(makers[..i], [makers[i]] + makers[i + 1..j], 0);
  }

  lemma SumCons(o: Order, os: seq<Order>)
    ensures Sum([o] + os) == o.remaining + Sum(os)
  {
    assert ([o] + os)[1..] == os;
  }

  /** Traded quantity is what the taker and the makers' side both lose. */
  lemma {:induction false} MatchConserves(taker: Order, makers: seq<Order>, last: Option<Price>, sq: nat, ts: nat)
    ensures var r := Match(taker, makers, last, sq, ts);
      taker.remaining == r.remaining + Volume(r.events) && Sum(makers) == Sum(r.makers) + Volume(r.events)
    decreases |makers|
  {
    hide Match, Sum, Volume, Crosses, Trades;
    VolumeNone();
    if taker.remaining > 0 && makers != [] && Crosses(taker, makers[0]) {
      var m := makers[0];
      MatchStep(taker, makers, last, sq, ts);
      SumHead(makers);
      if m.remaining <= taker.remaining {
        var less := taker.(remaining := taker.remaining - m.remaining);
        MatchConserves(less, makers[1..], Some(m.price), sq, ts);
        var rest := Match(less, makers[1..], Some(m.price), sq, ts).events;
        TradePair(TradeOf(taker, m, m.remaining, sq, ts), Filled(m.id, sq), rest);
      } else {
        PartVolume(taker, m, sq, ts);
        SumCons(m.(remaining := m.remaining - taker.remaining), makers[1..]);
      }
    } else {
      MatchOver(taker, makers, last, sq, ts);
    }
  }

  lemma SumHead(makers: seq<Order>)
    requires makers != []
    ensures Sum(makers) == makers[0].remaining + Sum(makers[1..])
  {
  }

  lemma PartVolume(taker: Order, m: Order, sq: nat, ts: nat)
    requires taker.remaining < m.remaining
    ensures Volume([TradeOf(taker, m, taker.remaining, sq, ts),
                    PartiallyFilled(m.id, taker.remaining, m.remaining - taker.remaining, sq)]) == taker.remaining
  {
    var trade := TradeOf(taker, m, taker.remaining, sq, ts);
    var note := PartiallyFilled(m.id, taker.remaining, m.remaining - taker.remaining, sq);
    TradePair(trade, note, []);
    assert [trade, note] + [] == [trade, note];
    VolumeNone();
  }

  lemma VolumeNone()
    ensures Volume([]) == 0
  {
  }

  /**
    A limit order is filled exactly when the quantity within its limit covers it. Otherwise it has traded with every
    order within the limit, and the worst of them is the last price.
   */
  lemma {:induction false} LimitOutcome(taker: Order, makers: seq<Order>, last: Option<Price>, sq: nat, ts: nat)
    requires taker.kind.Limit? && SideWF(makers, taker.side.Opposite())
    ensures var r := Match(taker, makers, last, sq, ts);
      var limit := Rank(taker.side.Opposite(), taker.price);
      var n := Pos(makers, limit);
      && (r.remaining == 0 <==> taker.remaining <= SumWithin(makers, limit))
      && (r.remaining > 0 ==> r.last == if n == 0 then last else Some(makers[n - 1].price))
    decreases |makers|
  {
    hide Match, Distinct;
    var limit := Rank(taker.side.Opposite(), taker.price);
    if taker.remaining == 0 || makers == [] || !Crosses(taker, makers[0]) {
      MatchOver(taker, makers, last, sq, ts);
      SumWithinAll(makers, limit);
    } else {
      MatchStep(taker, makers, last, sq, ts);
      SideTail(makers, taker.side.Opposite());
      if makers[0].remaining <= taker.remaining {
        LimitOutcome(taker.(remaining := taker.remaining - makers[0].remaining),
          makers[1..], Some(makers[0].price), sq, ts);
      }
    }
  }

  // ---------------------------------------------------------------- price protection

  /** Every trade is at rank k or better on the maker's side s. */
  ghost predicate TradesWithin(es: seq<OutputEvent>, s: Side, k: int) {
    forall i :: 0 <= i < |es| && es[i].Trade? ==> Rank(s, es[i].price) <= k
  }

  /** The note that follows a trade does not matter to a price limit, and neither does a trade within it. */
  lemma WithinTail(e: OutputEvent, note: OutputEvent, es: seq<OutputEvent>, s: Side, k: int)
    requires e.Trade? && Rank(s, e.price) <= k && !note.Trade?
    ensures TradesWithin([e, note] + es, s, k) <==> TradesWithin(es, s, k)
  {
    assert forall i :: 0 <= i < |es| ==> es[i] == ([e, note] + es)[i + 2];
  }

  /**
    For the kinds that ignore their limit, the trades respect a limit exactly when the quantity within it covers
    the order, or there is nothing beyond it to trade with.
   */
  lemma {:induction false} WithinLimitExactly(
    taker: Order, makers: seq<Order>, last: Option<Price>, k: int, sq: nat, ts: nat)
    requires SideWF(makers, taker.side.Opposite()) && (taker.kind.Market? || taker.kind.Ioc? || taker.kind.Fok?)
    ensures TradesWithin(Match(taker, makers, last, sq, ts).events, taker.side.Opposite(), k)
      <==> taker.remaining <= SumWithin(makers, k) || SumWithin(makers, k) == Sum(makers)
    decreases |makers|
  {
    if taker.remaining > 0 && makers != [] {
      var s := taker.side.Opposite();
      var r := Match(taker, makers, last, sq, ts);
      var t := Min(taker.remaining, makers[0].remaining);
      assert r.events[0] == TradeOf(taker, makers[0], t, sq, ts);
      if k < RankOf(makers[0]) {
        SumWithinAll(makers, k);
        assert !(Rank(s, r.events[0].price) <= k);
      } else if makers[0].remaining == t {
        var less := taker.(remaining := taker.remaining - t);
        var r1 := Match(less, makers[1..], Some(makers[0].price), sq, ts);
        WithinLimitExactly(less, makers[1..], Some(makers[0].price), k, sq, ts);
        WithinTail(r.events[0], r.events[1], r1.events, s, k);
        assert r.events == [r.events[0], r.events[1]] + r1.events;
      }
    }
    SumWithinAll(makers, k);
  }

  /** An immediate-or-cancel order is matched exactly like a market order: its limit protects nothing. */
  lemma {:induction false} IocIsMarket(taker: Order, makers: seq<Order>, last: Option<Price>, sq: nat, ts: nat)
    requires taker.kind.Ioc?
    ensures Match(taker, makers, last, sq, ts) == Match(taker.(kind := Market), makers, last, sq, ts)
    decreases |makers|
  {
    if taker.remaining > 0 && makers != [] {
      var t := Min(taker.remaining, makers[0].remaining);
      IocIsMarket(taker.(remaining := taker.remaining - t), makers[1..], Some(makers[0].price), sq, ts);
      assert taker.(remaining := taker.remaining - t).(kind := Market)
        == taker.(kind := Market).(remaining := taker.remaining - t);
    }
  }

  /** A buy with limit 100 that trades at 105. */
  lemma IocBreaksItsLimit()
    ensures
      var ask := Order(1, 1, Sell, Limit, Gtc, 105, 0, 10, 10, 1, 0);
      var no := NewOrder(2, 1, Buy, Ioc, Gtc, 100, 0, 10);
      Trade(2, 2, 1, 105, 10, Buy, 0) in SubmitNew(Book([], [ask], [], [], None), no, 2, 0).events
  {
    var ask := Order(1, 1, Sell, Limit, Gtc, 105, 0, 10, 10, 1, 0);
    var no := NewOrder(2, 1, Buy, Ioc, Gtc, 100, 0, 10);
    var b := Book([], [ask], [], [], None);
    var r := Match(OrderOf(no, 2, 0), [ask], None, 2, 0);
    assert r.events[0] == Trade(2, 2, 1, 105, 10, Buy, 0);
    var p := Place(b, no, 2, 0);
    assert p.events[1] == r.events[0];
    assert p.events <= SubmitNew(b, no, 2, 0).events;
  }

  /**
    Fill or kill. With enough quantity within the limit the order trades its whole quantity, every trade within
    the limit; with less it is rejected and neither the book nor the tape moves. The cap on the checked
    quantity makes no difference.
   */
  lemma FokAtomic(b: Book, no: NewOrder, sq: nat, ts: nat)
    requires Inv(b) && Admitted(b, no) && no.kind.Fok?
    ensures var k := Rank(no.side.Opposite(), no.price);
      var p := Place(b, no, sq, ts);
      if no.qty <= SumWithin(Resting(b, no.side.Opposite()), k) then
        && Volume(p.events) == no.qty && TradesWithin(p.events, no.side.Opposite(), k)
        && p.events[|p.events| - 1] == Filled(no.id, sq)
        && Resting(p.book, no.side) == Resting(b, no.side)
        && Sum(Resting(b, no.side.Opposite())) == Sum(Resting(p.book, no.side.Opposite())) + no.qty
      else
        SubmitNew(b, no, sq, ts) == Outcome(b, [Accepted(no.id, sq), Rejected(no.id, FokUnfillable, sq)])
  {
    hide Inv, Match;
    if no.qty <= SumWithin(Resting(b, no.side.Opposite()), Rank(no.side.Opposite(), no.price)) {
      FokFills(b, no, sq, ts);
    }
  }

  lemma FokFills(b: Book, no: NewOrder, sq: nat, ts: nat)
    requires Inv(b) && no.qty > 0 && no.kind.Fok?
    requires no.qty <= SumWithin(Resting(b, no.side.Opposite()), Rank(no.side.Opposite(), no.price))
    ensures var p := Place(b, no, sq, ts);
      && Volume(p.events) == no.qty && TradesWithin(p.events, no.side.Opposite(), Rank(no.side.Opposite(), no.price))
      && p.events[|p.events| - 1] == Filled(no.id, sq)
      && Resting(p.book, no.side) == Resting(b, no.side)
      && Sum(Resting(b, no.side.Opposite())) == Sum(Resting(p.book, no.side.Opposite())) + no.qty
  {
    hide Sorted, Distinct, Match, SumWithin, Sum;
    var makers := Resting(b, no.side.Opposite());
    var k := Rank(no.side.Opposite(), no.price);
    var taker := OrderOf(no, sq, ts);
    var r := Match(taker, makers, b.lastTrade, sq, ts);
    WithinLimitExactly(taker, makers, b.lastTrade, k, sq, ts);
    ImmediateTakesAll(taker, makers, b.lastTrade, sq, ts);
    SumWithinAll(makers, k);
    MatchConserves(taker, makers, b.lastTrade, sq, ts);
    var p := Place(b, no, sq, ts);
    var opening, closing := [Accepted(no.id, sq)], [Filled(no.id, sq)];
    assert p.events == opening + r.events + closing;
    VolumeConcat(opening + r.events, closing);
    VolumeConcat(opening, r.events);
    forall i | 0 <= i < |p.events| && p.events[i].Trade? ensures Rank(no.side.Opposite(), p.events[i].price) <= k {
      assert p.events[i] == r.events[i - 1];
    }
  }

  /** An order that ignores its limit is left over only if it emptied the side. */
  lemma {:induction false} ImmediateTakesAll(taker: Order, makers: seq<Order>, last: Option<Price>, sq: nat, ts: nat)
    requires taker.kind.Market? || taker.kind.Ioc? || taker.kind.Fok?
    ensures var r := Match(taker, makers, last, sq, ts);
      r.remaining == if Sum(makers) < taker.remaining then taker.remaining - Sum(makers) else 0
    decreases |makers|
  {
    if taker.remaining > 0 && makers != [] {
      var t := Min(taker.remaining, makers[0].remaining);
      ImmediateTakesAll(taker.(remaining := taker.remaining - t), makers[1..], Some(makers[0].price), sq, ts);
    }
  }
}
