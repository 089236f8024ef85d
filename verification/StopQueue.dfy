/**
  The queues of pending stops: where a new stop is filed, which stops a price sets off, and in which order a
  cascade takes them off, however deep it nests.
 */
module StopQueue {
  import opened Types
  import opened PriceTime
  import opened Spec
  import opened Invariants
  import opened Releases
  import opened Commands

  /** The last trade has reached the trigger of a stop: risen to that of a buy, fallen to that of a sell. */
  predicate Reaches(last: Price, s: Side, stopPrice: Price) {
    if s.Buy? then stopPrice <= last else last <= stopPrice
  }

  // ---------------------------------------------------------------- filing

  /**
    A new stop waits exactly as submitted, behind every stop that triggers no later and before every other; nothing
    else moves and nothing trades.
   */
  lemma StopFiled(b: Book, no: NewOrder, sq: nat, ts: nat)
    requires Inv(b) && Admitted(b, no) && (no.kind.StopMarket? || no.kind.StopLimit?)
    ensures var out := SubmitNew(b, no, sq, ts);
      var os := if no.side.Buy? then out.book.buyStops else out.book.sellStops; var i := IndexOf(os, no.id);
      && out.events == [Accepted(no.id, sq)]
      && i < |os|
      && os[i] == Order(no.id, no.symbol, no.side, no.kind, no.tif, no.price, no.stopPrice, no.qty, no.qty, sq, ts)
      && (forall j :: 0 <= j < i ==> Reaches(no.stopPrice, no.side, os[j].stopPrice))
      && (forall j :: i < j < |os| ==> !Reaches(no.stopPrice, no.side, os[j].stopPrice))
      && out.book == (if no.side.Buy? then b.(buyStops := os) else b.(sellStops := os))
      && os[..i] + os[i + 1..] == (if no.side.Buy? then b.buyStops else b.sellStops)
  {
    hide Insert, IndexOf, Inv, Reaches;
    var own, o := Stops(b, no.side), OrderOf(no, sq, ts);
    SubmitStop(b, no, sq, ts);
    StopsSides(b, no.side);
    StopAbsent(b, no.side, no.id);
    InsertedStop(own, no.side, o);
  }

  lemma SubmitStop(b: Book, no: NewOrder, sq: nat, ts: nat)
    requires Admitted(b, no) && IsStop(no.kind)
    ensures SubmitNew(b, no, sq, ts)
         == Outcome(WithStops(b, no.side, Insert(Stops(b, no.side), OrderOf(no, sq, ts))), [Accepted(no.id, sq)])
  {
    hide Insert;
  }

  lemma StopAbsent(b: Book, s: Side, id: OrderId)
    requires !HasId(b, id)
    ensures !Has(Stops(b, s), id)
  {
    hide Has;
  }

  lemma InsertedStop(own: seq<Order>, s: Side, o: Order)
    requires StopsWF(own, s) && !Has(own, o.id) && IsStop(o.kind) && o.side == s
    ensures var os := Insert(own, o); var i := IndexOf(os, o.id);
      && i < |os| && os[i] == o && os[..i] + os[i + 1..] == own
      && (forall j :: 0 <= j < |os| && j != i ==> (Reaches(o.stopPrice, s, os[j].stopPrice) <==> j < i))
  {
    hide IndexOf, Pos, StopsWF, Has;
    var p := Pos(own, RankOf(o));
    var os := Insert(own, o);
    PutIndex(own, p, o);
    assert os[..p] == own[..p] && os[p + 1..] == own[p..];
    forall j | 0 <= j < |os| && j != p ensures Reaches(o.stopPrice, s, os[j].stopPrice) <==> j < p {
      BesidePos(own, s, RankOf(o), if j < p then j else j - 1);
    }
  }

  lemma BesidePos(own: seq<Order>, s: Side, k: int, j: nat)
    requires StopsWF(own, s) && j < |own|
    ensures j < Pos(own, k) <==> RankOf(own[j]) <= k
    ensures RankOf(own[j]) == Rank(s.Opposite(), own[j].stopPrice)
  {
    hide Pos, Distinct;
    if j >= Pos(own, k) {
      assert RankOf(own[Pos(own, k)]) <= RankOf(own[j]);
    }
  }

  // ---------------------------------------------------------------- who is set off

  /** A price sets off exactly the stops it reaches: a front part of the queue, in queue order. */
  lemma TriggeredExactly(b: Book, s: Side, last: Price)
    requires Inv(b)
    ensures var ids := Triggered(b, s, last); var os := Stops(b, s);
      && |ids| <= |os| && (forall i :: 0 <= i < |ids| ==> ids[i] == os[i].id)
      && (forall i :: 0 <= i < |os| ==> (Reaches(last, s, os[i].stopPrice) <==> i < |ids|))
  {
    hide Pos, Sorted, Distinct;
    StopsSides(b, s);
    var os := Stops(b, s);
    forall i | 0 <= i < |os| ensures Reaches(last, s, os[i].stopPrice) <==> i < |Triggered(b, s, last)| {
      BesidePos(os, s, Rank(s.Opposite(), last), i);
    }
  }

  /** At every check buy stops go before sell stops, and the first of a queue goes first. */
  lemma BuysFirst(b: Book, last: Price, sq: nat, ts: nat)
    requires Inv(b)
    ensures var o := Trigger(b, last, sq, ts);
      if b.buyStops != [] && b.buyStops[0].stopPrice <= last then
        o.events != [] && o.events[0] == Accepted(b.buyStops[0].id, sq)
      else if b.sellStops != [] && last <= b.sellStops[0].stopPrice then
        o.events != [] && o.events[0] == Accepted(b.sellStops[0].id, sq)
      else
        o == Outcome(b, [])
  {
    hide Inv, FireAll, Triggered;
    TriggeredExactly(b, Buy, last);
    TriggeredExactly(b, Sell, last);
    FireFirst(b, Buy, Triggered(b, Buy, last), sq, ts);
    FireFirst(b, Sell, Triggered(b, Sell, last), sq, ts);
  }

  lemma FireFirst(b: Book, s: Side, ids: seq<OrderId>, sq: nat, ts: nat)
    requires Inv(b)
    ensures ids == [] ==> FireAll(b, s, ids, sq, ts) == Outcome(b, [])
    ensures ids != [] && Stops(b, s) != [] && ids[0] == Stops(b, s)[0].id ==>
      var es := FireAll(b, s, ids, sq, ts).events; es != [] && es[0] == Accepted(ids[0], sq)
  {
    hide Inv, SubmitNew, Released, Unwaited, HasStop;
    if ids != [] && Stops(b, s) != [] && ids[0] == Stops(b, s)[0].id {
      hide FireAll;
      FireStep(b, s, ids, sq, ts);
      LookupNamed(Stops(b, s), ids[0]);
      ReleaseFacts(b, s, ids[0]);
      SubmitTaken(Unwaited(b, s, ids[0]), Released(Lookup(Stops(b, s), ids[0]).value), sq, ts);
    }
  }

  // ---------------------------------------------------------------- in which order they go

  /** The ids accepted on a tape, in order. In a cascade these are the stops released. */
  function Called(es: seq<OutputEvent>): seq<OrderId> {
    if es == [] then [] else (if es[0].Accepted? then [es[0].id] else []) + Called(es[1..])
  }

  lemma {:induction false} CalledConcat(es: seq<OutputEvent>, fs: seq<OutputEvent>)
    ensures Called(es + fs) == Called(es) + Called(fs)
  {
    if es == [] {
      assert es + fs == fs;
    } else {
      var first := if es[0].Accepted? then [es[0].id] else [];
      assert (es + fs)[0] == es[0] && (es + fs)[1..] == es[1..] + fs;
      CalledConcat(es[1..], fs);
      assert first + (Called(es[1..]) + Called(fs)) == first + Called(es[1..]) + Called(fs);
    }
  }

  lemma {:induction false} CalledNone(es: seq<OutputEvent>)
    requires forall e :: e in es ==> !e.Accepted?
    ensures Called(es) == []
  {
    if es != [] {
      CalledNone(es[1..]);
    }
  }

  /** Taking named stops off the fronts of the two queues; none if one of them is at neither front. */
  function Draw(buys: seq<Order>, sells: seq<Order>, ids: seq<OrderId>): Option<(seq<Order>, seq<Order>)>
    decreases |ids|
  {
    if ids == [] then Some((buys, sells))
    else if buys != [] && buys[0].id == ids[0] then Draw(buys[1..], sells, ids[1..])
    else if sells != [] && sells[0].id == ids[0] then Draw(buys, sells[1..], ids[1..])
    else None
  }

  lemma {:induction false} DrawConcat(buys: seq<Order>, sells: seq<Order>, ids: seq<OrderId>, more: seq<OrderId>)
    ensures Draw(buys, sells, ids + more) ==
      match Draw(buys, sells, ids)
      case None => None
      case Some(left) => Draw(left.0, left.1, more)
    decreases |ids|
  {
    if ids == [] {
      assert ids + more == more;
    } else {
      assert (ids + more)[0] == ids[0] && (ids + more)[1..] == ids[1..] + more;
      if buys != [] && buys[0].id == ids[0] {
        DrawConcat(buys[1..], sells, ids[1..], more);
      } else if sells != [] && sells[0].id == ids[0] {
        DrawConcat(buys, sells[1..], ids[1..], more);
      }
    }
  }

  /** What is left is a back part of each queue. */
  lemma {:induction false} DrawSuffix(buys: seq<Order>, sells: seq<Order>, ids: seq<OrderId>)
    returns (n: nat, m: nat)
    requires Draw(buys, sells, ids).Some?
    ensures n <= |buys| && m <= |sells| && Draw(buys, sells, ids).value == (buys[n..], sells[m..])
    decreases |ids|
  {
    if ids == [] {
      n, m := 0, 0;
      assert buys[0..] == buys && sells[0..] == sells;
    } else if buys != [] && buys[0].id == ids[0] {
      n, m := DrawSuffix(buys[1..], sells, ids[1..]);
      assert buys[1..][n..] == buys[n + 1..];
      n := n + 1;
    } else {
      n, m := DrawSuffix(buys, sells[1..], ids[1..]);
      assert sells[1..][m..] == sells[m + 1..];
      m := m + 1;
    }
  }

  /** The releases on the tape take the queues of a from front to back, and leave those of b. */
  ghost predicate InTurn(a: Book, es: seq<OutputEvent>, b: Book) {
    Draw(a.buyStops, a.sellStops, Called(es)) == Some((b.buyStops, b.sellStops))
  }

  lemma TurnConcat(a: Book, es: seq<OutputEvent>, b: Book, fs: seq<OutputEvent>, c: Book)
    requires InTurn(a, es, b) && InTurn(b, fs, c)
    ensures InTurn(a, es + fs, c)
  {
    hide Draw, Called;
    CalledConcat(es, fs);
    DrawConcat(a.buyStops, a.sellStops, Called(es), Called(fs));
  }

  lemma TurnNone(a: Book, b: Book)
    requires a.buyStops == b.buyStops && a.sellStops == b.sellStops
    ensures InTurn(a, [], b)
  {
  }

  lemma TurnSuffix(a: Book, es: seq<OutputEvent>, b: Book, s: Side) returns (n: nat)
    requires InTurn(a, es, b)
    ensures n <= |Stops(a, s)| && Stops(b, s) == Stops(a, s)[n..]
  {
    hide Draw, Called;
    var i, j := DrawSuffix(a.buyStops, a.sellStops, Called(es));
    n := if s.Buy? then i else j;
  }

  /**
    Whatever a cascade sets off and however it nests, the stops leave their queues from the front, one by one, in the
    order the tape accepts them.
   */
  lemma {:induction false} CascadeInTurn(b: Book, last: Price, sq: nat, ts: nat)
    requires Inv(b)
    ensures InTurn(b, Trigger(b, last, sq, ts).events, Trigger(b, last, sq, ts).book)
    decreases Pending(b), 1, 0, 0
  {
    hide Inv, FireAll, InTurn;
    var k := FrontOf(b, Buy, last);
    FireInTurn(b, Buy, Stops(b, Buy), 0, k, 0, sq, ts);
    var buys := FireAll(b, Buy, Triggered(b, Buy, last), sq, ts);
    FireKeeps(b, Buy, Triggered(b, Buy, last), sq, ts);
    var l := FrontOf(buys.book, Sell, last);
    FireInTurn(buys.book, Sell, Stops(buys.book, Sell), 0, l, 0, sq, ts);
    var sells := FireAll(buys.book, Sell, Triggered(buys.book, Sell, last), sq, ts);
    TurnConcat(b, buys.events, buys.book, sells.events, sells.book);
  }

  lemma FrontOf(b: Book, s: Side, last: Price) returns (k: nat)
    requires Inv(b)
    ensures k <= |Stops(b, s)| && Triggered(b, s, last) == Names(Stops(b, s))[0..k]
    ensures Distinct(Stops(b, s)) && Stops(b, s)[0..] == Stops(b, s)
  {
    k := Pos(Stops(b, s), Rank(s.Opposite(), last));
    StopsSides(b, s);
  }

  lemma {:induction false} SubmitInTurn(b: Book, no: NewOrder, sq: nat, ts: nat)
    requires Inv(b) && Admitted(b, no) && !IsStop(no.kind)
    ensures var out := SubmitNew(b, no, sq, ts);
      out.events != [] && out.events[0] == Accepted(no.id, sq) && InTurn(b, out.events[1..], out.book)
    decreases Pending(b), 2, 0, 0
  {
    hide Inv, SubmitNew, Place, Trigger, InTurn;
    SubmitSplit(b, no, sq, ts);
    PlaceKeepsInv(b, no, sq, ts);
    PlaceOpens(b, no, sq, ts);
    var p := Place(b, no, sq, ts);
    if p.settled && p.book.lastTrade.Some? {
      var o := Trigger(p.book, p.book.lastTrade.value, sq, ts);
      SamePending(b, PlaceStops(b, no, sq, ts));
      CascadeInTurn(p.book, p.book.lastTrade.value, sq, ts);
      assert (p.events + o.events)[1..] == p.events[1..] + o.events;
      TurnConcat(b, p.events[1..], p.book, o.events, o.book);
    }
  }

  lemma PlaceOpens(b: Book, no: NewOrder, sq: nat, ts: nat)
    requires no.qty > 0
    ensures var p := Place(b, no, sq, ts);
      p.events != [] && p.events[0] == Accepted(no.id, sq) && InTurn(b, p.events[1..], p.book)
  {
    hide Place, Match, Draw;
    var p := Place(b, no, sq, ts);
    var book := PlaceStops(b, no, sq, ts);
    if no.kind.Fok? && Available(b, no.side, no.price) < no.qty {
      PlaceRefused(b, no, sq, ts);
      CalledNone(p.events[1..]);
    } else {
      var closing := PlaceSplit(b, no, sq, ts);
      var taker := OrderOf(no, sq, ts);
      var r := Match(taker, Resting(b, no.side.Opposite()), b.lastTrade, sq, ts);
      MatchEvents(taker, Resting(b, no.side.Opposite()), b.lastTrade, sq, ts);
      assert p.events[1..] == r.events + closing;
      CalledNone(p.events[1..]);
    }
    TurnNone(b, book);
    CalledNone([]);
  }

  /** The stops q[j..k] are still to be fired, and those of q before n are gone. */
  lemma {:induction false} FireInTurn(b: Book, s: Side, q: seq<Order>, j: nat, k: nat, n: nat, sq: nat, ts: nat)
    requires Inv(b) && Distinct(q) && j <= k <= |q| && j <= n <= |q| && Stops(b, s) == q[n..]
    ensures var out := FireAll(b, s, Names(q)[j..k], sq, ts); InTurn(b, out.events, out.book)
    decreases Pending(b), 0, k - j, 0
  {
    hide Inv, SubmitNew, InTurn, Released, Lookup, Unwaited, FireAll, Distinct, HasStop, HasId, Has, Without, Names;
    var ids := Names(q)[j..k];
    if j == k {
      FireNone(b, s, sq, ts);
      TurnNone(b, b);
    } else {
      NamesFrom(q, j, k);
      FrontHas(q, j, n);
      FireStep(b, s, ids, sq, ts);
      if n > j {
        FireInTurn(b, s, q, j + 1, k, n, sq, ts);
      } else {
        LookupNamed(Stops(b, s), ids[0]);
        var b1, no := Unwaited(b, s, ids[0]), Released(Lookup(Stops(b, s), ids[0]).value);
        ReleaseFacts(b, s, ids[0]);
        SubmitInTurn(b1, no, sq, ts);
        SubmitKeeps(b1, no, sq, ts);
        PendingShrinks(b1, no, sq, ts);
        var o := SubmitNew(b1, no, sq, ts);
        FrontTaken(b, s, q, j);
        TurnHead(b, s, b1, o.events, o.book);
        var m := TurnSuffix(b1, o.events[1..], o.book, s);
        assert q[j + 1..][m..] == q[j + 1 + m..];
        FireInTurn(o.book, s, q, j + 1, k, j + 1 + m, sq, ts);
        var rest := FireAll(o.book, s, ids[1..], sq, ts);
        TurnConcat(b, o.events, o.book, rest.events, rest.book);
      }
    }
  }

  lemma NamesFrom(q: seq<Order>, j: nat, k: nat)
    requires j < k <= |q|
    ensures var ids := Names(q)[j..k]; ids != [] && ids[0] == q[j].id && ids[1..] == Names(q)[j + 1..k]
  {
  }

  lemma FrontHas(q: seq<Order>, j: nat, n: nat)
    requires Distinct(q) && j < |q| && j <= n <= |q|
    ensures Has(q[n..], q[j].id) <==> n == j
    ensures n == j ==> Without(q[n..], q[j].id) == q[j + 1..]
  {
    var rest := q[n..];
    forall i | 0 <= i < |rest| ensures rest[i].id == q[j].id <==> n + i == j {
      assert rest[i] == q[n + i];
    }
    if n == j {
      assert rest[..0] + rest[1..] == q[j + 1..];
    }
  }

  lemma FrontTaken(b: Book, s: Side, q: seq<Order>, j: nat)
    requires Distinct(q) && j < |q| && Stops(b, s) == q[j..]
    ensures Stops(Unwaited(b, s, q[j].id), s) == q[j + 1..]
    ensures Stops(b, s) != [] && Stops(b, s)[0] == q[j] && Unwaited(b, s, q[j].id) == WithStops(b, s, Stops(b, s)[1..])
  {
    hide Without;
    FrontHas(q, j, j);
    assert q[j..][1..] == q[j + 1..];
  }

  /** Accepting the first stop of a queue takes it off that queue. */
  lemma TurnHead(b: Book, s: Side, b1: Book, es: seq<OutputEvent>, c: Book)
    requires Inv(b) && Stops(b, s) != [] && b1 == WithStops(b, s, Stops(b, s)[1..])
    requires es != [] && es[0].Accepted? && es[0].id == Stops(b, s)[0].id && InTurn(b1, es[1..], c)
    ensures InTurn(b, es, c)
  {
    var id := es[0].id;
    assert Called(es) == [id] + Called(es[1..]);
    assert ([id] + Called(es[1..]))[1..] == Called(es[1..]);
    if s.Sell? && b.buyStops != [] {
      OtherFront(b, id);
    }
  }

  lemma OtherFront(b: Book, id: OrderId)
    requires Inv(b) && b.sellStops != [] && b.sellStops[0].id == id && b.buyStops != []
    ensures b.buyStops[0].id != id
  {
    hide Has, WF;
    NotAbsent(b.sellStops, 0);
    NotAbsent(b.buyStops, 0);
    StopsApartIds(b);
  }

  lemma StopsApartIds(b: Book)
    requires Inv(b)
    ensures NoShared(b.buyStops, b.sellStops)
  {
  }

  // ---------------------------------------------------------------- none is passed over

  /** A stop that the price of a check has reached does not wait any longer. */
  lemma ReachedGoes(b: Book, last: Price, s: Side, i: nat, sq: nat, ts: nat)
    requires Inv(b) && i < |Stops(b, s)| && Reaches(last, s, Stops(b, s)[i].stopPrice)
    ensures !HasStop(Trigger(b, last, sq, ts).book, Stops(b, s)[i].id)
  {
    hide Inv, FireAll, Triggered, Reaches, HasStop, InTurn, Has;
    var id := Stops(b, s)[i].id;
    var buys := FireAll(b, Buy, Triggered(b, Buy, last), sq, ts);
    var sells := Triggered(buys.book, Sell, last);
    TriggeredExactly(b, s, last);
    FireKeeps(b, Buy, Triggered(b, Buy, last), sq, ts);
    FireEvents(buys.book, Sell, sells, sq, ts);
    OneQueue(b, s, i);
    if s.Buy? {
      FireGone(b, Buy, Triggered(b, Buy, last), id, sq, ts);
    } else {
      var k := FrontOf(b, Buy, last);
      FireInTurn(b, Buy, Stops(b, Buy), 0, k, 0, sq, ts);
      var n := TurnSuffix(b, buys.events, buys.book, Buy);
      var m := TurnSuffix(b, buys.events, buys.book, Sell);
      SuffixHas(b.buyStops, n, id);
      TriggeredExactly(buys.book, Sell, last);
      if i < m {
        SuffixLacks(b.sellStops, m, i);
        NowhereWaiting(buys.book, id);
      } else {
        assert buys.book.sellStops[i - m] == b.sellStops[i];
        assert sells[i - m] == id;
        FireGone(buys.book, Sell, sells, id, sq, ts);
      }
    }
  }

  lemma NowhereWaiting(b: Book, id: OrderId)
    requires !Has(b.buyStops, id) && !Has(b.sellStops, id)
    ensures !HasStop(b, id)
  {
  }

  /** A stop on the list is pending no more once the list is through. */
  lemma {:induction false} FireGone(b: Book, s: Side, ids: seq<OrderId>, id: OrderId, sq: nat, ts: nat)
    requires Inv(b) && id in ids && !Has(Stops(b, s.Opposite()), id)
    ensures !HasStop(FireAll(b, s, ids, sq, ts).book, id)
    decreases |ids|
  {
    hide Inv, SubmitNew, Released, Lookup, Unwaited, FireAll, HasStop, Has;
    FireStep(b, s, ids, sq, ts);
    if !Has(Stops(b, s), ids[0]) {
      FireEvents(b, s, ids[1..], sq, ts);
      if id == ids[0] {
        EitherWaiting(b, s, id);
      } else {
        FireGone(b, s, ids[1..], id, sq, ts);
      }
    } else {
      LookupNamed(Stops(b, s), ids[0]);
      var b1, no := Unwaited(b, s, ids[0]), Released(Lookup(Stops(b, s), ids[0]).value);
      ReleaseFacts(b, s, ids[0]);
      SubmitEvents(b1, no, sq, ts);
      SubmitKeeps(b1, no, sq, ts);
      var o := SubmitNew(b1, no, sq, ts);
      FireEvents(o.book, s, ids[1..], sq, ts);
      if id != ids[0] {
        SubmitInTurn(b1, no, sq, ts);
        var n := TurnSuffix(b1, o.events[1..], o.book, s.Opposite());
        SameOther(b, s, ids[0]);
        SuffixHas(Stops(b1, s.Opposite()), n, id);
        FireGone(o.book, s, ids[1..], id, sq, ts);
      }
    }
  }

  lemma EitherWaiting(b: Book, s: Side, id: OrderId)
    requires !Has(Stops(b, s), id) && !Has(Stops(b, s.Opposite()), id)
    ensures !HasStop(b, id)
  {
    hide Has;
  }

  lemma SameOther(b: Book, s: Side, id: OrderId)
    ensures Stops(Unwaited(b, s, id), s.Opposite()) == Stops(b, s.Opposite())
  {
    hide Without;
  }

  lemma SuffixHas(os: seq<Order>, m: nat, x: OrderId)
    requires m <= |os|
    ensures Has(os[m..], x) ==> Has(os, x)
  {
    if Has(os[m..], x) {
      var i := IndexOf(os[m..], x);
      NotAbsent(os, m + i);
    }
  }

  lemma OneQueue(b: Book, s: Side, i: nat)
    requires Inv(b) && i < |Stops(b, s)|
    ensures !Has(Stops(b, s.Opposite()), Stops(b, s)[i].id) && Distinct(Stops(b, s))
  {
    NotAbsent(Stops(b, s), i);
    assert NoShared(b.buyStops, b.sellStops);
  }

  lemma {:induction false} NotAbsent(os: seq<Order>, i: nat)
    requires i < |os|
    ensures Has(os, os[i].id)
  {
    if !Has(os, os[i].id) { NotHas(os, os[i].id, i); }
  }

  lemma SuffixLacks(os: seq<Order>, m: nat, i: nat)
    requires Distinct(os) && i < m <= |os|
    ensures !Has(os[m..], os[i].id)
  {
    assert forall j :: 0 <= j < |os[m..]| ==> os[m..][j] == os[m + j];
  }
}
