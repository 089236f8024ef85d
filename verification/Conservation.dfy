/**
  The ledgers of all ids added up: over a whole run, the quantity ever accepted is twice the traded volume plus what
  rests or waits in the book plus what was dropped by cancel, replace, discard or fill-or-kill rejection.
 */
module Conservation {
  import opened Types
  import opened PriceTime
  import opened Spec
  import opened Invariants
  import opened Priority
  import opened Commands
  import opened Ledger

  /** Quantity of the trades in which id x took part. */
  function Named(x: OrderId, es: seq<OutputEvent>): nat {
    if es == [] then 0 else NamedIn(x, es[0]) + Named(x, es[1..])
  }

  function NamedIn(x: OrderId, e: OutputEvent): nat {
    if e.Trade? && (e.taker == x || e.maker == x) then e.qty else 0
  }

  lemma {:induction false} NamedConcat(x: OrderId, es: seq<OutputEvent>, fs: seq<OutputEvent>)
    ensures Named(x, es + fs) == Named(x, es) + Named(x, fs)
  {
    if es == [] {
      assert es + fs == fs;
    } else {
      assert (es + fs)[1..] == es[1..] + fs;
      NamedConcat(x, es[1..], fs);
    }
  }

  /** No trade has id x on both sides. */
  ghost predicate TwoSided(x: OrderId, es: seq<OutputEvent>) {
    forall i :: 0 <= i < |es| && es[i].Trade? && es[i].taker == x ==> es[i].maker != x
  }

  /** On a legal tape the ledger of x has booked exactly the trades that name x. */
  lemma {:induction false} LegalNamed(a: Account, x: OrderId, es: seq<OutputEvent>, ask: Ask)
    requires !Replay(a, x, es, ask).life.Broken?
    ensures Replay(a, x, es, ask).traded == a.traded + Named(x, es) && TwoSided(x, es)
    decreases |es|
  {
    if es != [] {
      var a1 := Advance(a, x, es[0], ask);
      if a1.life.Broken? {
        BrokenStays(a1, x, es[1..], ask);
      } else {
        LegalNamed(a1, x, es[1..], ask);
        forall i | 0 <= i < |es| && es[i].Trade? && es[i].taker == x ensures es[i].maker != x {
          if i > 0 { assert es[i] == es[1..][i - 1]; }
        }
      }
    }
  }

  /** The ledger of x over a run. */
  lemma {:induction false} RunNamed(a: Account, x: OrderId, b: Book, cs: seq<Sequenced>)
    requires Inv(b)
    requires a.life == LifeOf(b, x) && a.accepted == a.traded + a.dropped + Open(a)
    ensures ReplayRun(a, x, b, cs).traded == a.traded + Named(x, Run(b, cs).events) && TwoSided(x, Run(b, cs).events)
    decreases |cs|
  {
    hide Inv, LifeOf, Apply;
    if cs != [] {
      var o := Apply(b, cs[0]);
      var a1 := Replay(a, x, o.events, AskOf(b, cs[0].cmd));
      ApplyTape(a, x, b, cs[0]);
      AliveInBook(o.book, x);
      TapeConserves(a, x, o.events, AskOf(b, cs[0].cmd));
      LegalNamed(a, x, o.events, AskOf(b, cs[0].cmd));
      ApplyKeeps(b, cs[0]);
      RunNamed(a1, x, o.book, cs[1..]);
      NamedConcat(x, o.events, Run(o.book, cs[1..]).events);
      SidesConcat(x, o.events, Run(o.book, cs[1..]).events);
    }
  }

  lemma SidesConcat(x: OrderId, es: seq<OutputEvent>, fs: seq<OutputEvent>)
    requires TwoSided(x, es) && TwoSided(x, fs)
    ensures TwoSided(x, es + fs)
  {
  }

  // ---------------------------------------------------------------- sums over ids

  /** The accounts of the ids below n, added up. */
  datatype Totals = Totals(accepted: nat, traded: nat, dropped: nat, open: nat)

  function TotalsOf(cs: seq<Sequenced>, n: nat): Totals {
    if n == 0 then Totals(0, 0, 0, 0)
    else
      var t, a := TotalsOf(cs, n - 1), ReplayRun(FRESH, n - 1, EMPTY, cs);
      Totals(t.accepted + a.accepted, t.traded + a.traded, t.dropped + a.dropped, t.open + Open(a))
  }

  /** Quantity of the trades, counted once for each side with an id below n. */
  function SidesBelow(es: seq<OutputEvent>, n: nat): nat {
    if es == [] then 0
    else if !es[0].Trade? then SidesBelow(es[1..], n)
    else
      (if es[0].taker < n then es[0].qty else 0) + (if es[0].maker < n then es[0].qty else 0) + SidesBelow(es[1..], n)
  }

  lemma {:induction false} SidesStep(es: seq<OutputEvent>, n: nat)
    requires TwoSided(n, es)
    ensures SidesBelow(es, n + 1) == SidesBelow(es, n) + Named(n, es)
  {
    if es != [] {
      assert TwoSided(n, es[1..]) by {
        assert forall i :: 0 <= i < |es[1..]| ==> es[1..][i] == es[i + 1];
      }
      SidesStep(es[1..], n);
    }
  }

  lemma {:induction false} SidesAll(es: seq<OutputEvent>, n: nat)
    requires forall i :: 0 <= i < |es| && es[i].Trade? ==> es[i].taker < n && es[i].maker < n
    ensures SidesBelow(es, n) == 2 * Volume(es)
  {
    if es != [] {
      assert forall i :: 0 <= i < |es[1..]| ==> es[1..][i] == es[i + 1];
      SidesAll(es[1..], n);
    }
  }

  lemma {:induction false} SidesNone(es: seq<OutputEvent>)
    ensures SidesBelow(es, 0) == 0
  {
    if es != [] { SidesNone(es[1..]); }
  }

  /** Open quantity of the orders with an id below n. */
  function SumBelow(os: seq<Order>, n: nat): nat {
    if os == [] then 0 else (if os[0].id < n then os[0].remaining else 0) + SumBelow(os[1..], n)
  }

  function OpenIn(os: seq<Order>, x: OrderId): nat {
    match Lookup(os, x)
    case None => 0
    case Some(o) => o.remaining
  }

  lemma {:induction false} SumBelowStep(os: seq<Order>, n: nat)
    requires Distinct(os)
    ensures SumBelow(os, n + 1) == SumBelow(os, n) + OpenIn(os, n)
  {
    if os != [] {
      assert Distinct(os[1..]);
      SumBelowStep(os[1..], n);
      if os[0].id == n {
        assert forall i :: 0 <= i < |os[1..]| ==> os[1..][i].id != n;
      }
    }
  }

  lemma {:induction false} SumBelowAll(os: seq<Order>, n: nat)
    requires forall i :: 0 <= i < |os| ==> os[i].id < n
    ensures SumBelow(os, n) == Sum(os)
  {
    if os != [] { SumBelowAll(os[1..], n); }
  }

  lemma {:induction false} SumBelowNone(os: seq<Order>)
    ensures SumBelow(os, 0) == 0
  {
    if os != [] { SumBelowNone(os[1..]); }
  }

  function OpenBelow(b: Book, n: nat): nat {
    SumBelow(b.bids, n) + SumBelow(b.asks, n) + SumBelow(b.buyStops, n) + SumBelow(b.sellStops, n)
  }

  lemma OpenBelowStep(b: Book, n: nat)
    requires Inv(b)
    ensures OpenBelow(b, n + 1) == OpenBelow(b, n) + Open(FRESH.(life := LifeOf(b, n)))
  {
    hide SumBelow, Sorted, Distinct, IndexOf;
    SumBelowStep(b.bids, n);
    SumBelowStep(b.asks, n);
    SumBelowStep(b.buyStops, n);
    SumBelowStep(b.sellStops, n);
  }

  lemma FreshAccount(x: OrderId)
    ensures LifeOf(EMPTY, x) == Absent && Inv(EMPTY)
  {
  }

  /** The accounts below n balance, and hold exactly the trades and the open orders of ids below n. */
  lemma {:induction false} TotalsBalance(cs: seq<Sequenced>, n: nat)
    ensures var t, o := TotalsOf(cs, n), Run(EMPTY, cs);
      && t.accepted == t.traded + t.dropped + t.open
      && t.traded == SidesBelow(o.events, n) && t.open == OpenBelow(o.book, n)
  {
    hide Inv, LifeOf, Run, ReplayRun, SidesBelow, SumBelow;
    var o := Run(EMPTY, cs);
    if n == 0 {
      SidesNone(o.events);
      SumBelowNone(o.book.bids);
      SumBelowNone(o.book.asks);
      SumBelowNone(o.book.buyStops);
      SumBelowNone(o.book.sellStops);
    } else {
      TotalsBalance(cs, n - 1);
      FreshAccount(n - 1);
      RunTape(FRESH, n - 1, EMPTY, cs);
      RunNamed(FRESH, n - 1, EMPTY, cs);
      RunKeeps(EMPTY, cs);
      SidesStep(o.events, n - 1);
      OpenBelowStep(o.book, n - 1);
    }
  }

  /** No id on the tape or in the book reaches n. */
  ghost predicate Bounded(o: Outcome, n: nat) {
    && (forall i :: 0 <= i < |o.events| && o.events[i].Trade? ==> o.events[i].taker < n && o.events[i].maker < n)
    && (forall x: OrderId :: HasId(o.book, x) ==> x < n)
  }

  /**
    Whole-run conservation: everything accepted was traded, each trade counting for both of its sides, is still open
    in the book, or was dropped.
   */
  lemma RunConserves(cs: seq<Sequenced>, n: nat)
    requires Bounded(Run(EMPTY, cs), n)
    ensures var t, o := TotalsOf(cs, n), Run(EMPTY, cs);
      t.accepted == 2 * Volume(o.events) + OpenQty(o.book) + t.dropped
  {
    hide Run, TotalsOf, SidesBelow, SumBelow, Has, Sum;
    var o := Run(EMPTY, cs);
    TotalsBalance(cs, n);
    SidesAll(o.events, n);
    assert forall x: OrderId ::
      Has(o.book.bids, x) || Has(o.book.asks, x) || Has(o.book.buyStops, x) || Has(o.book.sellStops, x)
      ==> HasId(o.book, x);
    AllBelow(o.book.bids, n);
    AllBelow(o.book.asks, n);
    AllBelow(o.book.buyStops, n);
    AllBelow(o.book.sellStops, n);
  }

  lemma AllBelow(os: seq<Order>, n: nat)
    requires forall x: OrderId :: Has(os, x) ==> x < n
    ensures SumBelow(os, n) == Sum(os)
  {
    forall i | 0 <= i < |os| ensures os[i].id < n {
      assert Has(os, os[i].id);
    }
    SumBelowAll(os, n);
  }
}
