/**
  Where the code does what its design promises. Cancelling or replacing a pending stop breaks the book, a stop-limit
  order that is released may be taken for a stop again (module StopLimit says when), and the 64-bit total of a level
  must not overflow.
 */
module Scope {
  import opened Types
  import opened PriceTime
  import opened Spec
  import opened Invariants

  /** The source's capacity condition on a level: its total stays within 64 bits. */
  ghost predicate Fits(v: Book, no: NewOrder) {
    no.kind.Limit? ==> SumAt(Resting(v, no.side), Rank(no.side, no.price)) + no.qty <= U64_MAX
  }

  /** Submitting no releases no stop-limit order. */
  ghost predicate Calm(v: Book, no: NewOrder, sq: nat, ts: nat)
    decreases Pending(v), 2, 0
  {
    Admitted(v, no) && !IsStop(no.kind) ==>
      var p := Place(v, no, sq, ts);
      p.settled && p.book.lastTrade.Some? ==> TriggerCalm(p.book, p.book.lastTrade.value, sq, ts)
  }

  ghost predicate TriggerCalm(v: Book, last: Price, sq: nat, ts: nat)
    decreases Pending(v), 1, 0
  {
    && FireCalm(v, Buy, Triggered(v, Buy, last), sq, ts)
    && var buys := FireAll(v, Buy, Triggered(v, Buy, last), sq, ts);
       FireCalm(buys.book, Sell, Triggered(buys.book, Sell, last), sq, ts)
  }

  ghost predicate FireCalm(v: Book, s: Side, ids: seq<OrderId>, sq: nat, ts: nat)
    decreases Pending(v), 0, |ids|
  {
    if ids == [] then true
    else if !Has(Stops(v, s), ids[0]) then FireCalm(v, s, ids[1..], sq, ts)
    else
      var stop := Lookup(Stops(v, s), ids[0]).value;
      var v1 := WithStops(v, s, Without(Stops(v, s), ids[0]));
      && stop.kind.StopMarket? && Calm(v1, Released(stop), sq, ts)
      && FireCalm(SubmitNew(v1, Released(stop), sq, ts).book, s, ids[1..], sq, ts)
  }

  /** The commands the code carries out: no stop-limit order is released, and no level total leaves 64 bits. */
  ghost predicate Runnable(v: Book, c: Sequenced) {
    match c.cmd
    case New(no) => Admitted(v, no) ==> Fits(v, no) && Calm(v, no, c.seqNo, c.ts)
    case Cancel(_, _) => true
    case Replace(id, newPrice, newQty, _) =>
      newQty > 0 && !HasStop(v, id) && Fetch(v, id).Some? ==>
        var no := Renewed(Fetch(v, id).value, id, newPrice, newQty);
        Fits(Remove(v, id), no) && Calm(Remove(v, id), no, c.seqNo, c.ts)
  }

  /** A cancel or a replace that takes hold of a pending stop. */
  predicate TouchesStop(v: Book, cmd: Command) {
    match cmd
    case New(_) => false
    case Cancel(id, _) => HasStop(v, id)
    case Replace(id, _, newQty, _) => newQty > 0 && HasStop(v, id)
  }

  /** The commands the code carries out as its design promises. */
  ghost predicate InScope(v: Book, c: Sequenced) {
    Runnable(v, c) && !TouchesStop(v, c.cmd)
  }

  ghost predicate RunInScope(v: Book, cs: seq<Sequenced>)
    decreases |cs|
  {
    cs != [] ==> InScope(v, cs[0]) && RunInScope(Spec.Apply(v, cs[0]).book, cs[1..])
  }

  /** A run in scope is in scope at each of its commands. */
  lemma {:induction false} ScopeAt(v: Book, cs: seq<Sequenced>, c: Sequenced, ds: seq<Sequenced>)
    requires RunInScope(v, cs + [c] + ds)
    ensures InScope(Run(v, cs).book, c)
    decreases |cs|
  {
    hide InScope, Spec.Apply;
    var all := cs + [c] + ds;
    if cs == [] {
      assert all[0] == c;
    } else {
      assert all[0] == cs[0] && all[1..] == cs[1..] + [c] + ds;
      ScopeAt(Spec.Apply(v, cs[0]).book, cs[1..], c, ds);
    }
  }

  /** So is any front part of it. */
  lemma {:induction false} ScopePrefix(v: Book, cs: seq<Sequenced>, ds: seq<Sequenced>)
    requires RunInScope(v, cs + ds)
    ensures RunInScope(v, cs)
    decreases |cs|
  {
    hide InScope, Spec.Apply;
    if cs != [] {
      assert (cs + ds)[0] == cs[0] && (cs + ds)[1..] == cs[1..] + ds;
      ScopePrefix(Spec.Apply(v, cs[0]).book, cs[1..], ds);
    }
  }

  /** And the rest of it, from where the front part leads. */
  lemma {:induction false} ScopeSuffix(v: Book, cs: seq<Sequenced>, ds: seq<Sequenced>)
    requires RunInScope(v, cs + ds)
    ensures RunInScope(Run(v, cs).book, ds)
    decreases |cs|
  {
    hide InScope, Spec.Apply;
    if cs == [] {
      assert cs + ds == ds;
    } else {
      assert (cs + ds)[0] == cs[0] && (cs + ds)[1..] == cs[1..] + ds;
      ScopeSuffix(Spec.Apply(v, cs[0]).book, cs[1..], ds);
    }
  }
}
