/**
  Laws between commands, on linked books: two books that stand for the same reference book are taken along different
  ways to the same end.
 */
module Twins {
  import opened Types
  import opened Spec
  import opened Invariants
  import opened Priority
  import opened Scope
  import opened BookState
  import Cascade
  import Matcher
  import Commands

  /** Replacing a resting order on one book, cancelling it and submitting it anew on the other. */
  method ReplaceTwoWays(b: OrderBook, c: OrderBook, id: OrderId, newPrice: Price, newQty: Qty, sq: nat, ts: nat)
      returns (replaced: seq<OutputEvent>, cancelled: seq<OutputEvent>, submitted: seq<OutputEvent>)
    requires b != c && b.Valid() && c.Valid() && b.View() == c.View() && Inv(b.View())
    requires newQty > 0 && Fetch(b.View(), id).Some?
    requires InScope(b.View(), Sequenced(sq, ts, Replace(id, newPrice, newQty, b.symbol)))
    modifies b, c
    ensures b.Valid() && c.Valid() && b.View() == c.View()
    ensures replaced == [Replaced(id, sq)] + submitted && Trades(replaced) == Trades(submitted)
    ensures cancelled == [Cancelled(id, sq)]
  {
    hide ThreadsOf, IndexOk, Covered, StaleFree, AllPending, Inv, Fits, Calm, Remove, SubmitNew, Fetch, HasStop, HasId,
      ViewOf;
    ghost var v := b.View();
    ghost var o := Fetch(v, id).value;
    Commands.ReplaceIsCancelNew(v, id, newPrice, newQty, sq, ts);
    Commands.FetchedLimit(v, id);
    Matcher.Find(c, id);
    Cascade.FetchResting(c, id);
    var prior := c.arena.slots[c.idIndex[id].slot].order;
    assert prior == o;
    cancelled := Cascade.ApplyCommand(c, Sequenced(sq, ts, Cancel(id, prior.symbol)));
    submitted := Cascade.ApplyCommand(c, Sequenced(sq, ts, New(
      NewOrder(id, prior.symbol, prior.side, Limit, prior.tif, newPrice, 0, newQty))));
    replaced := Cascade.ApplyCommand(b, Sequenced(sq, ts, Replace(id, newPrice, newQty, b.symbol)));
  }
}
