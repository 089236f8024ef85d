/**
  Sequences of orders in price-time order: the best price comes first, and orders of one
  price stand in order of arrival. Both sides are treated at once through the rank of an order,
  the key of the source's ordered maps: the price on the sell side and the reversed price on
  the buy side.
 */
module PriceTime {
  import opened Types

  function Rank(side: Side, price: Price): int {
    if side.Buy? then -price else price
  }

  function PriceAt(side: Side, rank: int): Price {
    if side.Buy? then -rank else rank
  }

  /** Pending stops rank by stop price: the first buy to trigger is the lowest, the first sell the highest. */
  function RankOf(o: Order): int {
    if IsStop(o.kind) then Rank(o.side.Opposite(), o.stopPrice) else Rank(o.side, o.price)
  }

  ghost predicate Sorted(os: seq<Order>) {
    forall i, j :: 0 <= i < j < |os| ==> RankOf(os[i]) <= RankOf(os[j])
  }

  ghost predicate Distinct(os: seq<Order>) {
    forall i, j :: 0 <= i < j < |os| ==> os[i].id != os[j].id
  }

  /** Number of leading orders whose rank is at most k. */
  function Pos(os: seq<Order>, k: int): (p: nat)
    ensures p <= |os|
    ensures forall i :: 0 <= i < p ==> RankOf(os[i]) <= k
    ensures p < |os| ==> k < RankOf(os[p])
  {
    if os == [] || k < RankOf(os[0]) then 0 else 1 + Pos(os[1..], k)
  }

  lemma PosIs(os: seq<Order>, k: int, n: nat)
    requires n <= |os| && (forall i :: 0 <= i < n ==> RankOf(os[i]) <= k) && (n < |os| ==> k < RankOf(os[n]))
    ensures Pos(os, k) == n
  {
    hide Pos;
  }

  /** A new order goes behind every order of the same or a better rank. */
  function Insert(os: seq<Order>, o: Order): seq<Order> {
    var p := Pos(os, RankOf(o));
    os[..p] + [o] + os[p..]
  }

  /** Index of the order called id, or |os|. */
  function IndexOf(os: seq<Order>, id: OrderId): (i: nat)
    ensures i <= |os|
    ensures i < |os| ==> os[i].id == id
    ensures forall j :: 0 <= j < i ==> os[j].id != id
  {
    if os == [] || os[0].id == id then 0 else 1 + IndexOf(os[1..], id)
  }

  predicate Has(os: seq<Order>, id: OrderId) {
    IndexOf(os, id) < |os|
  }

  function Lookup(os: seq<Order>, id: OrderId): Option<Order> {
    var i := IndexOf(os, id);
    if i < |os| then Some(os[i]) else None
  }

  function Without(os: seq<Order>, id: OrderId): seq<Order> {
    var i := IndexOf(os, id);
    if i < |os| then os[..i] + os[i + 1..] else os
  }

  function Names(os: seq<Order>): (ids: seq<OrderId>)
    ensures |ids| == |os|
  {
    seq(|os|, i requires 0 <= i < |os| => os[i].id)
  }

  /** Open quantity of a sequence of orders. */
  function Sum(os: seq<Order>): nat {
    if os == [] then 0 else os[0].remaining + Sum(os[1..])
  }

  /** Open quantity at ranks up to and including k. */
  function SumWithin(os: seq<Order>, k: int): nat {
    if os == [] then 0
    else (if RankOf(os[0]) <= k then os[0].remaining else 0) + SumWithin(os[1..], k)
  }

  /** Open quantity at exactly rank k. */
  function SumAt(os: seq<Order>, k: int): nat {
    if os == [] then 0
    else (if RankOf(os[0]) == k then os[0].remaining else 0) + SumAt(os[1..], k)
  }

  // ---------------------------------------------------------------- insertion and removal

  lemma InsertSorted(os: seq<Order>, o: Order)
    requires Sorted(os)
    ensures Sorted(Insert(os, o))
  {
    var p := Pos(os, RankOf(o));
    var r := Insert(os, o);
    forall i, j | 0 <= i < j < |r|
      ensures RankOf(r[i]) <= RankOf(r[j])
    {
      if i < p {
        assert r[i] == os[i];
      } else if i > p {
        assert r[i] == os[i - 1];
      }
      if j < p {
        assert r[j] == os[j];
      } else if j > p {
        assert r[j] == os[j - 1] && RankOf(o) < RankOf(os[p]) <= RankOf(os[j - 1]);
      }
    }
  }

  lemma InsertLookup(os: seq<Order>, o: Order, id: OrderId)
    requires !Has(os, o.id)
    ensures Lookup(Insert(os, o), id) == if id == o.id then Some(o) else Lookup(os, id)
  {
    PutLookup(os, Pos(os, RankOf(o)), o, id);
  }

  lemma PutLookup(os: seq<Order>, p: nat, o: Order, id: OrderId)
    requires p <= |os| && !Has(os, o.id)
    ensures Lookup(os[..p] + [o] + os[p..], id) == if id == o.id then Some(o) else Lookup(os, id)
  {
    var front, back := os[..p], os[p..];
    assert os == front + back;
    LookupConcat(front, back, id);
    LookupConcat(front, back, o.id);
    LookupConcat(front + [o], back, id);
    LookupConcat(front, [o], id);
  }

  lemma {:induction false} LookupConcat(os: seq<Order>, ps: seq<Order>, id: OrderId)
    ensures Lookup(os + ps, id) == if Has(os, id) then Lookup(os, id) else Lookup(ps, id)
  {
    if os == [] {
      assert os + ps == ps;
    } else {
      assert (os + ps)[1..] == os[1..] + ps;
      LookupConcat(os[1..], ps, id);
    }
  }

  lemma LookupMember(os: seq<Order>, i: nat)
    requires i < |os| && Distinct(os)
    ensures Lookup(os, os[i].id) == Some(os[i])
  {
    assert IndexOf(os, os[i].id) >= i;
  }

  lemma DropOrdered(os: seq<Order>, i: nat)
    requires i < |os|
    ensures Distinct(os) ==> Distinct(os[..i] + os[i + 1..])
    ensures Sorted(os) ==> Sorted(os[..i] + os[i + 1..])
  {
    var r := os[..i] + os[i + 1..];
    forall a, b | 0 <= a < b < |r|
      ensures Distinct(os) ==> r[a].id != r[b].id
      ensures Sorted(os) ==> RankOf(r[a]) <= RankOf(r[b])
    {
      var a', b' := if a < i then a else a + 1, if b < i then b else b + 1;
      assert r[a] == os[a'] && r[b] == os[b'];
    }
  }

  lemma DropAbsent(os: seq<Order>, i: nat)
    requires i < |os| && Distinct(os)
    ensures !Has(os[..i] + os[i + 1..], os[i].id)
  {
    var rest := os[..i] + os[i + 1..];
    forall j | 0 <= j < |rest|
      ensures rest[j].id != os[i].id
    {
      assert rest[j] == os[if j < i then j else j + 1];
    }
  }

  lemma WithoutLookup(os: seq<Order>, id: OrderId, x: OrderId)
    requires Distinct(os)
    ensures Lookup(Without(os, id), x) == if x == id then None else Lookup(os, x)
  {
    var i := IndexOf(os, id);
    if i < |os| {
      DropAbsent(os, i);
      DropPut(os, i);
      PutLookup(os[..i] + os[i + 1..], i, os[i], x);
    }
  }

  lemma DropPut(os: seq<Order>, i: nat)
    requires i < |os|
    ensures var rest := os[..i] + os[i + 1..]; rest[..i] + [os[i]] + rest[i..] == os
  {
    var rest := os[..i] + os[i + 1..];
    assert rest[..i] == os[..i] && rest[i..] == os[i + 1..];
  }

  lemma {:induction false} SumConcat(os: seq<Order>, ps: seq<Order>, k: int)
    ensures Sum(os + ps) == Sum(os) + Sum(ps)
    ensures SumWithin(os + ps, k) == SumWithin(os, k) + SumWithin(ps, k)
    ensures SumAt(os + ps, k) == SumAt(os, k) + SumAt(ps, k)
  {
    if os == [] {
      assert os + ps == ps;
    } else {
      assert (os + ps)[1..] == os[1..] + ps;
      SumConcat(os[1..], ps, k);
    }
  }

  /** Taking the order at i away takes its quantity away at its rank and nowhere else. */
  lemma SumDrop(os: seq<Order>, i: nat, k: int)
    requires i < |os|
    ensures SumAt(os, k) == SumAt(os[..i] + os[i + 1..], k) + (if RankOf(os[i]) == k then os[i].remaining else 0)
    ensures Sum(os) == Sum(os[..i] + os[i + 1..]) + os[i].remaining
  {
    SumConcat(os[..i], os[i + 1..], k);
    SumConcat(os[..i], [os[i]] + os[i + 1..], k);
    assert os == os[..i] + ([os[i]] + os[i + 1..]);
    assert ([os[i]] + os[i + 1..])[1..] == os[i + 1..];
  }

  lemma SumPut(os: seq<Order>, p: nat, o: Order, k: int)
    requires p <= |os|
    ensures SumAt(os[..p] + [o] + os[p..], k) == SumAt(os, k) + (if RankOf(o) == k then o.remaining else 0)
    ensures Sum(os[..p] + [o] + os[p..]) == Sum(os) + o.remaining
  {
    var r := os[..p] + [o] + os[p..];
    assert r[..p] + r[p + 1..] == os;
    SumDrop(r, p, k);
  }

  lemma {:induction false} SumAtMember(os: seq<Order>, i: nat)
    requires i < |os|
    ensures SumAt(os, RankOf(os[i])) >= os[i].remaining
  {
    if i > 0 {
      SumAtMember(os[1..], i - 1);
    }
  }

  lemma {:induction false} SumAtAbsent(os: seq<Order>, k: int)
    requires forall i :: 0 <= i < |os| ==> RankOf(os[i]) != k
    ensures SumAt(os, k) == 0
  {
    if os != [] {
      SumAtAbsent(os[1..], k);
    }
  }

  lemma {:induction false} SumWithinAll(os: seq<Order>, k: int)
    ensures SumWithin(os, k) <= Sum(os)
    ensures (forall i :: 0 <= i < |os| ==> RankOf(os[i]) <= k) ==> SumWithin(os, k) == Sum(os)
    ensures (forall i :: 0 <= i < |os| ==> k < RankOf(os[i])) ==> SumWithin(os, k) == 0
  {
    if os != [] {
      SumWithinAll(os[1..], k);
    }
  }
}
