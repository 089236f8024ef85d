/**
  Ordered maps: keys in ascending order, and the per-side maps from trigger rank to the slots of the
  stops waiting there, read in key order as the source's ranges are.
 */
module StopMap {
  import opened Types

  lemma {:induction false} MinExists(s: set<int>)
    requires s != {}
    ensures exists m :: m in s && forall k :: k in s ==> m <= k
    decreases |s|
  {
    if forall x :: x !in s { assert false; }
    var x :| x in s;
    var rest := s - {x};
    if rest == {} {
      assert forall k :: k in s ==> k in rest || k == x;
    } else {
      MinExists(rest);
      var m :| m in rest && forall k :: k in rest ==> m <= k;
      var least := if x <= m then x else m;
      assert least in s;
      forall k | k in s ensures least <= k { assert k == x || k in rest; }
    }
  }

  /** The first key of an ordered map. */
  function MinKey(s: set<int>): (m: int)
    requires s != {}
    ensures m in s && forall k :: k in s ==> m <= k
  {
    MinExists(s);
    var m :| m in s && forall k :: k in s ==> m <= k;
    m
  }

  /** The keys of an ordered map in iteration order. */
  function SortedKeys(s: set<int>): (ks: seq<int>)
    ensures |ks| == |s|
    ensures forall k :: k in s <==> k in ks
    ensures forall i, j :: 0 <= i < j < |ks| ==> ks[i] < ks[j]
    decreases |s|
  {
    if s == {} then []
    else
      var m := MinKey(s);
      [m] + SortedKeys(s - {m})
  }

  /** An ascending sequence of all the keys is the iteration order. */
  lemma {:induction false} SortedUnique(s: set<int>, ks: seq<int>)
    requires forall k :: k in s <==> k in ks
    requires forall i, j :: 0 <= i < j < |ks| ==> ks[i] < ks[j]
    ensures SortedKeys(s) == ks
    decreases |ks|
  {
    hide SortedKeys, MinKey;
    if ks == [] {
      assert s == {};
      assert |SortedKeys(s)| == 0;
    } else {
      assert ks[0] in ks;
      LeastFirst(s, ks);
      TailKeys(s, ks);
      SortedFirst(s);
      SortedUnique(s - {ks[0]}, ks[1..]);
    }
  }

  lemma SortedFirst(s: set<int>)
    requires s != {}
    ensures SortedKeys(s) == [MinKey(s)] + SortedKeys(s - {MinKey(s)})
  {
  }

  lemma LeastFirst(s: set<int>, ks: seq<int>)
    requires ks != [] && s != {}
    requires forall k :: k in s <==> k in ks
    requires forall i, j :: 0 <= i < j < |ks| ==> ks[i] < ks[j]
    ensures MinKey(s) == ks[0]
  {
    assert ks[0] in ks;
    var m := MinKey(s);
    assert m in ks && m <= ks[0];
    var i :| 0 <= i < |ks| && ks[i] == m;
  }

  lemma TailKeys(s: set<int>, ks: seq<int>)
    requires ks != []
    requires forall k :: k in s <==> k in ks
    requires forall i, j :: 0 <= i < j < |ks| ==> ks[i] < ks[j]
    ensures forall k :: k in s - {ks[0]} <==> k in ks[1..]
  {
    forall k ensures k in s - {ks[0]} <==> k in ks[1..] {
      assert ks == [ks[0]] + ks[1..];
      if k in ks[1..] {
        var i :| 0 <= i < |ks[1..]| && ks[1..][i] == k;
        assert ks[0] < ks[i + 1] == k;
      }
    }
  }

  // ---------------------------------------------------------------- waiting stops

  type Waiting = map<int, seq<Slot>>

  function At(m: Waiting, k: int): seq<Slot> {
    if k in m then m[k] else []
  }

  function Push(m: Waiting, k: int, slot: Slot): Waiting {
    m[k := At(m, k) + [slot]]
  }

  /** All entries in key order. */
  function Listed(ks: seq<int>, m: Waiting): seq<Slot> {
    if ks == [] then [] else At(m, ks[0]) + Listed(ks[1..], m)
  }

  function Flatten(m: Waiting): seq<Slot> {
    Listed(SortedKeys(m.Keys), m)
  }

  /** Entries at keys up to and including k. */
  function UpTo(m: Waiting, k: int): seq<Slot> {
    Listed(SortedKeys(set j | j in m && j <= k), m)
  }

  /** What is left once the keys up to k are pruned. */
  function Retain(m: Waiting, k: int): Waiting {
    map j | j in m && k < j :: m[j]
  }

  lemma {:induction false} ListedConcat(ks: seq<int>, ls: seq<int>, m: Waiting)
    ensures Listed(ks + ls, m) == Listed(ks, m) + Listed(ls, m)
  {
    if ks == [] {
      assert ks + ls == ls;
    } else {
      assert (ks + ls)[1..] == ks[1..] + ls;
      ListedConcat(ks[1..], ls, m);
    }
  }

  lemma {:induction false} ListedFrame(ks: seq<int>, m: Waiting, m': Waiting)
    requires forall k :: k in ks ==> At(m, k) == At(m', k)
    ensures Listed(ks, m) == Listed(ks, m')
  {
    if ks != [] {
      ListedFrame(ks[1..], m, m');
    }
  }

  lemma SortedSplit(s: set<int>, k: int)
    ensures SortedKeys(s) == SortedKeys(set j | j in s && j <= k) + SortedKeys(set j | j in s && k < j)
  {
    hide SortedKeys;
    var lo, hi := set j | j in s && j <= k, set j | j in s && k < j;
    var ks := SortedKeys(lo) + SortedKeys(hi);
    forall i, j | 0 <= i < j < |ks| ensures ks[i] < ks[j] {
      if i < |SortedKeys(lo)| <= j {
        assert ks[i] in lo && ks[j] in hi;
      }
    }
    SortedUnique(s, ks);
  }

  lemma FlattenSplit(m: Waiting, k: int)
    ensures Flatten(m) == UpTo(m, k) + Flatten(Retain(m, k))
  {
    var lo, hi := set j | j in m && j <= k, set j | j in m && k < j;
    SortedSplit(m.Keys, k);
    assert lo == set j | j in m.Keys && j <= k;
    assert hi == set j | j in m.Keys && k < j;
    ListedConcat(SortedKeys(lo), SortedKeys(hi), m);
    assert Retain(m, k).Keys == hi;
    ListedFrame(SortedKeys(hi), m, Retain(m, k));
  }

  /** A new entry comes after everything at its own or an earlier key. */
  lemma FlattenPush(m: Waiting, k: int, slot: Slot)
    ensures Flatten(Push(m, k, slot)) == UpTo(m, k) + [slot] + Flatten(Retain(m, k))
  {
    hide UpTo, Flatten, Push, Retain;
    FlattenSplit(Push(m, k, slot), k);
    RetainPush(m, k, slot);
    UpToPush(m, k, slot);
  }

  lemma RetainPush(m: Waiting, k: int, slot: Slot)
    ensures Retain(Push(m, k, slot), k) == Retain(m, k)
  {
  }

  lemma UpToPush(m: Waiting, k: int, slot: Slot)
    ensures UpTo(Push(m, k, slot), k) == UpTo(m, k) + [slot]
  {
    hide SortedKeys, Listed;
    var m' := Push(m, k, slot);
    var below := set j | j in m && j <= k - 1;
    UpToLast(m', k);
    UpToLast(m, k);
    assert (set j | j in m' && j <= k - 1) == below;
    ListedFrame(SortedKeys(below), m, m');
    var front, there := Listed(SortedKeys(below), m), At(m, k);
    assert At(m', k) == there + [slot];
    assert front + (there + [slot]) == (front + there) + [slot];
  }

  /** The entries up to k end with those at k. */
  lemma UpToLast(m: Waiting, k: int)
    ensures UpTo(m, k) == Listed(SortedKeys(set j | j in m && j <= k - 1), m) + At(m, k)
  {
    hide SortedKeys;
    var below, lo := set j | j in m && j <= k - 1, set j | j in m && j <= k;
    if k in m {
      assert lo == below + {k};
      SortedAppend(below, k);
      ListedConcat(SortedKeys(below), [k], m);
      assert [k][1..] == [];
      assert Listed([k], m) == At(m, k) + Listed([], m);
    } else {
      assert lo == below;
    }
  }

  lemma SortedAppend(s: set<int>, k: int)
    requires forall j :: j in s ==> j < k
    ensures SortedKeys(s + {k}) == SortedKeys(s) + [k]
  {
    hide SortedKeys;
    var ks := SortedKeys(s) + [k];
    assert forall i :: 0 <= i < |SortedKeys(s)| ==> SortedKeys(s)[i] in s;
    SortedUnique(s + {k}, ks);
  }

  lemma {:induction false} ListedMember(ks: seq<int>, m: Waiting, slot: Slot)
    ensures slot in Listed(ks, m) <==> exists k :: k in ks && slot in At(m, k)
  {
    if ks != [] {
      ListedMember(ks[1..], m, slot);
    }
  }

  lemma FlattenMember(m: Waiting, slot: Slot)
    ensures slot in Flatten(m) <==> exists k :: k in m && slot in m[k]
  {
    ListedMember(SortedKeys(m.Keys), m, slot);
    if k :| k in m && slot in m[k] {
      assert k in SortedKeys(m.Keys) && slot in At(m, k);
    }
  }

  lemma UpToMember(m: Waiting, k: int, slot: Slot)
    ensures slot in UpTo(m, k) <==> exists j :: j in m && j <= k && slot in m[j]
  {
    var lo := set j | j in m && j <= k;
    ListedMember(SortedKeys(lo), m, slot);
    if j :| j in m && j <= k && slot in m[j] {
      assert j in lo && j in SortedKeys(lo) && slot in At(m, j);
    }
  }

  // ---------------------------------------------------------------- live entries

  /** The entries that are also in q. */
  function Keep(xs: seq<Slot>, q: seq<Slot>): seq<Slot> {
    if xs == [] then [] else (if xs[0] in q then [xs[0]] else []) + Keep(xs[1..], q)
  }

  lemma {:induction false} KeepConcat(xs: seq<Slot>, ys: seq<Slot>, q: seq<Slot>)
    ensures Keep(xs + ys, q) == Keep(xs, q) + Keep(ys, q)
  {
    if xs == [] {
      assert xs + ys == ys;
    } else {
      assert (xs + ys)[1..] == xs[1..] + ys;
      KeepConcat(xs[1..], ys, q);
      var first := if xs[0] in q then [xs[0]] else [];
      assert first + (Keep(xs[1..], q) + Keep(ys, q)) == first + Keep(xs[1..], q) + Keep(ys, q);
    }
  }

  lemma {:induction false} KeepMember(xs: seq<Slot>, q: seq<Slot>, x: Slot)
    ensures x in Keep(xs, q) <==> x in xs && x in q
  {
    if xs != [] {
      KeepMember(xs[1..], q, x);
    }
  }

  lemma {:induction false} KeepAll(xs: seq<Slot>, q: seq<Slot>)
    ensures (forall x :: x in xs ==> x in q) ==> Keep(xs, q) == xs
    ensures (forall x :: x in xs ==> x !in q) ==> Keep(xs, q) == []
  {
    if xs != [] {
      KeepAll(xs[1..], q);
    }
  }

  /** Keeping less can be done in two steps. */
  lemma {:induction false} KeepTwice(xs: seq<Slot>, q: seq<Slot>, q': seq<Slot>)
    requires forall x :: x in q' ==> x in q
    ensures Keep(Keep(xs, q), q') == Keep(xs, q')
  {
    if xs != [] {
      KeepTwice(xs[1..], q, q');
      KeepConcat(if xs[0] in q then [xs[0]] else [], Keep(xs[1..], q), q');
      assert [xs[0]][1..] == [];
    }
  }

  /** Dropping one element of a sequence without repetitions. */
  lemma KeepCut(q: seq<Slot>, i: nat)
    requires i < |q| && forall a, b :: 0 <= a < b < |q| ==> q[a] != q[b]
    ensures Keep(q, q[..i] + q[i + 1..]) == q[..i] + q[i + 1..]
  {
    hide Keep;
    OnlyThere(q, i);
    Rejoin(q, i);
    KeepParts(q[..i], q[i], q[i + 1..]);
  }

  lemma Rejoin(q: seq<Slot>, i: nat)
    requires i < |q|
    ensures q[..i] + [q[i]] + q[i + 1..] == q
  {
  }

  lemma OnlyThere(q: seq<Slot>, i: nat)
    requires i < |q| && forall a, b :: 0 <= a < b < |q| ==> q[a] != q[b]
    ensures q[i] !in q[..i] && q[i] !in q[i + 1..]
  {
  }

  lemma KeepParts(front: seq<Slot>, x: Slot, back: seq<Slot>)
    requires x !in front && x !in back
    ensures Keep(front + [x] + back, front + back) == front + back
  {
    hide Keep;
    KeepConcat(front + [x], back, front + back);
    KeepConcat(front, [x], front + back);
    KeepAll(front, front + back);
    KeepAll(back, front + back);
    KeepAll([x], front + back);
    assert front + [] + back == front + back;
  }
}
