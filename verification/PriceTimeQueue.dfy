/**
 The flat machine: one side of a book as a single queue in price-time order, and matching as "take the
 head while quantity remains and the head crosses".
 */
module PriceTimeQueue {
  import opened Wrappers
  import opened Types

  /** A resting order and its instance number: the position of its acceptance among all acceptances. */
  datatype Resting = Resting(id: nat, order: Order)

  predicate Better(side: Side, p: U64, q: U64)
  {
    if side == Buy then p > q else p < q
  }

  /** Price-time priority: the better price first, among equal prices the earlier acceptance. */
  predicate Precedes(side: Side, a: Resting, b: Resting)
  {
    || Better(side, a.order.price, b.order.price)
    || (a.order.price == b.order.price && a.id < b.id)
  }

  predicate Sorted(side: Side, q: seq<Resting>)
  {
    forall i, j {:trigger Precedes(side, q[i], q[j])} :: 0 <= i < j < |q| ==> Precedes(side, q[i], q[j])
  }

  predicate Apart(a: Resting, b: Resting)
  {
    a.id != b.id
  }

  /** No two orders of the queue are the same instance. */
  predicate Distinct(q: seq<Resting>)
  {
    forall i, j {:trigger Apart(q[i], q[j])} :: 0 <= i < j < |q| ==> Apart(q[i], q[j])
  }

  lemma DistinctAt(q: seq<Resting>, i: nat, j: nat)
    requires Distinct(q) && i < |q| && j < |q| && i != j
    ensures q[i].id != q[j].id
  {
    assert if i < j then Apart(q[i], q[j]) else Apart(q[j], q[i]);
  }

  predicate Crosses(taker: Order, levelPrice: U64)
  {
    taker.price == 0 || (if taker.side == Buy then taker.price >= levelPrice else taker.price <= levelPrice)
  }

  /** What a limit means: price 0 is no limit, a buy pays no more than its price, a sell gets no less. */
  predicate WithinLimit(taker: Order, price: U64)
  {
    taker.price != 0 ==> match taker.side case Buy => price <= taker.price case Sell => taker.price <= price
  }

  function Hit(x: Resting, qty: U64): Resting
    requires qty <= x.order.leavesQty
  {
    x.(order := x.order.(leavesQty := x.order.leavesQty - qty))
  }

  function Take(taker: Order, qty: U64): Order
    requires qty <= taker.leavesQty
  {
    taker.(leavesQty := taker.leavesQty - qty)
  }

  /** One trade: the maker as it stood before it, and the quantity filled. */
  datatype Fill = Fill(maker: Resting, qty: U64)

  datatype Matched = Matched(fills: seq<Fill>, queue: seq<Resting>, taker: Order)

  /** The queue after its head was hit for qty: the head leaves when nothing remains of it. */
  function HitHead(q: seq<Resting>, qty: U64): seq<Resting>
    requires q != [] && qty <= q[0].order.leavesQty
  {
    if qty == q[0].order.leavesQty then q[1..] else [Hit(q[0], qty)] + q[1..]
  }

  function Match(q: seq<Resting>, taker: Order): (m: Matched)
    ensures m.taker == taker.(leavesQty := m.taker.leavesQty) && m.taker.leavesQty <= taker.leavesQty
    decreases |q|, taker.leavesQty
  {
    if q == [] || taker.leavesQty == 0 || !Crosses(taker, q[0].order.price) then
      Matched([], q, taker)
    else
      var qty := Min(taker.leavesQty, q[0].order.leavesQty);
      var m := Match(HitHead(q, qty), Take(taker, qty));
      m.(fills := [Fill(q[0], qty)] + m.fills)
  }

  function FilledQty(fills: seq<Fill>): nat
  {
    if fills == [] then 0 else fills[0].qty + FilledQty(fills[1..])
  }

  predicate Live(q: seq<Resting>)
  {
    forall i :: 0 <= i < |q| ==> q[i].order.leavesQty > 0
  }

  /** Was this maker filled to the end, so that its node is released? */
  predicate Released(f: Fill)
  {
    f.qty == f.maker.order.leavesQty
  }

  /**
   What a match is, said without recursion: a prefix of the queue trades in order, each maker in full except
   possibly the last, and each at a price within the taker's limit; what is left is the rest of the queue; and it
   stopped because the taker is spent, the queue is empty, or the price of its new head is outside the limit.
   */
  ghost predicate IsMatch(q: seq<Resting>, taker: Order, m: Matched)
  {
    var k := |m.fills|;
    && k <= |q|
    && (forall i :: 0 <= i < k ==> m.fills[i].maker == q[i] && 0 < m.fills[i].qty <= q[i].order.leavesQty)
    && (forall i :: 0 <= i < k ==> WithinLimit(taker, q[i].order.price))
    && (forall i :: 0 <= i < k - 1 ==> Released(m.fills[i]))
    && FilledQty(m.fills) <= taker.leavesQty
    && m.taker == Take(taker, FilledQty(m.fills))
    && (if k == 0 || Released(m.fills[k - 1]) then m.queue == q[k..]
        else m.queue == [Hit(q[k - 1], m.fills[k - 1].qty)] + q[k..] && m.taker.leavesQty == 0)
    && (m.taker.leavesQty == 0 || m.queue == []
        || !WithinLimit(taker, m.queue[0].order.price))
  }

  /** A maker filled in full, followed by a match of the rest, is a match of the whole. */
  lemma MatchAfterFull(q: seq<Resting>, taker: Order, m: Matched)
    requires q != [] && 0 < q[0].order.leavesQty <= taker.leavesQty && Crosses(taker, q[0].order.price)
    requires IsMatch(q[1..], Take(taker, q[0].order.leavesQty), m)
    ensures IsMatch(q, taker, m.(fills := [Fill(q[0], q[0].order.leavesQty)] + m.fills))
  {
    var qty, rest := q[0].order.leavesQty, q[1..];
    var taker' := Take(taker, qty);
    var fills := [Fill(q[0], qty)] + m.fills;
    assert fills[1..] == m.fills;
    forall i | 1 <= i < |fills|
      ensures fills[i] == m.fills[i - 1] && q[i] == rest[i - 1]
      ensures WithinLimit(taker, q[i].order.price)
      ensures fills[i].maker == q[i] && 0 < fills[i].qty <= q[i].order.leavesQty
    {
      assert WithinLimit(taker', rest[i - 1].order.price);
    }
    assert q[|fills|..] == rest[|m.fills|..];
  }

  lemma {:induction false} MatchIsMatch(q: seq<Resting>, taker: Order)
    requires Live(q)
    ensures IsMatch(q, taker, Match(q, taker))
    decreases |q|
  {
    if q == [] || taker.leavesQty == 0 || !Crosses(taker, q[0].order.price) {
    } else if q[0].order.leavesQty <= taker.leavesQty {
      MatchIsMatch(q[1..], Take(taker, q[0].order.leavesQty));
      MatchAfterFull(q, taker, Match(q[1..], Take(taker, q[0].order.leavesQty)));
    } else {
      var f := Fill(q[0], taker.leavesQty);
      var m := Match(HitHead(q, f.qty), Take(taker, f.qty));
      assert m.fills == [] && FilledQty([f]) == f.qty;
      assert [f] + m.fills == [f];
    }
  }

  /** The converse of MatchAfterFull. */
  lemma MatchTail(q: seq<Resting>, taker: Order, m: Matched)
    requires IsMatch(q, taker, m) && m.fills != [] && Released(m.fills[0])
    ensures m.fills[0].qty <= taker.leavesQty
    ensures IsMatch(q[1..], Take(taker, m.fills[0].qty), m.(fills := m.fills[1..]))
  {
    var taker' := Take(taker, m.fills[0].qty);
    var fills, rest := m.fills[1..], q[1..];
    forall i | 0 <= i < |fills|
      ensures fills[i].maker == rest[i] && 0 < fills[i].qty <= rest[i].order.leavesQty
      ensures WithinLimit(taker', rest[i].order.price)
    {
      assert fills[i] == m.fills[i + 1] && rest[i] == q[i + 1];
      assert WithinLimit(taker, q[i + 1].order.price);
    }
    assert rest[|fills|..] == q[|m.fills|..];
  }

  /** IsMatch leaves no freedom: it determines the match. */
  lemma {:induction false} IsMatchUnique(q: seq<Resting>, taker: Order, m: Matched)
    requires Live(q) && IsMatch(q, taker, m)
    ensures m == Match(q, taker)
    decreases |q|
  {
    if m.fills == [] {
      assert m.queue == q;
    } else {
      var f := m.fills[0];
      assert f.qty <= taker.leavesQty && f.maker == q[0];
      assert [f] + m.fills[1..] == m.fills;
      if Released(f) {
        MatchTail(q, taker, m);
        IsMatchUnique(q[1..], Take(taker, f.qty), m.(fills := m.fills[1..]));
      } else {
        assert |m.fills| == 1 && m.fills[1..] == [] && FilledQty(m.fills[1..]) == 0;
        assert m.taker.leavesQty == 0 && FilledQty(m.fills) == f.qty == taker.leavesQty;
        assert HitHead(q, f.qty) == m.queue;
        assert Match(m.queue, m.taker) == Matched([], m.queue, m.taker);
      }
    }
  }

  // ---------- placing and removing ----------

  /** Append behind every order whose price is at least as good. */
  function Insert(side: Side, q: seq<Resting>, x: Resting): seq<Resting>
  {
    if q == [] || Better(side, x.order.price, q[0].order.price) then [x] + q
    else [q[0]] + Insert(side, q[1..], x)
  }

  function RemoveAt<T>(q: seq<T>, i: nat): seq<T>
    requires i < |q|
  {
    q[..i] + q[i + 1..]
  }

  /** Taking an element out of the middle of three pieces. */
  lemma RemoveMiddle<T>(a: seq<T>, b: seq<T>, c: seq<T>, k: nat)
    requires k < |b|
    ensures RemoveAt(a + b + c, |a| + k) == a + RemoveAt(b, k) + c
  {
    var all := a + b + c;
    assert all[..|a| + k] == a + b[..k];
    assert all[|a| + k + 1..] == b[k + 1..] + c;
  }

  /** Insert puts x at one position, which a split of the queue by price identifies. */
  lemma {:induction false} InsertAt(side: Side, q: seq<Resting>, x: Resting, i: nat)
    requires i <= |q|
    requires forall j :: 0 <= j < i ==> !Better(side, x.order.price, q[j].order.price)
    requires i < |q| ==> Better(side, x.order.price, q[i].order.price)
    ensures Insert(side, q, x) == q[..i] + [x] + q[i..]
  {
    if i > 0 {
      var rest := q[1..];
      InsertAt(side, rest, x, i - 1);
      assert q[..i] == [q[0]] + rest[..i - 1];
      assert q[i..] == rest[i - 1..];
      assert [q[0]] + (rest[..i - 1] + [x] + rest[i - 1..]) == ([q[0]] + rest[..i - 1]) + [x] + rest[i - 1..];
    }
  }

  lemma {:induction false} InsertSplits(side: Side, q: seq<Resting>, x: Resting) returns (i: nat)
    ensures i <= |q|
    ensures forall j :: 0 <= j < i ==> !Better(side, x.order.price, q[j].order.price)
    ensures i < |q| ==> Better(side, x.order.price, q[i].order.price)
    ensures Insert(side, q, x) == q[..i] + [x] + q[i..]
  {
    i := 0;
    while i < |q| && !Better(side, x.order.price, q[i].order.price)
      invariant i <= |q|
      invariant forall j :: 0 <= j < i ==> !Better(side, x.order.price, q[j].order.price)
    {
      i := i + 1;
    }
    InsertAt(side, q, x, i);
  }

  /** A later acceptance placed in a sorted queue leaves it sorted. */
  lemma InsertSorted(side: Side, q: seq<Resting>, x: Resting)
    requires Sorted(side, q)
    requires forall i :: 0 <= i < |q| ==> q[i].id < x.id
    ensures Sorted(side, Insert(side, q, x))
  {
    var i := InsertSplits(side, q, x);
    var r := Insert(side, q, x);
    forall a, b | 0 <= a < b < |r|
      ensures Precedes(side, r[a], r[b])
    {
      if a == i {
        assert r[b] == q[b - 1];
        assert b - 1 > i ==> Precedes(side, q[i], q[b - 1]);
      } else if b == i {
      } else {
        assert Precedes(side, q[if a < i then a else a - 1], q[if b < i then b else b - 1]);
      }
    }
  }

  /** What a match leaves is a suffix of the queue, except that its head may have been hit. */
  lemma MatchSuffix(q: seq<Resting>, taker: Order, m: Matched, i: nat)
    requires Live(q) && IsMatch(q, taker, m) && i < |m.queue|
    ensures var j := |q| - |m.queue| + i;
            && |m.queue| <= |q|
            && (|m.fills| <= j ==> m.queue[i] == q[j])
            && (j < |m.fills| ==> j == |m.fills| - 1 && m.queue[i] == Hit(q[j], m.fills[j].qty))
            && 0 < m.queue[i].order.leavesQty
  {
  }

  // ---------- best level ----------

  /** Total leaves resting at one price. */
  function LevelQty(q: seq<Resting>, price: U64): nat
  {
    if q == [] then 0
    else (if q[0].order.price == price then q[0].order.leavesQty else 0) + LevelQty(q[1..], price)
  }

  lemma {:induction false} LevelQtyAll(q: seq<Resting>, p: U64)
    requires forall j :: 0 <= j < |q| ==> q[j].order.price == p
    ensures LevelQty(q, p) == LeavesOf(q)
    decreases |q|
  {
    if q != [] {
      LevelQtyAll(q[1..], p);
    }
  }

  lemma {:induction false} LevelQtyNone(q: seq<Resting>, p: U64)
    requires forall j :: 0 <= j < |q| ==> q[j].order.price != p
    ensures LevelQty(q, p) == 0
    decreases |q|
  {
    if q != [] {
      LevelQtyNone(q[1..], p);
    }
  }

  datatype Snapshot = Snapshot(price: U64, quantity: U64)

  function BestPrice(q: seq<Resting>): Option<U64>
  {
    if q == [] then None else Some(q[0].order.price)
  }

  /** The top level as the book reports it: its running total is kept in 64 bits. */
  function BestLevel(q: seq<Resting>): Option<Snapshot>
  {
    if q == [] then None else Some(Snapshot(q[0].order.price, Wrap(LevelQty(q, q[0].order.price))))
  }

  lemma LevelQtyAppend(a: seq<Resting>, b: seq<Resting>, price: U64)
    ensures LevelQty(a + b, price) == LevelQty(a, price) + LevelQty(b, price)
  {
    if a == [] {
      assert a + b == b;
    } else {
      assert (a + b)[1..] == a[1..] + b;
      LevelQtyAppend(a[1..], b, price);
    }
  }

  function LeavesOf(q: seq<Resting>): nat
  {
    if q == [] then 0 else q[0].order.leavesQty + LeavesOf(q[1..])
  }

  lemma {:induction false} LeavesAppend(a: seq<Resting>, b: seq<Resting>)
    ensures LeavesOf(a + b) == LeavesOf(a) + LeavesOf(b)
    decreases |a|
  {
    if a == [] {
      assert a + b == b;
    } else {
      assert (a + b)[1..] == a[1..] + b;
      LeavesAppend(a[1..], b);
    }
  }

  lemma RemoveLeaves(q: seq<Resting>, i: nat)
    requires i < |q|
    ensures LeavesOf(RemoveAt(q, i)) + q[i].order.leavesQty == LeavesOf(q)
  {
    assert q == q[..i] + q[i..];
    LeavesAppend(q[..i], q[i..]);
    LeavesAppend(q[..i], q[i + 1..]);
    assert q[i..][1..] == q[i + 1..];
  }

}
