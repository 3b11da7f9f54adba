/** The in-place operations on a side map, as functions on its levels: what they do to nodes, order and totals. */
module LevelOps {
  import opened Types
  import opened PriceTimeQueue
  import opened LevelStore

  /** flat_map lookup: the number of levels strictly better than a price. */
  function LowerBound<N>(side: Side, levels: seq<Level<N>>, price: U64): (i: nat)
    ensures i <= |levels|
    ensures forall j :: 0 <= j < i ==> Better(side, levels[j].price, price)
    ensures i < |levels| ==> !Better(side, levels[i].price, price)
  {
    if levels == [] || !Better(side, levels[0].price, price) then 0
    else 1 + LowerBound(side, levels[1..], price)
  }

  predicate HasLevel<N>(side: Side, levels: seq<Level<N>>, price: U64)
  {
    var i := LowerBound(side, levels, price);
    i < |levels| && levels[i].price == price
  }

  /** The level of a linked node is the one that lookup by its price finds. */
  lemma LowerBoundAt<N>(heap: map<N, Resting>, side: Side, levels: seq<Level<N>>, i: nat)
    requires LevelsSorted(heap, side, levels) && i < |levels|
    ensures LowerBound(side, levels, levels[i].price) == i
  {
    var j := LowerBound(side, levels, levels[i].price);
  }

  // ---------- operations ----------

  /** Take the k-th order out of level i; the running total loses its leaves modulo 2^64. */
  function TakeFrom<N>(levels: seq<Level<N>>, i: nat, k: nat, leaves: U64): seq<Level<N>>
    requires i < |levels| && k < |levels[i].orders|
  {
    levels[i := Level(levels[i].price, RemoveAt(levels[i].orders, k), Wrap(levels[i].total - leaves))]
  }

  function ReduceTotal<N>(levels: seq<Level<N>>, i: nat, qty: U64): seq<Level<N>>
    requires i < |levels|
  {
    levels[i := levels[i].(total := Wrap(levels[i].total - qty))]
  }

  function PopAt<N>(levels: seq<Level<N>>, i: nat): seq<Level<N>>
    requires i < |levels| && levels[i].orders != []
  {
    levels[i := levels[i].(orders := levels[i].orders[1..])]
  }

  /** side_map[price]: find the level, or create it empty. */
  function WithLevel<N>(side: Side, levels: seq<Level<N>>, price: U64): seq<Level<N>>
  {
    var i := LowerBound(side, levels, price);
    if HasLevel(side, levels, price) then levels else levels[..i] + [Level(price, [], 0)] + levels[i..]
  }

  function AddTo<N>(levels: seq<Level<N>>, i: nat, n: N, leaves: U64): seq<Level<N>>
    requires i < |levels|
  {
    levels[i := Level(levels[i].price, levels[i].orders + [n], Wrap(levels[i].total + leaves))]
  }

  function PlaceIn<N>(side: Side, levels: seq<Level<N>>, price: U64, n: N, leaves: U64): seq<Level<N>>
  {
    AddTo(WithLevel(side, levels, price), LowerBound(side, levels, price), n, leaves)
  }

  // ---------- nodes ----------

  lemma TakeFromNodes<N>(levels: seq<Level<N>>, i: nat, k: nat, leaves: U64)
    requires i < |levels| && k < |levels[i].orders|
    ensures PositionOf(levels, i, k) < |Nodes(levels)|
    ensures Nodes(TakeFrom(levels, i, k, leaves)) == RemoveAt(Nodes(levels), PositionOf(levels, i, k))
  {
    hide Nodes, RemoveAt;
    var levels' := TakeFrom(levels, i, k, leaves);
    NodesSplit(levels, i);
    NodesSplit(levels', i);
    assert levels'[..i] == levels[..i] && levels'[i + 1..] == levels[i + 1..];
    RemoveMiddle(Nodes(levels[..i]), levels[i].orders, Nodes(levels[i + 1..]), k);
  }

  lemma ReduceTotalNodes<N>(levels: seq<Level<N>>, i: nat, qty: U64)
    requires i < |levels|
    ensures Nodes(ReduceTotal(levels, i, qty)) == Nodes(levels)
  {
    var levels' := ReduceTotal(levels, i, qty);
    NodesSplit(levels, i);
    NodesSplit(levels', i);
    assert levels'[..i] == levels[..i] && levels'[i + 1..] == levels[i + 1..];
  }

  lemma DropNodes<N>(levels: seq<Level<N>>, i: nat)
    requires i < |levels| && levels[i].orders == []
    ensures Nodes(RemoveAt(levels, i)) == Nodes(levels)
  {
    hide Nodes;
    NodesSplit(levels, i);
    NodesAppend(levels[..i], levels[i + 1..]);
    assert Nodes(levels[..i]) + [] == Nodes(levels[..i]);
  }

  lemma WithLevelNodes<N>(side: Side, levels: seq<Level<N>>, price: U64)
    ensures Nodes(WithLevel(side, levels, price)) == Nodes(levels)
  {
    if !HasLevel(side, levels, price) {
      var i := LowerBound(side, levels, price);
      var levels' := WithLevel(side, levels, price);
      DropNodes(levels', i);
      assert RemoveAt(levels', i) == levels;
    }
  }

  lemma AddToNodes<N>(levels: seq<Level<N>>, i: nat, n: N, leaves: U64)
    requires i < |levels|
    ensures var m := PositionOf(levels, i, |levels[i].orders|);
            && m <= |Nodes(levels)|
            && Nodes(AddTo(levels, i, n, leaves)) == Nodes(levels)[..m] + [n] + Nodes(levels)[m..]
  {
    var levels' := AddTo(levels, i, n, leaves);
    NodesSplit(levels, i);
    NodesSplit(levels', i);
    assert levels'[..i] == levels[..i] && levels'[i + 1..] == levels[i + 1..];
  }

  // ---------- sortedness ----------

  /** Sortedness speaks of prices, level by level, and of the orders in each. */
  lemma SortedBy<N>(heap: map<N, Resting>, heap': map<N, Resting>, side: Side, levels: seq<Level<N>>,
      levels': seq<Level<N>>)
    requires LevelsSorted(heap, side, levels) && |levels'| == |levels|
    requires forall i :: 0 <= i < |levels| ==> levels'[i].price == levels[i].price
    requires forall i, k :: 0 <= i < |levels| && 0 <= k < |levels'[i].orders| ==>
               levels'[i].orders[k] in heap' && heap'[levels'[i].orders[k]].order.price == levels[i].price
    ensures LevelsSorted(heap', side, levels')
  {
    forall i, j | 0 <= i < j < |levels'|
      ensures Better(side, levels'[i].price, levels'[j].price)
    {
      assert Better(side, levels[i].price, levels[j].price);
    }
  }

  lemma TakeFromSorted<N>(heap: map<N, Resting>, loc: Loc, levels: seq<Level<N>>, i: nat, k: nat, leaves: U64)
    requires LevelsSorted(heap, loc.side, levels) && SideLinked(heap, loc, levels)
    requires i < |levels| && k < |levels[i].orders|
    ensures LevelsSorted(heap - {levels[i].orders[k]}, loc.side, TakeFrom(levels, i, k, leaves))
  {
    var levels', n := TakeFrom(levels, i, k, leaves), levels[i].orders[k];
    TakeFromNodes(levels, i, k, leaves);
    NoDuplicatesRemove(Nodes(levels), PositionOf(levels, i, k));
    NodeAt(levels, i, k);
    forall a, b | 0 <= a < |levels'| && 0 <= b < |levels'[a].orders|
      ensures levels'[a].orders[b] in heap - {n}
      ensures heap[levels'[a].orders[b]].order.price == levels[a].price
    {
      NodeAt(levels', a, b);
      assert levels'[a].orders[b] in Nodes(levels');
      assert levels'[a].orders[b] == levels[a].orders[if a == i && b >= k then b + 1 else b];
    }
    SortedBy(heap, heap - {n}, loc.side, levels, levels');
  }

  lemma ReduceTotalSorted<N>(heap: map<N, Resting>, side: Side, levels: seq<Level<N>>, i: nat, qty: U64, n: N,
      x: Resting)
    requires LevelsSorted(heap, side, levels) && i < |levels|
    requires n in heap && x.order.price == heap[n].order.price
    ensures LevelsSorted(heap[n := x], side, ReduceTotal(levels, i, qty))
  {
    SortedBy(heap, heap[n := x], side, levels, ReduceTotal(levels, i, qty));
  }

  lemma DropSorted<N>(heap: map<N, Resting>, side: Side, levels: seq<Level<N>>, i: nat)
    requires LevelsSorted(heap, side, levels) && i < |levels|
    ensures LevelsSorted(heap, side, RemoveAt(levels, i))
  {
    var levels' := RemoveAt(levels, i);
    forall a, b | 0 <= a < b < |levels'|
      ensures Better(side, levels'[a].price, levels'[b].price)
    {
      assert Better(side, levels[if a < i then a else a + 1].price, levels[if b < i then b else b + 1].price);
    }
    forall a, b | 0 <= a < |levels'| && 0 <= b < |levels'[a].orders|
      ensures levels'[a].orders[b] in heap && heap[levels'[a].orders[b]].order.price == levels'[a].price
    {
      assert levels'[a] == levels[if a < i then a else a + 1];
    }
  }

  lemma SuffixLevelsSorted<N>(heap: map<N, Resting>, side: Side, levels: seq<Level<N>>, i: nat)
    requires LevelsSorted(heap, side, levels) && i <= |levels|
    ensures LevelsSorted(heap, side, levels[i..])
  {
    forall a, b | 0 <= a < b < |levels[i..]|
      ensures Better(side, levels[i..][a].price, levels[i..][b].price)
    {
      assert Better(side, levels[i + a].price, levels[i + b].price);
    }
  }

  lemma WithLevelSorted<N>(heap: map<N, Resting>, side: Side, levels: seq<Level<N>>, price: U64)
    requires LevelsSorted(heap, side, levels)
    ensures LevelsSorted(heap, side, WithLevel(side, levels, price))
    ensures var i := LowerBound(side, levels, price);
            i < |WithLevel(side, levels, price)| && WithLevel(side, levels, price)[i].price == price
  {
    var i := LowerBound(side, levels, price);
    var levels' := WithLevel(side, levels, price);
    if !HasLevel(side, levels, price) {
      forall a, b | 0 <= a < b < |levels'|
        ensures Better(side, levels'[a].price, levels'[b].price)
      {
        if a != i && b != i {
          assert Better(side, levels[if a < i then a else a - 1].price, levels[if b < i then b else b - 1].price);
        } else if a == i && b > i + 1 {
          assert Better(side, levels[i].price, levels[b - 1].price);
        }
      }
      forall a, b | 0 <= a < |levels'| && 0 <= b < |levels'[a].orders|
        ensures levels'[a].orders[b] in heap && heap[levels'[a].orders[b]].order.price == levels'[a].price
      {
        assert levels'[a] == levels[if a < i then a else a - 1];
      }
    }
  }

  lemma AddToSorted<N>(heap: map<N, Resting>, side: Side, levels: seq<Level<N>>, i: nat, n: N, x: Resting, leaves: U64)
    requires LevelsSorted(heap, side, levels) && i < |levels|
    requires n !in heap && x.order.price == levels[i].price
    ensures LevelsSorted(heap[n := x], side, AddTo(levels, i, n, leaves))
  {
    SortedBy(heap, heap[n := x], side, levels, AddTo(levels, i, n, leaves));
  }

  // ---------- running totals ----------

  lemma QueueSame<N>(heap: map<N, Resting>, heap': map<N, Resting>, ns: seq<N>)
    requires forall i :: 0 <= i < |ns| ==> Deref(heap', ns[i]) == Deref(heap, ns[i])
    ensures QueueOf(heap', ns) == QueueOf(heap, ns)
  {
  }

  predicate TotalRight<N(==)>(heap: map<N, Resting>, level: Level<N>)
  {
    level.total == Wrap(LeavesOf(QueueOf(heap, level.orders)))
  }

  /** Each running total is congruent to the sum of the level's leaves modulo 2^64. */
  ghost predicate TotalsRight<N>(heap: map<N, Resting>, levels: seq<Level<N>>)
  {
    forall i {:trigger TotalRight(heap, levels[i])} :: 0 <= i < |levels| ==> TotalRight(heap, levels[i])
  }

  lemma WrapSub(a: int, b: int)
    ensures Wrap(Wrap(a) - b) == Wrap(a - b)
  {
    WrapAdd(a, -b);
  }

  lemma TakeFromTotal<N>(heap: map<N, Resting>, heap': map<N, Resting>, level: Level<N>, k: nat)
    requires TotalRight(heap, level) && k < |level.orders|
    requires forall j :: 0 <= j < |level.orders| && j != k ==>
               Deref(heap', level.orders[j]) == Deref(heap, level.orders[j])
    ensures TotalRight(heap', Level(level.price, RemoveAt(level.orders, k),
                                    Wrap(level.total - Deref(heap, level.orders[k]).order.leavesQty)))
  {
    var q, q' := QueueOf(heap, level.orders), QueueOf(heap', RemoveAt(level.orders, k));
    assert q' == RemoveAt(q, k);
    RemoveLeaves(q, k);
    WrapSub(LeavesOf(q), q[k].order.leavesQty);
  }

  lemma AddToTotal<N>(heap: map<N, Resting>, heap': map<N, Resting>, level: Level<N>, n: N)
    requires TotalRight(heap, level)
    requires forall j :: 0 <= j < |level.orders| ==> Deref(heap', level.orders[j]) == Deref(heap, level.orders[j])
    ensures TotalRight(heap', Level(level.price, level.orders + [n],
                                    Wrap(level.total + Deref(heap', n).order.leavesQty)))
  {
    var q, q' := QueueOf(heap, level.orders), QueueOf(heap', level.orders + [n]);
    assert q' == q + [Deref(heap', n)];
    LeavesAppend(q, [Deref(heap', n)]);
    assert LeavesOf([Deref(heap', n)]) == Deref(heap', n).order.leavesQty;
    WrapAdd(LeavesOf(q), Deref(heap', n).order.leavesQty);
  }

  lemma HitTotal<N>(heap: map<N, Resting>, level: Level<N>, qty: U64)
    requires TotalRight(heap, level) && level.orders != [] && level.orders[0] in heap
    requires qty <= heap[level.orders[0]].order.leavesQty
    requires forall j :: 0 < j < |level.orders| ==> level.orders[j] != level.orders[0]
    ensures var n := level.orders[0];
            TotalRight(heap[n := Hit(heap[n], qty)], level.(total := Wrap(level.total - qty)))
  {
    var n := level.orders[0];
    var heap' := heap[n := Hit(heap[n], qty)];
    var q, q' := QueueOf(heap, level.orders), QueueOf(heap', level.orders);
    assert q' == [Hit(q[0], qty)] + q[1..];
    assert q'[1..] == q[1..];
    WrapSub(LeavesOf(q), qty);
  }

  lemma QueueOfAppend<N>(heap: map<N, Resting>, a: seq<N>, b: seq<N>)
    ensures QueueOf(heap, a + b) == QueueOf(heap, a) + QueueOf(heap, b)
  {
  }

  lemma OtherLevels<N>(heap: map<N, Resting>, side: Side, levels: seq<Level<N>>, i: nat, l: nat, k: nat)
    requires LevelsSorted(heap, side, levels) && i < |levels| && l < |levels| && k < |levels[l].orders| && l != i
    ensures Deref(heap, levels[l].orders[k]).order.price != levels[i].price
  {
    assert if l < i then Better(side, levels[l].price, levels[i].price)
        else Better(side, levels[i].price, levels[l].price);
  }

  lemma NoneBefore<N>(heap: map<N, Resting>, side: Side, levels: seq<Level<N>>, i: nat)
    requires LevelsSorted(heap, side, levels) && i < |levels|
    ensures LevelQty(QueueOf(heap, Nodes(levels[..i])), levels[i].price) == 0
  {
    var q := QueueOf(heap, Nodes(levels[..i]));
    forall j | 0 <= j < |q|
      ensures q[j].order.price != levels[i].price
    {
      var l, k := LevelOf(levels[..i], j);
      OtherLevels(heap, side, levels, i, l, k);
    }
    LevelQtyNone(q, levels[i].price);
  }

  lemma NoneAfter<N>(heap: map<N, Resting>, side: Side, levels: seq<Level<N>>, i: nat)
    requires LevelsSorted(heap, side, levels) && i < |levels|
    ensures LevelQty(QueueOf(heap, Nodes(levels[i + 1..])), levels[i].price) == 0
  {
    var q := QueueOf(heap, Nodes(levels[i + 1..]));
    forall j | 0 <= j < |q|
      ensures q[j].order.price != levels[i].price
    {
      var l, k := LevelOf(levels[i + 1..], j);
      OtherLevels(heap, side, levels, i, i + 1 + l, k);
    }
    LevelQtyNone(q, levels[i].price);
  }

  lemma OwnLevel<N>(heap: map<N, Resting>, side: Side, levels: seq<Level<N>>, i: nat)
    requires LevelsSorted(heap, side, levels) && i < |levels|
    ensures LevelQty(QueueOf(heap, levels[i].orders), levels[i].price) == LeavesOf(QueueOf(heap, levels[i].orders))
  {
    LevelQtyAll(QueueOf(heap, levels[i].orders), levels[i].price);
  }

  lemma QueueSplit<N>(heap: map<N, Resting>, levels: seq<Level<N>>, i: nat, price: U64)
    requires i < |levels|
    ensures LevelQty(QueueOf(heap, Nodes(levels)), price)
         == LevelQty(QueueOf(heap, Nodes(levels[..i])), price)
            + LevelQty(QueueOf(heap, levels[i].orders), price)
            + LevelQty(QueueOf(heap, Nodes(levels[i + 1..])), price)
  {
    NodesSplit(levels, i);
    var a, b, c := Nodes(levels[..i]), levels[i].orders, Nodes(levels[i + 1..]);
    QueueOfAppend(heap, a + b, c);
    QueueOfAppend(heap, a, b);
    LevelQtyAppend(QueueOf(heap, a + b), QueueOf(heap, c), price);
    LevelQtyAppend(QueueOf(heap, a), QueueOf(heap, b), price);
  }

  /** The reported total of a level is the flat queue's quantity at that price, modulo 2^64. */
  lemma TotalIsLevelQty<N>(heap: map<N, Resting>, side: Side, levels: seq<Level<N>>, i: nat)
    requires LevelsSorted(heap, side, levels) && i < |levels| && TotalRight(heap, levels[i])
    ensures levels[i].total == Wrap(LevelQty(QueueOf(heap, Nodes(levels)), levels[i].price))
  {
    hide LevelQty, QueueOf, Nodes, LevelsSorted, Wrap, LeavesOf;
    QueueSplit(heap, levels, i, levels[i].price);
    NoneBefore(heap, side, levels, i);
    NoneAfter(heap, side, levels, i);
    OwnLevel(heap, side, levels, i);
  }

  // ---------- placing ----------

  /** Appending to a price level is inserting behind every order whose price is at least as good. */
  lemma PlaceIsInsert<N>(heap: map<N, Resting>, side: Side, levels: seq<Level<N>>, i: nat, x: Resting)
    requires LevelsSorted(heap, side, levels) && i < |levels| && levels[i].price == x.order.price
    ensures var m, q := PositionOf(levels, i, |levels[i].orders|), QueueOf(heap, Nodes(levels));
            m <= |q| && Insert(side, q, x) == q[..m] + [x] + q[m..]
  {
    var m, q := PositionOf(levels, i, |levels[i].orders|), QueueOf(heap, Nodes(levels));
    NodesSplit(levels, i);
    forall j | 0 <= j < m
      ensures !Better(side, x.order.price, q[j].order.price)
    {
      var l, k := LevelOf(levels, j);
      LevelOrder(levels, i, l);
      assert l < i ==> Better(side, levels[l].price, levels[i].price);
    }
    if m < |q| {
      var l, k := LevelOf(levels, m);
      LevelOrder(levels, l, i);
      assert i < l ==> Better(side, levels[i].price, levels[l].price);
    }
    InsertAt(side, q, x, m);
  }

  /** A level's orders stand before those of any later level. */
  lemma LevelOrder<N>(levels: seq<Level<N>>, i: nat, l: nat)
    requires i < |levels| && l < |levels|
    ensures i < l ==> PositionOf(levels, i, |levels[i].orders|) <= |Nodes(levels[..l])|
  {
    if i < l {
      NodesSplit(levels[..l], i);
      assert levels[..l][..i] == levels[..i];
    }
  }

}
