/** Each step the engine takes on its memory layout, shown to be the corresponding step of the flat engine. */
module StoreSteps {
  import opened Wrappers
  import opened Types
  import opened PriceTimeQueue
  import opened FlatEngine
  import opened FlatInvariant
  import opened LevelStore
  import opened LevelOps

  ghost predicate TotalsOk<N>(st: Store<N>)
  {
    var right :=
      forall loc {:trigger TotalsRight(st.heap, st.sides[loc])} ::
        loc in st.sides ==> TotalsRight(st.heap, st.sides[loc]);
    right
  }

  ghost predicate Tidy<N>(st: Store<N>)
  {
    var tidy :=
      forall loc {:trigger NoEmptyLevel(st.sides[loc])} :: loc in st.sides ==> NoEmptyLevel(st.sides[loc]);
    tidy
  }

  /** The flat state that a layout and the engine's counters stand for. */
  ghost function StateOf<N>(st: Store<N>, nextExec: U64, nextTrade: U64, nextId: nat): State
  {
    State(Queues(st), Entries(st), nextExec, nextTrade, nextId)
  }

  predicate EmptyBefore<N>(levels: seq<Level<N>>, i: nat)
  {
    i <= |levels| && forall j :: 0 <= j < i ==> levels[j].orders == []
  }

  /** Behind an emptied prefix, the front of the first level is the first node of the side. */
  lemma FrontNode<N>(levels: seq<Level<N>>, i: nat)
    requires i < |levels| && EmptyBefore(levels, i) && levels[i].orders != []
    ensures PositionOf(levels, i, 0) == 0
    ensures Nodes(levels) != [] && Nodes(levels)[0] == levels[i].orders[0]
  {
    NodesEmpty(levels[..i]);
    NodeAt(levels, i, 0);
  }

  // ---------- totals under a change of one node ----------

  lemma TotalsElsewhere<N>(heap: map<N, Resting>, heap': map<N, Resting>, levels: seq<Level<N>>, n: N)
    requires TotalsRight(heap, levels) && n !in Nodes(levels)
    requires forall p :: p != n ==> Deref(heap', p) == Deref(heap, p)
    ensures TotalsRight(heap', levels)
  {
    forall i | 0 <= i < |levels|
      ensures TotalRight(heap', levels[i])
    {
      assert TotalRight(heap, levels[i]);
      forall k | 0 <= k < |levels[i].orders|
        ensures levels[i].orders[k] != n
      {
        NodeAt(levels, i, k);
        assert levels[i].orders[k] in Nodes(levels);
      }
      QueueSame(heap, heap', levels[i].orders);
    }
  }

  /** In the node's own side, every other order is another node. */
  lemma OthersDiffer<N>(heap: map<N, Resting>, loc: Loc, levels: seq<Level<N>>, i: nat, k: nat, a: nat, b: nat)
    requires SideLinked(heap, loc, levels)
    requires i < |levels| && k < |levels[i].orders| && a < |levels| && b < |levels[a].orders|
    requires a != i || b != k
    ensures levels[a].orders[b] != levels[i].orders[k]
  {
    NodeAt(levels, i, k);
    NodeAt(levels, a, b);
    LevelOrder(levels, i, a);
    LevelOrder(levels, a, i);
    DifferAt(Nodes(levels), PositionOf(levels, i, k), PositionOf(levels, a, b));
  }

  lemma OtherLevelTotal<N>(heap: map<N, Resting>, heap': map<N, Resting>, loc: Loc, levels: seq<Level<N>>, i: nat,
      k: nat, a: nat)
    requires SideLinked(heap, loc, levels) && TotalsRight(heap, levels)
    requires i < |levels| && k < |levels[i].orders| && a < |levels| && a != i
    requires forall p :: p != levels[i].orders[k] ==> Deref(heap', p) == Deref(heap, p)
    ensures TotalRight(heap', levels[a])
  {
    assert TotalRight(heap, levels[a]);
    forall b | 0 <= b < |levels[a].orders|
      ensures levels[a].orders[b] != levels[i].orders[k]
    {
      OthersDiffer(heap, loc, levels, i, k, a, b);
    }
    QueueSame(heap, heap', levels[a].orders);
  }

  lemma TakeFromTotals<N>(heap: map<N, Resting>, loc: Loc, levels: seq<Level<N>>, i: nat, k: nat)
    requires SideLinked(heap, loc, levels) && TotalsRight(heap, levels)
    requires i < |levels| && k < |levels[i].orders| && levels[i].orders[k] in heap
    ensures var n := levels[i].orders[k];
            TotalsRight(heap - {n}, TakeFrom(levels, i, k, heap[n].order.leavesQty))
  {
    var n := levels[i].orders[k];
    var heap', levels' := heap - {n}, TakeFrom(levels, i, k, heap[n].order.leavesQty);
    forall a | 0 <= a < |levels'|
      ensures TotalRight(heap', levels'[a])
    {
      if a != i {
        OtherLevelTotal(heap, heap', loc, levels, i, k, a);
      } else {
        assert TotalRight(heap, levels[i]);
        forall b | 0 <= b < |levels[i].orders| && b != k
          ensures levels[i].orders[b] != n
        {
          OthersDiffer(heap, loc, levels, i, k, i, b);
        }
        TakeFromTotal(heap, heap', levels[i], k);
      }
    }
  }

  lemma ReduceTotals<N>(heap: map<N, Resting>, loc: Loc, levels: seq<Level<N>>, i: nat, qty: U64)
    requires SideLinked(heap, loc, levels) && TotalsRight(heap, levels)
    requires i < |levels| && levels[i].orders != [] && levels[i].orders[0] in heap
    requires qty <= heap[levels[i].orders[0]].order.leavesQty
    ensures var n := levels[i].orders[0];
            TotalsRight(heap[n := Hit(heap[n], qty)], ReduceTotal(levels, i, qty))
  {
    var n := levels[i].orders[0];
    var heap', levels' := heap[n := Hit(heap[n], qty)], ReduceTotal(levels, i, qty);
    forall a | 0 <= a < |levels'|
      ensures TotalRight(heap', levels'[a])
    {
      if a != i {
        OtherLevelTotal(heap, heap', loc, levels, i, 0, a);
      } else {
        assert TotalRight(heap, levels[i]);
        forall b | 0 < b < |levels[i].orders|
          ensures levels[i].orders[b] != n
        {
          OthersDiffer(heap, loc, levels, i, 0, i, b);
        }
        HitTotal(heap, levels[i], qty);
      }
    }
  }

  lemma PlaceTotals<N>(heap: map<N, Resting>, side: Side, levels: seq<Level<N>>, n: N, x: Resting)
    requires LevelsSorted(heap, side, levels) && TotalsRight(heap, levels) && n !in heap
    ensures TotalsRight(heap[n := x], PlaceIn(side, levels, x.order.price, n, x.order.leavesQty))
  {
    var i, with := LowerBound(side, levels, x.order.price), WithLevel(side, levels, x.order.price);
    var heap', levels' := heap[n := x], PlaceIn(side, levels, x.order.price, n, x.order.leavesQty);
    WithLevelSorted(heap, side, levels, x.order.price);
    forall a | 0 <= a < |levels'|
      ensures TotalRight(heap', levels'[a])
    {
      var old_ := if HasLevel(side, levels, x.order.price) || a < i then a else a - 1;
      if with == levels || a != i {
        assert with[a] == levels[old_] && TotalRight(heap, levels[old_]);
      }
      assert TotalRight(heap, with[a]);
      QueueSame(heap, heap', with[a].orders);
      if a == i {
        AddToTotal(heap, heap', with[i], n);
      }
    }
  }

  // ---------- the trade step ----------

  /** The front order of level i is hit for part of it. */
  ghost predicate HitsPart<N>(st: Store<N>, st': Store<N>, loc: Loc, i: nat, qty: U64)
  {
    && loc in st.sides && i < |st.sides[loc]| && EmptyBefore(st.sides[loc], i) && st.sides[loc][i].orders != []
    && var n := st.sides[loc][i].orders[0];
    && n in st.heap && 0 < qty < st.heap[n].order.leavesQty
    && st' == Store(st.heap[n := Hit(st.heap[n], qty)], st.sides[loc := ReduceTotal(st.sides[loc], i, qty)], st.index)
  }

  /** The front order of level i is filled, leaves the level and the index, and its node returns to the pool. */
  ghost predicate HitsAll<N>(st: Store<N>, st': Store<N>, loc: Loc, i: nat)
  {
    && loc in st.sides && i < |st.sides[loc]| && EmptyBefore(st.sides[loc], i) && st.sides[loc][i].orders != []
    && var n := st.sides[loc][i].orders[0];
    && n in st.heap
    && st' == Store(st.heap - {n}, st.sides[loc := TakeFrom(st.sides[loc], i, 0, st.heap[n].order.leavesQty)],
                    st.index - {KeyOf(st.heap[n].order)})
  }

  lemma HitPartStep<N>(st: Store<N>, st': Store<N>, loc: Loc, i: nat, qty: U64)
    requires StoreOk(st) && TotalsOk(st) && HitsPart(st, st', loc, i, qty)
    ensures StoreOk(st') && TotalsOk(st')
    ensures Queues(st)[loc] != [] && Queues(st)[loc][0] == st.heap[st.sides[loc][i].orders[0]]
    ensures Queues(st') == Queues(st)[loc := HitHead(Queues(st)[loc], qty)] && Entries(st') == Entries(st)
  {
    var levels, n := st.sides[loc], st.sides[loc][i].orders[0];
    FrontNode(levels, i);
    assert SideLinked(st.heap, loc, levels) && LevelsSorted(st.heap, loc.side, levels);
    ReduceTotalNodes(levels, i, qty);
    ReduceTotalSorted(st.heap, loc.side, levels, i, qty, n, Hit(st.heap[n], qty));
    HitNode(st, st', loc, qty);
    var q := Queues(st)[loc];
    assert q[0 := Hit(q[0], qty)] == [Hit(q[0], qty)] + q[1..];
    HitPartTotals(st, st', loc, i, qty);
  }

  lemma HitPartTotals<N>(st: Store<N>, st': Store<N>, loc: Loc, i: nat, qty: U64)
    requires StoreOk(st) && TotalsOk(st) && HitsPart(st, st', loc, i, qty)
    ensures TotalsOk(st')
  {
    var n := st.sides[loc][i].orders[0];
    NodeAt(st.sides[loc], i, 0);
    forall l | l in st'.sides
      ensures TotalsRight(st'.heap, st'.sides[l])
    {
      assert TotalsRight(st.heap, st.sides[l]) && SideLinked(st.heap, l, st.sides[l])
          && SideLinked(st.heap, loc, st.sides[loc]);
      if l == loc {
        ReduceTotals(st.heap, loc, st.sides[loc], i, qty);
      } else {
        OnlyIn(st.heap, l, st.sides[l], n);
        TotalsElsewhere(st.heap, st'.heap, st.sides[l], n);
      }
    }
  }

  lemma TakenTotals<N>(st: Store<N>, st': Store<N>, loc: Loc, i: nat, k: nat)
    requires StoreOk(st) && TotalsOk(st) && loc in st.sides && i < |st.sides[loc]| && k < |st.sides[loc][i].orders|
    requires var n := st.sides[loc][i].orders[k];
             && n in st.heap && st'.heap == st.heap - {n}
             && st'.sides == st.sides[loc := TakeFrom(st.sides[loc], i, k, st.heap[n].order.leavesQty)]
    ensures TotalsOk(st')
  {
    var n := st.sides[loc][i].orders[k];
    NodeAt(st.sides[loc], i, k);
    forall l | l in st'.sides
      ensures TotalsRight(st'.heap, st'.sides[l])
    {
      assert TotalsRight(st.heap, st.sides[l]) && SideLinked(st.heap, l, st.sides[l])
          && SideLinked(st.heap, loc, st.sides[loc]);
      if l == loc {
        TakeFromTotals(st.heap, loc, st.sides[loc], i, k);
      } else {
        OnlyIn(st.heap, l, st.sides[l], n);
        TotalsElsewhere(st.heap, st'.heap, st.sides[l], n);
      }
    }
  }

  /** The k-th order of level i leaves its level, the index and the pool. */
  ghost predicate TakesOrder<N>(st: Store<N>, st': Store<N>, loc: Loc, i: nat, k: nat)
  {
    && loc in st.sides && i < |st.sides[loc]| && k < |st.sides[loc][i].orders|
    && var n := st.sides[loc][i].orders[k];
    && n in st.heap
    && st' == Store(st.heap - {n}, st.sides[loc := TakeFrom(st.sides[loc], i, k, st.heap[n].order.leavesQty)],
                    st.index - {KeyOf(st.heap[n].order)})
  }

  lemma TakeOrderStep<N>(st: Store<N>, st': Store<N>, loc: Loc, i: nat, k: nat)
    requires StoreOk(st) && TakesOrder(st, st', loc, i, k)
    ensures StoreOk(st')
    ensures var m := PositionOf(st.sides[loc], i, k);
            && m < |Queues(st)[loc]| && Queues(st)[loc][m] == st.heap[st.sides[loc][i].orders[k]]
            && Queues(st') == Queues(st)[loc := RemoveAt(Queues(st)[loc], m)]
            && Entries(st') == Entries(st) - {KeyOf(Queues(st)[loc][m].order)}
  {
    var levels, n := st.sides[loc], st.sides[loc][i].orders[k];
    var leaves := st.heap[n].order.leavesQty;
    assert SideLinked(st.heap, loc, levels) && LevelsSorted(st.heap, loc.side, levels);
    NodeAt(levels, i, k);
    TakeFromNodes(levels, i, k, leaves);
    TakeFromSorted(st.heap, loc, levels, i, k, leaves);
    TakeNode(st, st', loc, PositionOf(levels, i, k));
  }

  lemma HitAllStep<N>(st: Store<N>, st': Store<N>, loc: Loc, i: nat)
    requires StoreOk(st) && TotalsOk(st) && HitsAll(st, st', loc, i)
    ensures StoreOk(st') && TotalsOk(st')
    ensures Queues(st)[loc] != [] && Queues(st)[loc][0] == st.heap[st.sides[loc][i].orders[0]]
    ensures var q := Queues(st)[loc];
            && Queues(st') == Queues(st)[loc := HitHead(q, q[0].order.leavesQty)]
            && Entries(st') == Entries(st) - {KeyOf(q[0].order)}
  {
    FrontNode(st.sides[loc], i);
    TakeOrderStep(st, st', loc, i, 0);
    TakenTotals(st, st', loc, i, 0);
    var q := Queues(st)[loc];
    assert RemoveAt(q, 0) == q[1..];
  }

  ghost predicate CanHit<N>(st: Store<N>, loc: Loc, i: nat, qty: U64)
  {
    var possible :=
      && loc in st.sides && i < |st.sides[loc]| && EmptyBefore(st.sides[loc], i) && st.sides[loc][i].orders != []
      && st.sides[loc][i].orders[0] in st.heap
      && 0 < qty <= st.heap[st.sides[loc][i].orders[0]].order.leavesQty;
    possible
  }

  /** One turn of the level loop: maker and total decremented in lockstep, a filled maker popped and released. */
  ghost function HitStore<N>(st: Store<N>, loc: Loc, i: nat, qty: U64): Store<N>
    requires CanHit(st, loc, i, qty)
  {
    var n := st.sides[loc][i].orders[0];
    var levels := ReduceTotal(st.sides[loc], i, qty);
    if qty < st.heap[n].order.leavesQty
    then Store(st.heap[n := Hit(st.heap[n], qty)], st.sides[loc := levels], st.index)
    else Store(st.heap - {n}, st.sides[loc := PopAt(levels, i)], st.index - {KeyOf(st.heap[n].order)})
  }

  /**
   A full hit in the order the engine makes it: reduce maker and total, then pop, drop the identity, free the node.
   */
  lemma HitStoreFull<N>(st: Store<N>, loc: Loc, i: nat, qty: U64)
    requires CanHit(st, loc, i, qty) && qty == st.heap[st.sides[loc][i].orders[0]].order.leavesQty
    ensures var n, levels := st.sides[loc][i].orders[0], ReduceTotal(st.sides[loc], i, qty);
            && st.sides[loc := levels][loc := PopAt(levels, i)] == st.sides[loc := PopAt(levels, i)]
            && HitStore(st, loc, i, qty) == Store(st.heap[n := Hit(st.heap[n], qty)] - {n},
                                                  st.sides[loc := levels][loc := PopAt(levels, i)],
                                                  st.index - {KeyOf(st.heap[n].order)})
  {
    var n := st.sides[loc][i].orders[0];
    assert st.heap[n := Hit(st.heap[n], qty)] - {n} == st.heap - {n};
  }

  /** Only the i-th level may differ, and it keeps its price. */
  predicate SameButLevel<N(==)>(was: seq<Level<N>>, now: seq<Level<N>>, i: nat)
  {
    && |now| == |was|
    && (forall j :: 0 <= j < |was| && j != i ==> now[j] == was[j])
    && (i < |was| ==> now[i].price == was[i].price)
  }

  /** A hit keeps the level's orders, or pops its front. */
  lemma HitShape<N>(st: Store<N>, loc: Loc, i: nat, qty: U64)
    requires CanHit(st, loc, i, qty)
    ensures var was, now := st.sides[loc], HitStore(st, loc, i, qty).sides[loc];
            && SameButLevel(was, now, i)
            && now[i].orders == if qty < st.heap[was[i].orders[0]].order.leavesQty then was[i].orders
                else was[i].orders[1..]
  {
  }

  lemma PopIsTake<N>(levels: seq<Level<N>>, i: nat, qty: U64)
    requires i < |levels| && levels[i].orders != []
    ensures PopAt(ReduceTotal(levels, i, qty), i) == TakeFrom(levels, i, 0, qty)
  {
    assert RemoveAt(levels[i].orders, 0) == levels[i].orders[1..];
  }

  /** One turn of the level loop is one trade of the flat machine. */
  lemma HitStep<N>(st: Store<N>, loc: Loc, i: nat, qty: U64, nextExec: U64, nextTrade: U64, nextId: nat)
    requires StoreOk(st) && TotalsOk(st) && CanHit(st, loc, i, qty)
    ensures StoreOk(HitStore(st, loc, i, qty)) && TotalsOk(HitStore(st, loc, i, qty))
    ensures var s := StateOf(st, nextExec, nextTrade, nextId);
            && s.queues[loc] != [] && s.queues[loc][0] == st.heap[st.sides[loc][i].orders[0]]
            && StateOf(HitStore(st, loc, i, qty), nextExec, Succ(nextTrade), nextId) == TakeHead(s, loc, qty)
  {
    var st' := HitStore(st, loc, i, qty);
    if qty < st.heap[st.sides[loc][i].orders[0]].order.leavesQty {
      HitPartStep(st, st', loc, i, qty);
    } else {
      PopIsTake(st.sides[loc], i, qty);
      HitAllStep(st, st', loc, i);
    }
  }

  // ---------- reshaping levels without touching nodes ----------

  lemma RelevelOk<N>(st: Store<N>, loc: Loc, levels: seq<Level<N>>)
    requires StoreOk(st) && loc in st.sides
    requires Nodes(levels) == Nodes(st.sides[loc]) && LevelsSorted(st.heap, loc.side, levels)
    ensures StoreOk(st.(sides := st.sides[loc := levels]))
  {
    var st' := st.(sides := st.sides[loc := levels]);
    forall l | l in st'.sides
      ensures SideLinked(st'.heap, l, st'.sides[l]) && LevelsSorted(st'.heap, l.side, st'.sides[l])
    {
      assert SideLinked(st.heap, l, st.sides[l]) && LevelsSorted(st.heap, l.side, st.sides[l]);
    }
    forall n | n in st'.heap
      ensures NodeLinked(st', n) && NodeIndexed(st', n)
    {
      assert NodeLinked(st, n) && NodeIndexed(st, n);
    }
    forall k | k in st'.index
      ensures IndexEntryOk(st', k)
    {
      assert IndexEntryOk(st, k);
    }
  }

  /** Levels that hold no order may come and go unnoticed. */
  lemma Relevel<N>(st: Store<N>, loc: Loc, levels: seq<Level<N>>)
    requires StoreOk(st) && loc in st.sides
    requires Nodes(levels) == Nodes(st.sides[loc]) && LevelsSorted(st.heap, loc.side, levels)
    ensures StoreOk(st.(sides := st.sides[loc := levels]))
    ensures Queues(st.(sides := st.sides[loc := levels])) == Queues(st)
    ensures Entries(st.(sides := st.sides[loc := levels])) == Entries(st)
  {
    RelevelOk(st, loc, levels);
    RelevelSame(st, loc, levels);
  }

  lemma RelevelSame<N>(st: Store<N>, loc: Loc, levels: seq<Level<N>>)
    requires loc in st.sides && Nodes(levels) == Nodes(st.sides[loc])
    ensures Queues(st.(sides := st.sides[loc := levels])) == Queues(st)
    ensures Entries(st.(sides := st.sides[loc := levels])) == Entries(st)
  {
    var st' := st.(sides := st.sides[loc := levels]);
    var a, b := Queues(st), Queues(st');
    forall l | l in a
      ensures b[l] == a[l]
    {
    }
    assert a.Keys == b.Keys;
  }

  /** Erasing the consumed prefix of levels in one go. */
  lemma TrimStep<N>(st: Store<N>, loc: Loc, i: nat)
    requires StoreOk(st) && TotalsOk(st) && loc in st.sides && EmptyBefore(st.sides[loc], i)
    ensures var st' := st.(sides := st.sides[loc := st.sides[loc][i..]]);
            StoreOk(st') && TotalsOk(st') && Queues(st') == Queues(st) && Entries(st') == Entries(st)
  {
    var levels := st.sides[loc];
    assert LevelsSorted(st.heap, loc.side, levels);
    assert levels == levels[..i] + levels[i..];
    NodesAppend(levels[..i], levels[i..]);
    NodesEmpty(levels[..i]);
    SuffixLevelsSorted(st.heap, loc.side, levels, i);
    Relevel(st, loc, levels[i..]);
    var st' := st.(sides := st.sides[loc := levels[i..]]);
    forall l | l in st'.sides
      ensures TotalsRight(st'.heap, st'.sides[l])
    {
      assert TotalsRight(st.heap, st.sides[l]);
      forall a | 0 <= a < |st'.sides[l]|
        ensures TotalRight(st.heap, st'.sides[l][a])
      {
        assert TotalRight(st.heap, st.sides[l][if l == loc then a + i else a]);
      }
    }
  }

  /** Dropping one emptied level. */
  lemma DropStep<N>(st: Store<N>, loc: Loc, i: nat)
    requires StoreOk(st) && loc in st.sides && i < |st.sides[loc]| && st.sides[loc][i].orders == []
    ensures var st' := st.(sides := st.sides[loc := RemoveAt(st.sides[loc], i)]);
            StoreOk(st') && Queues(st') == Queues(st) && Entries(st') == Entries(st) && (TotalsOk(st) ==> TotalsOk(st'))
  {
    var levels := st.sides[loc];
    assert LevelsSorted(st.heap, loc.side, levels);
    DropNodes(levels, i);
    DropSorted(st.heap, loc.side, levels, i);
    Relevel(st, loc, RemoveAt(levels, i));
    if TotalsOk(st) {
      var st' := st.(sides := st.sides[loc := RemoveAt(levels, i)]);
      forall l | l in st'.sides
        ensures TotalsRight(st'.heap, st'.sides[l])
      {
        assert TotalsRight(st.heap, st.sides[l]);
        forall a | 0 <= a < |st'.sides[l]|
          ensures TotalRight(st.heap, st'.sides[l][a])
        {
          assert TotalRight(st.heap, st.sides[l][if l == loc && a >= i then a + 1 else a]);
        }
      }
    }
  }

  // ---------- placing ----------

  ghost predicate PlacesOrder<N>(st: Store<N>, st': Store<N>, n: N, x: Resting)
  {
    var loc := LocOf(x.order);
    && loc in st.sides && n !in st.heap && KeyOf(x.order) !in st.index
    && st' == Store(st.heap[n := x],
                    st.sides[loc := PlaceIn(loc.side, st.sides[loc], x.order.price, n, x.order.leavesQty)],
                    st.index[KeyOf(x.order) := n])
  }

  lemma PlaceStep<N>(st: Store<N>, st': Store<N>, n: N, x: Resting)
    requires StoreOk(st) && PlacesOrder(st, st', n, x)
    ensures StoreOk(st')
    ensures var loc := LocOf(x.order);
            && Queues(st') == Queues(st)[loc := Insert(loc.side, Queues(st)[loc], x)]
            && Entries(st') == Entries(st)[KeyOf(x.order) := Entry(loc, x.id)]
  {
    var loc, p := LocOf(x.order), x.order.price;
    var levels, with := st.sides[loc], WithLevel(loc.side, st.sides[loc], p);
    var i := LowerBound(loc.side, levels, p);
    assert SideLinked(st.heap, loc, levels) && LevelsSorted(st.heap, loc.side, levels);
    WithLevelNodes(loc.side, levels, p);
    WithLevelSorted(st.heap, loc.side, levels, p);
    AddToNodes(with, i, n, x.order.leavesQty);
    AddToSorted(st.heap, loc.side, with, i, n, x, x.order.leavesQty);
    PlaceIsInsert(st.heap, loc.side, with, i, x);
    AddNode(st, st', n, x, PositionOf(with, i, |with[i].orders|));
  }

  lemma PlaceStepTotals<N>(st: Store<N>, st': Store<N>, n: N, x: Resting)
    requires StoreOk(st) && TotalsOk(st) && PlacesOrder(st, st', n, x)
    ensures TotalsOk(st')
  {
    forall l | l in st'.sides
      ensures TotalsRight(st'.heap, st'.sides[l])
    {
      assert TotalsRight(st.heap, st.sides[l]) && SideLinked(st.heap, l, st.sides[l]);
      if l == LocOf(x.order) {
        assert LevelsSorted(st.heap, l.side, st.sides[l]);
        PlaceTotals(st.heap, l.side, st.sides[l], n, x);
      } else {
        TotalsElsewhere(st.heap, st'.heap, st.sides[l], n);
      }
    }
  }

  lemma PlaceStepTidy<N>(st: Store<N>, st': Store<N>, n: N, x: Resting)
    requires Tidy(st) && PlacesOrder(st, st', n, x)
    ensures Tidy(st')
  {
    forall l | l in st'.sides
      ensures NoEmptyLevel(st'.sides[l])
    {
      assert NoEmptyLevel(st.sides[l]);
    }
  }

  // ---------- reading the top ----------

  /** In a tidy layout the first level's price and total are what the flat queue reports. */
  lemma TopStep<N>(st: Store<N>, loc: Loc)
    requires StoreOk(st) && TotalsOk(st) && Tidy(st) && loc in st.sides
    ensures BestLevel(Queues(st)[loc])
         == if st.sides[loc] == [] then None else Some(Snapshot(st.sides[loc][0].price, st.sides[loc][0].total))
    ensures BestPrice(Queues(st)[loc]) == if st.sides[loc] == [] then None else Some(st.sides[loc][0].price)
  {
    var levels := st.sides[loc];
    assert SideLinked(st.heap, loc, levels) && LevelsSorted(st.heap, loc.side, levels);
    assert NoEmptyLevel(levels) && TotalsRight(st.heap, levels);
    if levels != [] {
      FrontNode(levels, 0);
      assert TotalRight(st.heap, levels[0]);
      TotalIsLevelQty(st.heap, loc.side, levels, 0);
    }
  }

}
