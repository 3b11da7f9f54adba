/**
 The engine's memory as it is laid out: order nodes behind pointers, price levels holding FIFOs of pointers with a
 running total, and an identity index of raw pointers. N is the type of pointers. Each operation on the layout is
 shown to be the corresponding operation on the flat queues.
 */
module LevelStore {
  import opened Types
  import opened PriceTimeQueue
  import opened FlatEngine

  /** A price level: its FIFO and the running total of remaining quantity, kept in 64 bits. */
  datatype Level<N> = Level(price: U64, orders: seq<N>, total: U64)

  datatype Store<!N> = Store(heap: map<N, Resting>, sides: map<Loc, seq<Level<N>>>, index: map<Key, N>)

  /** All nodes of one side, level by level. */
  function Nodes<N>(levels: seq<Level<N>>): seq<N>
  {
    if levels == [] then [] else levels[0].orders + Nodes(levels[1..])
  }

  predicate AllIn<N(==)>(heap: map<N, Resting>, ns: seq<N>)
  {
    forall i :: 0 <= i < |ns| ==> ns[i] in heap
  }

  /** What a dangling pointer would show; the invariant excludes it. */
  const NOTHING: Resting := Resting(0, Order(0, 0, 0, "", "", Buy, OrdType.Market, Ioc, 0, 0, 0))

  function Deref<N(==)>(heap: map<N, Resting>, n: N): Resting
  {
    if n in heap then heap[n] else NOTHING
  }

  /** The flat queue that a sequence of nodes stands for. */
  function QueueOf<N(==)>(heap: map<N, Resting>, ns: seq<N>): seq<Resting>
  {
    seq(|ns|, i requires 0 <= i < |ns| => Deref(heap, ns[i]))
  }

  predicate Differ<N(==)>(a: N, b: N)
  {
    a != b
  }

  predicate NoDuplicates<N(==)>(ns: seq<N>)
  {
    forall i, j {:trigger Differ(ns[i], ns[j])} :: 0 <= i < j < |ns| ==> Differ(ns[i], ns[j])
  }

  lemma DifferAt<N>(ns: seq<N>, i: nat, j: nat)
    requires NoDuplicates(ns) && i < |ns| && j < |ns| && i != j
    ensures ns[i] != ns[j]
  {
    assert if i < j then Differ(ns[i], ns[j]) else Differ(ns[j], ns[i]);
  }

  lemma NoDuplicatesRemove<N>(ns: seq<N>, m: nat)
    requires NoDuplicates(ns) && m < |ns|
    ensures NoDuplicates(RemoveAt(ns, m)) && ns[m] !in RemoveAt(ns, m)
  {
    var ns' := RemoveAt(ns, m);
    forall i | 0 <= i < |ns'|
      ensures ns'[i] == ns[if i < m then i else i + 1] != ns[m]
    {
      DifferAt(ns, if i < m then i else i + 1, m);
    }
    forall i, j | 0 <= i < j < |ns'|
      ensures Differ(ns'[i], ns'[j])
    {
      assert Differ(ns[if i < m then i else i + 1], ns[if j < m then j else j + 1]);
    }
  }

  lemma NoDuplicatesInsert<N>(ns: seq<N>, m: nat, n: N)
    requires NoDuplicates(ns) && m <= |ns| && n !in ns
    ensures NoDuplicates(ns[..m] + [n] + ns[m..])
  {
    var ns' := ns[..m] + [n] + ns[m..];
    forall i, j | 0 <= i < j < |ns'|
      ensures Differ(ns'[i], ns'[j])
    {
      if i != m && j != m {
        assert Differ(ns[if i < m then i else i - 1], ns[if j < m then j else j - 1]);
      }
    }
  }

  /** Every node linked on a side is live, belongs there, and is linked once. */
  predicate SideLinked<N(==)>(heap: map<N, Resting>, loc: Loc, levels: seq<Level<N>>)
  {
    var ns := Nodes(levels);
    && AllIn(heap, ns)
    && NoDuplicates(ns)
    && (forall i :: 0 <= i < |ns| ==> LocOf(heap[ns[i]].order) == loc)
  }

  /** Levels are strictly sorted, best first, and hold orders of their own price only. */
  predicate LevelsSorted<N(==)>(heap: map<N, Resting>, side: Side, levels: seq<Level<N>>)
  {
    && (forall i, j {:trigger Better(side, levels[i].price, levels[j].price)} ::
          0 <= i < j < |levels| ==> Better(side, levels[i].price, levels[j].price))
    && (forall i, k :: 0 <= i < |levels| && 0 <= k < |levels[i].orders| ==>
          levels[i].orders[k] in heap && heap[levels[i].orders[k]].order.price == levels[i].price)
  }

  predicate NoEmptyLevel<N>(levels: seq<Level<N>>)
  {
    forall i :: 0 <= i < |levels| ==> levels[i].orders != []
  }

  predicate NodeLinked<N(==)>(st: Store<N>, n: N)
  {
    var loc := LocOf(Deref(st.heap, n).order);
    loc in st.sides && n in Nodes(st.sides[loc])
  }

  predicate NodeIndexed<N(==)>(st: Store<N>, n: N)
  {
    var key := KeyOf(Deref(st.heap, n).order);
    key in st.index && st.index[key] == n
  }

  predicate IndexEntryOk<N(==)>(st: Store<N>, k: Key)
    requires k in st.index
  {
    st.index[k] in st.heap && KeyOf(st.heap[st.index[k]].order) == k
  }

  /** The linked nodes, the indexed nodes and the live nodes are the same, each linked once and in its own place. */
  ghost predicate StoreOk<N>(st: Store<N>)
  {
    var agree :=
      && (forall loc {:trigger SideLinked(st.heap, loc, st.sides[loc])} ::
            loc in st.sides ==> SideLinked(st.heap, loc, st.sides[loc]))
      && (forall loc {:trigger LevelsSorted(st.heap, loc.side, st.sides[loc])} ::
            loc in st.sides ==> LevelsSorted(st.heap, loc.side, st.sides[loc]))
      && (forall n {:trigger NodeLinked(st, n)} {:trigger NodeIndexed(st, n)} ::
            n in st.heap ==> NodeLinked(st, n) && NodeIndexed(st, n))
      && (forall k {:trigger IndexEntryOk(st, k)} :: k in st.index ==> IndexEntryOk(st, k));
    agree
  }

  /** The flat queues and the flat index that a layout stands for. */
  ghost function Queues<N>(st: Store<N>): map<Loc, seq<Resting>>
  {
    map loc | loc in st.sides :: QueueOf(st.heap, Nodes(st.sides[loc]))
  }

  ghost function EntriesOf<N>(heap: map<N, Resting>, index: map<Key, N>): map<Key, Entry>
  {
    map k | k in index :: Entry(LocOf(Deref(heap, index[k]).order), Deref(heap, index[k]).id)
  }

  ghost function Entries<N>(st: Store<N>): map<Key, Entry>
  {
    EntriesOf(st.heap, st.index)
  }

  lemma QueuesUpdate<N>(st: Store<N>, st': Store<N>, loc: Loc, q: seq<Resting>)
    requires loc in st.sides && st'.sides.Keys == st.sides.Keys
    requires forall l {:trigger st'.sides[l]} :: l in st.sides ==>
               QueueOf(st'.heap, Nodes(st'.sides[l])) == if l == loc then q else QueueOf(st.heap, Nodes(st.sides[l]))
    ensures Queues(st') == Queues(st)[loc := q]
  {
  }

  // ---------- levels and nodes ----------

  lemma {:induction false} NodesAppend<N>(a: seq<Level<N>>, b: seq<Level<N>>)
    ensures Nodes(a + b) == Nodes(a) + Nodes(b)
    decreases |a|
  {
    if a == [] {
      assert a + b == b;
    } else {
      assert (a + b)[1..] == a[1..] + b;
      NodesAppend(a[1..], b);
    }
  }

  lemma NodesSplit<N>(levels: seq<Level<N>>, i: nat)
    requires i < |levels|
    ensures Nodes(levels) == Nodes(levels[..i]) + levels[i].orders + Nodes(levels[i + 1..])
  {
    assert levels == levels[..i] + levels[i..];
    NodesAppend(levels[..i], levels[i..]);
    assert levels[i..][1..] == levels[i + 1..];
  }

  lemma {:induction false} NodesEmpty<N>(levels: seq<Level<N>>)
    requires forall i :: 0 <= i < |levels| ==> levels[i].orders == []
    ensures Nodes(levels) == []
    decreases |levels|
  {
    if levels != [] {
      NodesEmpty(levels[1..]);
    }
  }

  /** The position of the k-th order of level i among all nodes. */
  function PositionOf<N>(levels: seq<Level<N>>, i: nat, k: nat): nat
    requires i < |levels|
  {
    |Nodes(levels[..i])| + k
  }

  lemma NodeAt<N>(levels: seq<Level<N>>, i: nat, k: nat)
    requires i < |levels| && k < |levels[i].orders|
    ensures PositionOf(levels, i, k) < |Nodes(levels)|
    ensures Nodes(levels)[PositionOf(levels, i, k)] == levels[i].orders[k]
  {
    NodesSplit(levels, i);
  }

  /** Every node of a side stands in some level. */
  lemma {:induction false} LevelOf<N>(levels: seq<Level<N>>, m: nat) returns (i: nat, k: nat)
    requires m < |Nodes(levels)|
    ensures i < |levels| && k < |levels[i].orders| && PositionOf(levels, i, k) == m
    ensures Nodes(levels)[m] == levels[i].orders[k]
    decreases |levels|
  {
    if m < |levels[0].orders| {
      i, k := 0, m;
      assert levels[..0] == [];
    } else {
      i, k := LevelOf(levels[1..], m - |levels[0].orders|);
      assert levels[..i + 1] == [levels[0]] + levels[1..][..i];
      i := i + 1;
    }
    NodeAt(levels, i, k);
  }

  lemma OnlyIn<N>(heap: map<N, Resting>, l: Loc, levels: seq<Level<N>>, n: N)
    requires SideLinked(heap, l, levels) && n in heap && LocOf(heap[n].order) != l
    ensures n !in Nodes(levels)
  {
  }

  lemma LevelNodes<N>(heap: map<N, Resting>, side: Side, levels: seq<Level<N>>, heap': map<N, Resting>)
    requires LevelsSorted(heap, side, levels)
    requires forall n :: n in heap && n in Nodes(levels) ==> n in heap' && heap'[n].order.price == heap[n].order.price
    ensures LevelsSorted(heap', side, levels)
  {
    forall i, k | 0 <= i < |levels| && 0 <= k < |levels[i].orders|
      ensures levels[i].orders[k] in heap' && heap'[levels[i].orders[k]].order.price == levels[i].price
    {
      NodeAt(levels, i, k);
      assert levels[i].orders[k] in Nodes(levels);
    }
  }

  // ---------- taking a node out ----------

  /** st' is st with the m-th node of one side unlinked, unindexed and returned to the pool. */
  ghost predicate TakesNode<N>(st: Store<N>, st': Store<N>, loc: Loc, m: nat)
  {
    && loc in st.sides && loc in st'.sides && m < |Nodes(st.sides[loc])|
    && var n := Nodes(st.sides[loc])[m];
    && n in st.heap
    && st'.heap == st.heap - {n}
    && st'.index == st.index - {KeyOf(st.heap[n].order)}
    && st'.sides == st.sides[loc := st'.sides[loc]]
    && Nodes(st'.sides[loc]) == RemoveAt(Nodes(st.sides[loc]), m)
    && LevelsSorted(st'.heap, loc.side, st'.sides[loc])
  }

  lemma TakeNodeSide<N>(st: Store<N>, st': Store<N>, loc: Loc, m: nat)
    requires StoreOk(st) && TakesNode(st, st', loc, m)
    ensures SideLinked(st'.heap, loc, st'.sides[loc])
    ensures QueueOf(st'.heap, Nodes(st'.sides[loc])) == RemoveAt(QueueOf(st.heap, Nodes(st.sides[loc])), m)
  {
    hide Nodes, LevelsSorted;
    var ns, ns' := Nodes(st.sides[loc]), Nodes(st'.sides[loc]);
    assert SideLinked(st.heap, loc, st.sides[loc]);
    NoDuplicatesRemove(ns, m);
    forall i | 0 <= i < |ns'|
      ensures ns'[i] == ns[if i < m then i else i + 1] && ns'[i] in st'.heap
    {
      assert ns'[i] in ns';
    }
  }

  lemma TakeNodeSides<N>(st: Store<N>, st': Store<N>, loc: Loc, m: nat, l: Loc)
    requires StoreOk(st) && TakesNode(st, st', loc, m) && l in st.sides
    ensures SideLinked(st'.heap, l, st'.sides[l]) && LevelsSorted(st'.heap, l.side, st'.sides[l])
    ensures QueueOf(st'.heap, Nodes(st'.sides[l]))
         == if l == loc then RemoveAt(QueueOf(st.heap, Nodes(st.sides[l])), m) else QueueOf(st.heap, Nodes(st.sides[l]))
  {
    if l == loc {
      TakeNodeSide(st, st', loc, m);
    } else {
      assert SideLinked(st.heap, l, st.sides[l]) && SideLinked(st.heap, loc, st.sides[loc]);
      OnlyIn(st.heap, l, st.sides[l], Nodes(st.sides[loc])[m]);
      LevelNodes(st.heap, l.side, st.sides[l], st'.heap);
    }
  }

  lemma TakeNodeLinks<N>(st: Store<N>, st': Store<N>, loc: Loc, m: nat)
    requires StoreOk(st) && TakesNode(st, st', loc, m)
    ensures forall n :: n in st'.heap ==> NodeLinked(st', n) && NodeIndexed(st', n)
    ensures forall k :: k in st'.index ==> IndexEntryOk(st', k)
  {
    var ns := Nodes(st.sides[loc]);
    forall n | n in st'.heap
      ensures NodeLinked(st', n) && NodeIndexed(st', n)
    {
      assert NodeLinked(st, n) && NodeIndexed(st, n) && NodeIndexed(st, ns[m]);
      assert SideLinked(st.heap, loc, st.sides[loc]);
      if LocOf(st.heap[n].order) == loc {
        var i :| 0 <= i < |ns| && ns[i] == n;
        assert RemoveAt(ns, m)[if i < m then i else i - 1] == n;
      }
    }
    forall k | k in st'.index
      ensures IndexEntryOk(st', k)
    {
      assert IndexEntryOk(st, k);
    }
  }

  lemma TakeNodeOk<N>(st: Store<N>, st': Store<N>, loc: Loc, m: nat)
    requires StoreOk(st) && TakesNode(st, st', loc, m)
    ensures StoreOk(st')
  {
    forall l | l in st.sides
      ensures SideLinked(st'.heap, l, st'.sides[l]) && LevelsSorted(st'.heap, l.side, st'.sides[l])
    {
      TakeNodeSides(st, st', loc, m, l);
    }
    TakeNodeLinks(st, st', loc, m);
  }

  lemma TakeNodeQueues<N>(st: Store<N>, st': Store<N>, loc: Loc, m: nat)
    requires StoreOk(st) && TakesNode(st, st', loc, m)
    ensures Queues(st') == Queues(st)[loc := RemoveAt(Queues(st)[loc], m)]
  {
    forall l | l in st.sides
      ensures QueueOf(st'.heap, Nodes(st'.sides[l]))
           == if l == loc then RemoveAt(QueueOf(st.heap, Nodes(st.sides[loc])), m)
               else QueueOf(st.heap, Nodes(st.sides[l]))
    {
      TakeNodeSides(st, st', loc, m, l);
    }
    QueuesUpdate(st, st', loc, RemoveAt(QueueOf(st.heap, Nodes(st.sides[loc])), m));
  }

  lemma TakeNodeEntries<N>(st: Store<N>, st': Store<N>, loc: Loc, m: nat)
    requires StoreOk(st) && TakesNode(st, st', loc, m) && StoreOk(st')
    ensures Entries(st') == Entries(st) - {KeyOf(Queues(st)[loc][m].order)}
  {
    forall k | k in st'.index
      ensures IndexEntryOk(st', k) && (k in st.index ==> IndexEntryOk(st, k))
    {
    }
  }

  /** Taking a node out of the layout is removing its order from the flat queue and the flat index. */
  lemma TakeNode<N>(st: Store<N>, st': Store<N>, loc: Loc, m: nat)
    requires StoreOk(st) && TakesNode(st, st', loc, m)
    ensures StoreOk(st')
    ensures Queues(st') == Queues(st)[loc := RemoveAt(Queues(st)[loc], m)]
    ensures Entries(st') == Entries(st) - {KeyOf(Queues(st)[loc][m].order)}
  {
    TakeNodeOk(st, st', loc, m);
    TakeNodeQueues(st, st', loc, m);
    TakeNodeEntries(st, st', loc, m);
  }

  // ---------- putting a node in ----------

  /** st' is st with a fresh node linked at position m of its side and indexed. */
  ghost predicate AddsNode<N>(st: Store<N>, st': Store<N>, n: N, x: Resting, m: nat)
  {
    var loc := LocOf(x.order);
    && loc in st.sides && loc in st'.sides && m <= |Nodes(st.sides[loc])|
    && n !in st.heap && KeyOf(x.order) !in st.index
    && st'.heap == st.heap[n := x]
    && st'.index == st.index[KeyOf(x.order) := n]
    && st'.sides == st.sides[loc := st'.sides[loc]]
    && Nodes(st'.sides[loc]) == Nodes(st.sides[loc])[..m] + [n] + Nodes(st.sides[loc])[m..]
    && LevelsSorted(st'.heap, loc.side, st'.sides[loc])
  }

  lemma AddNodeSide<N>(st: Store<N>, st': Store<N>, n: N, x: Resting, m: nat)
    requires StoreOk(st) && AddsNode(st, st', n, x, m)
    ensures var loc := LocOf(x.order);
            var q := QueueOf(st.heap, Nodes(st.sides[loc]));
            && SideLinked(st'.heap, loc, st'.sides[loc])
            && QueueOf(st'.heap, Nodes(st'.sides[loc])) == q[..m] + [x] + q[m..]
  {
    hide Nodes, LevelsSorted;
    var loc := LocOf(x.order);
    assert SideLinked(st.heap, loc, st.sides[loc]);
    var ns, ns' := Nodes(st.sides[loc]), Nodes(st'.sides[loc]);
    NoDuplicatesInsert(ns, m, n);
    forall i | 0 <= i < |ns'|
      ensures ns'[i] == if i < m then ns[i] else if i == m then n else ns[i - 1]
      ensures ns'[i] in st'.heap
    {
    }
  }

  lemma AddNodeSides<N>(st: Store<N>, st': Store<N>, n: N, x: Resting, m: nat, l: Loc)
    requires StoreOk(st) && AddsNode(st, st', n, x, m) && l in st.sides
    ensures SideLinked(st'.heap, l, st'.sides[l]) && LevelsSorted(st'.heap, l.side, st'.sides[l])
    ensures var q := QueueOf(st.heap, Nodes(st.sides[l]));
            QueueOf(st'.heap, Nodes(st'.sides[l])) == if l == LocOf(x.order) then q[..m] + [x] + q[m..] else q
  {
    assert SideLinked(st.heap, l, st.sides[l]);
    if l == LocOf(x.order) {
      AddNodeSide(st, st', n, x, m);
    } else {
      LevelNodes(st.heap, l.side, st.sides[l], st'.heap);
    }
  }

  lemma AddNodeLinks<N>(st: Store<N>, st': Store<N>, n: N, x: Resting, m: nat)
    requires StoreOk(st) && AddsNode(st, st', n, x, m)
    ensures forall p :: p in st'.heap ==> NodeLinked(st', p) && NodeIndexed(st', p)
    ensures forall k :: k in st'.index ==> IndexEntryOk(st', k)
  {
    var loc := LocOf(x.order);
    var ns, ns' := Nodes(st.sides[loc]), Nodes(st'.sides[loc]);
    assert ns'[m] == n;
    forall p | p in st'.heap
      ensures NodeLinked(st', p) && NodeIndexed(st', p)
    {
      if p != n {
        assert NodeLinked(st, p) && NodeIndexed(st, p);
        if LocOf(st.heap[p].order) == loc {
          var i :| 0 <= i < |ns| && ns[i] == p;
          assert ns'[if i < m then i else i + 1] == p;
        }
      }
    }
    forall k | k in st'.index
      ensures IndexEntryOk(st', k)
    {
      assert k in st.index ==> IndexEntryOk(st, k);
    }
  }

  lemma AddNodeOk<N>(st: Store<N>, st': Store<N>, n: N, x: Resting, m: nat)
    requires StoreOk(st) && AddsNode(st, st', n, x, m)
    ensures StoreOk(st')
  {
    forall l | l in st.sides
      ensures SideLinked(st'.heap, l, st'.sides[l]) && LevelsSorted(st'.heap, l.side, st'.sides[l])
    {
      AddNodeSides(st, st', n, x, m, l);
    }
    AddNodeLinks(st, st', n, x, m);
  }

  lemma AddNodeQueues<N>(st: Store<N>, st': Store<N>, n: N, x: Resting, m: nat)
    requires StoreOk(st) && AddsNode(st, st', n, x, m)
    ensures var loc := LocOf(x.order);
            Queues(st') == Queues(st)[loc := Queues(st)[loc][..m] + [x] + Queues(st)[loc][m..]]
  {
    var loc := LocOf(x.order);
    var q := QueueOf(st.heap, Nodes(st.sides[loc]));
    forall l | l in st.sides
      ensures QueueOf(st'.heap, Nodes(st'.sides[l]))
           == if l == loc then q[..m] + [x] + q[m..] else QueueOf(st.heap, Nodes(st.sides[l]))
    {
      AddNodeSides(st, st', n, x, m, l);
    }
    QueuesUpdate(st, st', loc, q[..m] + [x] + q[m..]);
  }

  lemma AddNodeEntries<N>(st: Store<N>, st': Store<N>, n: N, x: Resting, m: nat)
    requires StoreOk(st) && AddsNode(st, st', n, x, m) && StoreOk(st')
    ensures Entries(st') == Entries(st)[KeyOf(x.order) := Entry(LocOf(x.order), x.id)]
  {
    forall k | k in st'.index
      ensures IndexEntryOk(st', k) && (k in st.index ==> IndexEntryOk(st, k))
    {
    }
  }

  /** Putting a node into the layout is inserting its order in the flat queue and the flat index. */
  lemma AddNode<N>(st: Store<N>, st': Store<N>, n: N, x: Resting, m: nat)
    requires StoreOk(st) && AddsNode(st, st', n, x, m)
    ensures StoreOk(st')
    ensures var loc := LocOf(x.order);
            Queues(st') == Queues(st)[loc := Queues(st)[loc][..m] + [x] + Queues(st)[loc][m..]]
    ensures Entries(st') == Entries(st)[KeyOf(x.order) := Entry(LocOf(x.order), x.id)]
  {
    AddNodeOk(st, st', n, x, m);
    AddNodeQueues(st, st', n, x, m);
    AddNodeEntries(st, st', n, x, m);
  }

  // ---------- hitting a node ----------

  /** st' is st with the leaves of the first node of one side reduced. */
  ghost predicate HitsNode<N>(st: Store<N>, st': Store<N>, loc: Loc, qty: U64)
  {
    && loc in st.sides && loc in st'.sides && Nodes(st.sides[loc]) != []
    && var n := Nodes(st.sides[loc])[0];
    && n in st.heap && qty <= st.heap[n].order.leavesQty
    && st'.heap == st.heap[n := Hit(st.heap[n], qty)]
    && st'.index == st.index
    && st'.sides == st.sides[loc := st'.sides[loc]]
    && Nodes(st'.sides[loc]) == Nodes(st.sides[loc])
    && LevelsSorted(st'.heap, loc.side, st'.sides[loc])
  }

  lemma HitNodeSides<N>(st: Store<N>, st': Store<N>, loc: Loc, qty: U64, l: Loc)
    requires StoreOk(st) && HitsNode(st, st', loc, qty) && l in st.sides
    ensures SideLinked(st'.heap, l, st'.sides[l]) && LevelsSorted(st'.heap, l.side, st'.sides[l])
    ensures var q := QueueOf(st.heap, Nodes(st.sides[l]));
            QueueOf(st'.heap, Nodes(st'.sides[l])) == if l == loc then q[0 := Hit(q[0], qty)] else q
  {
    assert SideLinked(st.heap, l, st.sides[l]) && SideLinked(st.heap, loc, st.sides[loc]);
    var n := Nodes(st.sides[loc])[0];
    if l != loc {
      OnlyIn(st.heap, l, st.sides[l], n);
      LevelNodes(st.heap, l.side, st.sides[l], st'.heap);
    } else {
      var ns := Nodes(st.sides[l]);
      forall i | 0 < i < |ns|
        ensures ns[i] != n
      {
        DifferAt(ns, 0, i);
      }
    }
  }

  lemma HitNodeLinks<N>(st: Store<N>, st': Store<N>, loc: Loc, qty: U64)
    requires StoreOk(st) && HitsNode(st, st', loc, qty)
    ensures forall p :: p in st'.heap ==> NodeLinked(st', p) && NodeIndexed(st', p)
    ensures forall k :: k in st'.index ==> IndexEntryOk(st', k)
  {
    forall p | p in st'.heap
      ensures NodeLinked(st', p) && NodeIndexed(st', p)
    {
      assert NodeLinked(st, p) && NodeIndexed(st, p);
    }
    forall k | k in st'.index
      ensures IndexEntryOk(st', k)
    {
      assert IndexEntryOk(st, k);
    }
  }

  lemma HitNodeOk<N>(st: Store<N>, st': Store<N>, loc: Loc, qty: U64)
    requires StoreOk(st) && HitsNode(st, st', loc, qty)
    ensures StoreOk(st')
  {
    forall l | l in st.sides
      ensures SideLinked(st'.heap, l, st'.sides[l]) && LevelsSorted(st'.heap, l.side, st'.sides[l])
    {
      HitNodeSides(st, st', loc, qty, l);
    }
    HitNodeLinks(st, st', loc, qty);
  }

  lemma HitNodeQueues<N>(st: Store<N>, st': Store<N>, loc: Loc, qty: U64)
    requires StoreOk(st) && HitsNode(st, st', loc, qty)
    ensures Queues(st') == Queues(st)[loc := Queues(st)[loc][0 := Hit(Queues(st)[loc][0], qty)]]
  {
    var q := QueueOf(st.heap, Nodes(st.sides[loc]));
    forall l | l in st.sides
      ensures QueueOf(st'.heap, Nodes(st'.sides[l]))
           == if l == loc then q[0 := Hit(q[0], qty)] else QueueOf(st.heap, Nodes(st.sides[l]))
    {
      HitNodeSides(st, st', loc, qty, l);
    }
    QueuesUpdate(st, st', loc, q[0 := Hit(q[0], qty)]);
  }

  lemma HitNodeEntries<N>(st: Store<N>, st': Store<N>, loc: Loc, qty: U64)
    requires StoreOk(st) && HitsNode(st, st', loc, qty) && StoreOk(st')
    ensures Entries(st') == Entries(st)
  {
    forall k | k in st'.index
      ensures IndexEntryOk(st', k) && (k in st.index ==> IndexEntryOk(st, k))
    {
    }
  }

  /** Reducing the leaves of the first node of a side is hitting the head of its flat queue. */
  lemma HitNode<N>(st: Store<N>, st': Store<N>, loc: Loc, qty: U64)
    requires StoreOk(st) && HitsNode(st, st', loc, qty)
    ensures StoreOk(st')
    ensures Queues(st') == Queues(st)[loc := Queues(st)[loc][0 := Hit(Queues(st)[loc][0], qty)]]
    ensures Entries(st') == Entries(st)
  {
    HitNodeOk(st, st', loc, qty);
    HitNodeQueues(st, st', loc, qty);
    HitNodeEntries(st, st', loc, qty);
  }

}
