/**
 The engine's state as one value: memory layout, counters and the two streams. What each handler does to this value
 is shown to be what the flat engine does.
 */
module EngineView {
  import opened Wrappers
  import opened Types
  import opened PriceTimeQueue
  import opened FlatEngine
  import opened FlatInvariant
  import opened LevelStore
  import opened LevelOps
  import opened StoreSteps
  import opened MatchProgress

  datatype View<!N> = View(store: Store<N>, nextExec: U64, nextTrade: U64, nextId: nat, md: seq<MdEvent>,
      oe: seq<OeEvent>)

  /** The flat state a view stands for. */
  ghost function AbsOf<N>(v: View<N>): State
  {
    StateOf(v.store, v.nextExec, v.nextTrade, v.nextId)
  }

  /** Linked, indexed and live nodes agree, and the running totals are right. */
  ghost predicate Linked<N>(v: View<N>)
  {
    StoreOk(v.store) && TotalsOk(v.store)
  }

  /** What holds between requests. */
  ghost predicate Ready<N>(v: View<N>)
  {
    var ready :=
      Linked(v) && Tidy(v.store) && Inv(AbsOf(v));
    ready
  }

  /** From v to v' the engine did what the flat engine's output says. */
  ghost predicate Gives<N>(v: View<N>, v': View<N>, out: Output)
  {
    var given :=
      && Ready(v') && AbsOf(v') == out.state
      && v'.md == v.md + out.md && v'.oe == v.oe + out.oe;
    given
  }

  // ---------- single nodes ----------

  function WithSide<N>(st: Store<N>, loc: Loc, levels: seq<Level<N>>): Store<N>
  {
    Store(st.heap, st.sides[loc := levels], st.index)
  }

  /** First half of a hit: the front maker of level i and the level's total are reduced. */
  ghost function Reduced<N>(st: Store<N>, loc: Loc, i: nat, qty: U64): Store<N>
    requires CanHit(st, loc, i, qty)
  {
    var n := st.sides[loc][i].orders[0];
    Store(st.heap[n := Hit(st.heap[n], qty)], st.sides[loc := ReduceTotal(st.sides[loc], i, qty)], st.index)
  }

  function IndexIn<T(==)>(s: seq<T>, x: T): (i: nat)
    requires x in s
    ensures i < |s| && s[i] == x
  {
    if s[0] == x then 0 else 1 + IndexIn(s[1..], x)
  }

  /** Is the order linked in the level that its price names? */
  predicate LinkedAt<N(==)>(side: Side, levels: seq<Level<N>>, price: U64, n: N)
  {
    HasLevel(side, levels, price) && n in levels[LowerBound(side, levels, price)].orders
  }

  /** What cancelling leaves: the order unlinked, and its level erased when it was the last. */
  function CancelIn<N(==)>(side: Side, levels: seq<Level<N>>, price: U64, n: N, leaves: U64): seq<Level<N>>
    requires LinkedAt(side, levels, price, n)
  {
    var i := LowerBound(side, levels, price);
    var levels' := TakeFrom(levels, i, IndexIn(levels[i].orders, n), leaves);
    if levels'[i].orders == [] then RemoveAt(levels', i) else levels'
  }

  ghost predicate UnlinkedIn<N>(sides: map<Loc, seq<Level<N>>>, node: N)
  {
    forall loc {:trigger sides[loc]} :: loc in sides ==> node !in Nodes(sides[loc])
  }

  /** An order taken out of its level is linked nowhere. */
  lemma TakenUnlinked<N>(st: Store<N>, loc: Loc, i: nat, k: nat, leaves: U64)
    requires StoreOk(st) && loc in st.sides && i < |st.sides[loc]| && k < |st.sides[loc][i].orders|
    ensures UnlinkedIn(st.sides[loc := TakeFrom(st.sides[loc], i, k, leaves)], st.sides[loc][i].orders[k])
  {
    var n := st.sides[loc][i].orders[k];
    TakeFromNodes(st.sides[loc], i, k, leaves);
    NodeAt(st.sides[loc], i, k);
    assert SideLinked(st.heap, loc, st.sides[loc]);
    NoDuplicatesRemove(Nodes(st.sides[loc]), PositionOf(st.sides[loc], i, k));
    forall l | l in st.sides && l != loc
      ensures n !in Nodes(st.sides[l])
    {
      assert SideLinked(st.heap, l, st.sides[l]);
      OnlyIn(st.heap, l, st.sides[l], n);
    }
  }

  /** Reducing the total and then popping the front is taking the front order out. */
  lemma PoppedUnlinked<N>(st: Store<N>, loc: Loc, i: nat, qty: U64)
    requires StoreOk(st) && loc in st.sides && i < |st.sides[loc]| && st.sides[loc][i].orders != []
    ensures UnlinkedIn(st.sides[loc := PopAt(ReduceTotal(st.sides[loc], i, qty), i)], st.sides[loc][i].orders[0])
  {
    TakenUnlinked(st, loc, i, 0, qty);
    PopIsTake(st.sides[loc], i, qty);
  }

  /** The order at the front of level i is the head of the flat queue. */
  lemma FrontIs<N>(st: Store<N>, loc: Loc, i: nat)
    requires StoreOk(st) && loc in st.sides && i < |st.sides[loc]|
    requires EmptyBefore(st.sides[loc], i) && st.sides[loc][i].orders != []
    ensures var n := st.sides[loc][i].orders[0];
            && n in st.heap && Queues(st)[loc] != [] && Queues(st)[loc][0] == st.heap[n]
            && LocOf(st.heap[n].order) == loc && st.heap[n].order.price == st.sides[loc][i].price
            && KeyOf(st.heap[n].order) in st.index && st.index[KeyOf(st.heap[n].order)] == n
  {
    FrontNode(st.sides[loc], i);
    assert SideLinked(st.heap, loc, st.sides[loc]) && LevelsSorted(st.heap, loc.side, st.sides[loc]);
    assert NodeIndexed(st, st.sides[loc][i].orders[0]);
  }

  lemma EmptyLayout<N>(st: Store<N>)
    requires st.heap == map[] && st.index == map[] && forall loc :: loc in st.sides ==> st.sides[loc] == []
    ensures StoreOk(st) && TotalsOk(st) && Tidy(st)
    ensures Queues(st) == (map loc | loc in st.sides :: []) && Entries(st) == map[]
  {
  }

  /** Linked only once, the front order of level i can be popped and released. */
  ghost predicate CanPop<N>(st: Store<N>, loc: Loc, i: nat)
  {
    var possible :=
      && loc in st.sides && i < |st.sides[loc]| && st.sides[loc][i].orders != []
          && st.sides[loc][i].orders[0] in st.heap
      && UnlinkedIn(st.sides[loc := PopAt(st.sides[loc], i)], st.sides[loc][i].orders[0]);
    possible
  }

  /** Second half of a full hit: the spent maker leaves its level, the index and the pool. */
  ghost function Popped<N>(st: Store<N>, loc: Loc, i: nat): Store<N>
    requires CanPop(st, loc, i)
  {
    var n := st.sides[loc][i].orders[0];
    Store(st.heap - {n}, st.sides[loc := PopAt(st.sides[loc], i)], st.index - {KeyOf(st.heap[n].order)})
  }

  ghost predicate Spent<N>(st: Store<N>, loc: Loc, i: nat)
  {
    var spent :=
      && loc in st.sides && i < |st.sides[loc]| && st.sides[loc][i].orders != []
      && st.sides[loc][i].orders[0] in st.heap && st.heap[st.sides[loc][i].orders[0]].order.leavesQty == 0;
    spent
  }

  lemma HitHalves<N>(v: View<N>, loc: Loc, i: nat, qty: U64)
    requires Linked(v) && CanHit(v.store, loc, i, qty)
    ensures CanPop(Reduced(v.store, loc, i, qty), loc, i)
    ensures HitStore(v.store, loc, i, qty)
         == if Spent(Reduced(v.store, loc, i, qty), loc, i) then Popped(Reduced(v.store, loc, i, qty), loc, i)
            else Reduced(v.store, loc, i, qty)
  {
    var st := v.store;
    PoppedUnlinked(st, loc, i, qty);
    var st1, n := Reduced(st, loc, i, qty), st.sides[loc][i].orders[0];
    var levels := PopAt(st1.sides[loc], i);
    assert st1.sides[loc := levels] == st.sides[loc := levels];
    if qty == st.heap[n].order.leavesQty {
      HitStoreFull(st, loc, i, qty);
    }
  }

  // ---------- matching ----------

  /** Where a match started: the flat state, the side walked, the taker with its instance, and the streams before it. */
  datatype Walk = Walk(start: State, loc: Loc, taker: Order, takerId: nat, md: seq<MdEvent>, oe: seq<OeEvent>)

  /** A point of the walk: what the taker has left, and the fills so far. */
  datatype Point = Point(taker: Order, fills: seq<Fill>)

  /** What the walk tells its caller: how many trades, and the price the last one cleared. */
  datatype Tally = Tally(trades: nat, last: Option<U64>)

  /** The level being consumed: its position among count levels, and its price. */
  datatype Rung = Rung(i: nat, price: U64, count: nat)

  /** The walk that started in w has led to v at point p. */
  ghost predicate Walking<N>(w: Walk, v: View<N>, p: Point)
  {
    var walking :=
      && Linked(v)
      && Progress(w.start, AbsOf(v), w.loc, w.taker, p.taker, p.fills)
      && Coherent(AbsOf(v))
      && v.md == w.md + TradesFor(w.taker, w.takerId, p.fills, w.start.nextTrade) && v.oe == w.oe;
    walking
  }

  /** Every level before i is consumed; no level beyond it, and none on another side, is empty. */
  ghost predicate AtLevel<N>(st: Store<N>, loc: Loc, i: nat)
  {
    var at :=
      && loc in st.sides && i <= |st.sides[loc]| && EmptyBefore(st.sides[loc], i)
      && (forall j :: i < j < |st.sides[loc]| ==> st.sides[loc][j].orders != [])
      && (forall l {:trigger NoEmptyLevel(st.sides[l])} :: l in st.sides && l != loc ==> NoEmptyLevel(st.sides[l]));
    at
  }

  /** ... and level i itself still holds orders. */
  ghost predicate BeforeLevel<N>(st: Store<N>, loc: Loc, i: nat)
  {
    var before :=
      AtLevel(st, loc, i) && (i < |st.sides[loc]| ==> st.sides[loc][i].orders != []);
    before
  }

  ghost predicate CanTrade<N>(st: Store<N>, loc: Loc, i: nat, taker: Order)
  {
    CanHit(st, loc, i, 1) && taker.leavesQty > 0
  }

  /** The fill of a taker with the front order of level i. */
  ghost function FillAt<N>(st: Store<N>, loc: Loc, i: nat, taker: Order): Fill
    requires CanTrade(st, loc, i, taker)
  {
    var maker := st.heap[st.sides[loc][i].orders[0]];
    Fill(maker, Min(taker.leavesQty, maker.order.leavesQty))
  }

  /** One turn of the level loop: emit the trade, decrement maker and total, release a filled maker. */
  ghost function Traded<N>(v: View<N>, loc: Loc, i: nat, taker: Order, takerId: nat): View<N>
    requires CanTrade(v.store, loc, i, taker)
  {
    var f := FillAt(v.store, loc, i, taker);
    View(HitStore(v.store, loc, i, f.qty), v.nextExec, Succ(v.nextTrade), v.nextId,
         v.md + [TradeFor(taker, takerId, f, v.nextTrade)], v.oe)
  }

  lemma FrontCanBeHit<N>(v: View<N>, loc: Loc, i: nat)
    requires Linked(v) && Coherent(AbsOf(v)) && AtLevel(v.store, loc, i)
    requires i < |v.store.sides[loc]| && v.store.sides[loc][i].orders != []
    ensures CanHit(v.store, loc, i, 1)
    ensures var front := v.store.heap[v.store.sides[loc][i].orders[0]];
            && AbsOf(v).queues[loc] != [] && AbsOf(v).queues[loc][0] == front
            && front.order.price == v.store.sides[loc][i].price
  {
    FrontIs(v.store, loc, i);
    CoherentLive(AbsOf(v), loc);
  }

  /** One turn of the level loop is one step of the walk. */
  lemma TurnWalks<N>(w: Walk, v: View<N>, i: nat, p: Point)
    requires Walking(w, v, p) && CanTrade(v.store, w.loc, i, p.taker)
    requires Crosses(p.taker, v.store.heap[v.store.sides[w.loc][i].orders[0]].order.price)
    ensures Walking(w, Traded(v, w.loc, i, p.taker, w.takerId), AfterFill(p, FillAt(v.store, w.loc, i, p.taker)))
  {
    var s, f := AbsOf(v), FillAt(v.store, w.loc, i, p.taker);
    HitStep(v.store, w.loc, i, f.qty, v.nextExec, v.nextTrade, v.nextId);
    ProgressStep(w.start, s, w.loc, w.taker, p.taker, p.fills);
    TakeHeadCoherent(s, w.loc, f.qty);
    TradesSnoc(w.taker, p.taker, w.takerId, p.fills, f, w.start.nextTrade);
  }

  function AfterFill(p: Point, f: Fill): Point
    requires f.qty <= p.taker.leavesQty
  {
    Point(Take(p.taker, f.qty), p.fills + [f])
  }

  /** It pops the front order unless the taker is spent, and changes no other level. */
  lemma TurnStays<N>(v: View<N>, loc: Loc, i: nat, t: Order, takerId: nat)
    requires AtLevel(v.store, loc, i) && CanTrade(v.store, loc, i, t)
    ensures var v', was := Traded(v, loc, i, t, takerId), v.store.sides[loc];
            && AtLevel(v'.store, loc, i) && SameButLevel(was, v'.store.sides[loc], i)
            && (FillAt(v.store, loc, i, t).qty == t.leavesQty || v'.store.sides[loc][i].orders == was[i].orders[1..])
  {
    var f := FillAt(v.store, loc, i, t);
    HitShape(v.store, loc, i, f.qty);
  }

  /** The walk is consuming this level, which the taker crosses. */
  ghost predicate InLevel<N>(w: Walk, v: View<N>, at: Rung, p: Point)
  {
    var inside :=
      && Walking(w, v, p) && AtLevel(v.store, w.loc, at.i)
      && at.i < |v.store.sides[w.loc]| == at.count
      && v.store.sides[w.loc][at.i].price == at.price && Crosses(p.taker, at.price);
    inside
  }

  /** The price that the last of the fills cleared. */
  function LastPrice(fills: seq<Fill>): Option<U64>
  {
    if fills == [] then None else Some(fills[|fills| - 1].maker.order.price)
  }

  lemma TurnInLevel<N>(w: Walk, v: View<N>, at: Rung, p: Point)
    requires InLevel(w, v, at, p) && v.store.sides[w.loc][at.i].orders != [] && p.taker.leavesQty > 0
    ensures CanTrade(v.store, w.loc, at.i, p.taker)
    ensures var f := FillAt(v.store, w.loc, at.i, p.taker);
            && f.maker.order.price == at.price && f.qty > 0
            && InLevel(w, Traded(v, w.loc, at.i, p.taker, w.takerId), at, AfterFill(p, f))
  {
    FrontCanBeHit(v, w.loc, at.i);
    TurnWalks(w, v, at.i, p);
    TurnStays(v, w.loc, at.i, p.taker, w.takerId);
  }

  /** From one point to another the level has given the taker so many trades, all at its price. */
  ghost predicate Consumed<N>(w: Walk, v: View<N>, at: Rung, from: Point, now: Point, trades: nat)
  {
    var consumed :=
      && InLevel(w, v, at, now)
      && now.taker == from.taker.(leavesQty := now.taker.leavesQty) && |now.fills| == |from.fills| + trades
      && (if trades == 0 then now.taker == from.taker && v.store.sides[w.loc][at.i].orders != []
          else LastPrice(now.fills) == Some(at.price));
    consumed
  }

  /** Its FIFO is empty or the taker is spent. */
  ghost predicate LevelDone<N>(v: View<N>, loc: Loc, i: nat, t: Order)
  {
    var done :=
      loc in v.store.sides && i < |v.store.sides[loc]| && (t.leavesQty == 0 || v.store.sides[loc][i].orders == []);
    done
  }

  lemma TurnConsumes<N>(w: Walk, v: View<N>, at: Rung, from: Point, now: Point, trades: nat)
    requires Consumed(w, v, at, from, now, trades) && !LevelDone(v, w.loc, at.i, now.taker)
    ensures CanTrade(v.store, w.loc, at.i, now.taker) && Linked(v) && AtLevel(v.store, w.loc, at.i)
    ensures var f := FillAt(v.store, w.loc, at.i, now.taker);
            && f.qty > 0
            && Consumed(w, Traded(v, w.loc, at.i, now.taker, w.takerId), at, from, AfterFill(now, f), trades + 1)
  {
    TurnInLevel(w, v, at, now);
  }

  /** A whole match against one side: the flat match, its trades emitted, and the summary returned for it. */
  ghost predicate MatchedInto<N>(v: View<N>, v': View<N>, loc: Loc, taker: Order, takerId: nat,
                                 m: Matched, trades: nat, last: Option<U64>)
  {
    var matched :=
      && Linked(v') && Tidy(v'.store)
      && loc in AbsOf(v).queues && m == Match(AbsOf(v).queues[loc], taker)
      && AbsOf(v') == Consume(AbsOf(v), loc, m)
      && v'.md == v.md + TradesFor(taker, takerId, m.fills, v.nextTrade)
      && v'.oe == v.oe && trades == |m.fills| && last == LastPrice(m.fills);
    matched
  }

  /** The walk stands before level it of count, and its tally is that of the fills so far. */
  ghost predicate AtWalk<N>(w: Walk, v: View<N>, it: nat, count: nat, now: Point, tally: Tally)
  {
    var at :=
      && Walking(w, v, now) && BeforeLevel(v.store, w.loc, it) && |v.store.sides[w.loc]| == count
      && now.taker == w.taker.(leavesQty := now.taker.leavesQty)
      && tally == Tally(|now.fills|, LastPrice(now.fills)) && (it > 0 ==> tally.trades > 0);
    at
  }

  /** The walk may stop here: the side is exhausted, the taker is spent, or the next level does not cross. */
  ghost predicate AtStop<N>(v: View<N>, loc: Loc, it: nat, t: Order)
  {
    var stop :=
      loc in v.store.sides
      && (it >= |v.store.sides[loc]| || t.leavesQty == 0 || !Crosses(t, v.store.sides[loc][it].price));
    stop
  }

  /** The level that the walk faces. */
  ghost function RungAt<N>(v: View<N>, loc: Loc, it: nat): Rung
    requires loc in v.store.sides && it < |v.store.sides[loc]|
  {
    Rung(it, v.store.sides[loc][it].price, |v.store.sides[loc]|)
  }

  /** Facing a level that crosses. */
  lemma EnterLevel<N>(w: Walk, v: View<N>, it: nat, count: nat, now: Point, tally: Tally)
    requires AtWalk(w, v, it, count, now, tally) && !AtStop(v, w.loc, it, now.taker)
    ensures Consumed(w, v, RungAt(v, w.loc, it), now, now, 0) && RungAt(v, w.loc, it).count == count
    ensures !LevelDone(v, w.loc, it, now.taker)
  {
  }

  /** After a level: step on when it is empty, stay when it is not. */
  lemma LeaveLevel<N>(w: Walk, v0: View<N>, v: View<N>, at: Rung, from: Point, now: Point, before: Tally, trades: nat)
    requires AtWalk(w, v0, at.i, at.count, from, before) && !AtStop(v0, w.loc, at.i, from.taker)
    requires Consumed(w, v, at, from, now, trades) && LevelDone(v, w.loc, at.i, now.taker)
    ensures trades > 0
    ensures var after := Tally(before.trades + trades, Some(at.price));
            if v.store.sides[w.loc][at.i].orders == [] then AtWalk(w, v, at.i + 1, at.count, now, after)
            else AtWalk(w, v, at.i, at.count, now, after) && AtStop(v, w.loc, at.i, now.taker)
  {
    hide Walking, NoEmptyLevel;
  }

  lemma WalkStarts<N>(v: View<N>, loc: Loc, taker: Order, takerId: nat)
    requires Ready(v) && loc in v.store.sides
    ensures AtWalk(Walk(AbsOf(v), loc, taker, takerId, v.md, v.oe), v, 0, |v.store.sides[loc]|, Point(taker, []),
        Tally(0, None))
  {
    ProgressStart(AbsOf(v), loc, taker);
    assert NoEmptyLevel(v.store.sides[loc]);
  }

  lemma TrimTidy<N>(st: Store<N>, loc: Loc, it: nat)
    requires BeforeLevel(st, loc, it)
    ensures Tidy(WithSide(st, loc, st.sides[loc][it..]))
  {
    var st' := WithSide(st, loc, st.sides[loc][it..]);
    forall l | l in st'.sides
      ensures NoEmptyLevel(st'.sides[l])
    {
      assert l != loc ==> NoEmptyLevel(st.sides[l]);
    }
  }

  /** The walk stops only where the flat machine would. */
  lemma WalkStops<N>(w: Walk, v: View<N>, it: nat, p: Point)
    requires Walking(w, v, p) && BeforeLevel(v.store, w.loc, it) && AtStop(v, w.loc, it, p.taker)
    ensures Matched(p.fills, AbsOf(v).queues[w.loc], p.taker) == Match(w.start.queues[w.loc], w.taker)
    ensures AbsOf(v) == Consume(w.start, w.loc, Match(w.start.queues[w.loc], w.taker))
  {
    if it < |v.store.sides[w.loc]| {
      FrontCanBeHit(v, w.loc, it);
    } else {
      NodesEmpty(v.store.sides[w.loc]);
    }
    ProgressEnd(w.start, AbsOf(v), w.loc, w.taker, p.taker, p.fills);
  }

  /** When the walk stops, erasing the consumed levels leaves the flat match of the whole queue. */
  lemma WalkEnds<N>(v0: View<N>, v: View<N>, v': View<N>, w: Walk, it: nat, count: nat, now: Point, tally: Tally)
    requires AtWalk(w, v, it, count, now, tally) && AtStop(v, w.loc, it, now.taker)
    requires w.start == AbsOf(v0) && w.md == v0.md && w.oe == v0.oe
    requires v' == if tally.trades > 0 then v.(store := WithSide(v.store, w.loc, v.store.sides[w.loc][it..])) else v
    ensures MatchedInto(v0, v', w.loc, w.taker, w.takerId, Matched(now.fills, AbsOf(v).queues[w.loc], now.taker),
                        tally.trades, tally.last)
  {
    hide Match, TradesFor, NoEmptyLevel, StoreOk, Coherent, Consume;
    if tally.trades == 0 {
      assert v.store.sides[w.loc][it..] == v.store.sides[w.loc];
      assert v.store.sides[w.loc := v.store.sides[w.loc]] == v.store.sides;
    }
    WalkStops(w, v, it, now);
    TrimStep(v.store, w.loc, it);
    TrimTidy(v.store, w.loc, it);
  }

}
