/**
 The matching engine over pool nodes, intrusive FIFOs, side maps and the identity index. Every handler is proved to
 do to the flat state, and to append to the two event streams, exactly what the flat engine does.
 */
module MatchingEngine {
  import opened Wrappers
  import opened Types
  import opened PriceTimeQueue
  import opened FlatEngine
  import opened FlatInvariant
  import opened LevelStore
  import opened LevelOps
  import opened StoreSteps
  import opened EngineView
  import opened HandlerSteps

  /** One resting order and its instance number, which is for specification only. */
  class OrderNode {
    ghost const instance: nat
    var data: Order

    constructor (data: Order, ghost instance: nat)
      ensures this.data == data && this.instance == instance
    {
      this.data := data;
      this.instance := instance;
    }
  }

  /** One side of one book: price levels, best first. */
  class SideMap {
    const side: Side
    ghost const symbol: Symbol
    var levels: seq<Level<OrderNode>>

    constructor (side: Side, ghost symbol: Symbol)
      ensures this.side == side && this.symbol == symbol && levels == []
    {
      this.side := side;
      this.symbol := symbol;
      this.levels := [];
    }

    method PlaceInto(node: OrderNode)
      modifies this
      ensures levels == PlaceIn(side, old(levels), node.data.price, node, node.data.leavesQty)
    {
      var i := LowerBound(side, levels, node.data.price);
      levels := WithLevel(side, levels, node.data.price);
      levels := levels[i := levels[i].(orders := levels[i].orders + [node])];
      levels := levels[i := levels[i].(total := Wrap(levels[i].total + node.data.leavesQty))];
    }

    method CancelFrom(node: OrderNode)
      requires LinkedAt(side, levels, node.data.price, node)
      modifies this
      ensures levels == CancelIn(side, old(levels), node.data.price, node, node.data.leavesQty)
    {
      var i := LowerBound(side, levels, node.data.price);
      assert i < |levels| && levels[i].price == node.data.price;
      levels := levels[i := levels[i].(total := Wrap(levels[i].total - node.data.leavesQty))];
      levels := levels[i := levels[i].(orders := RemoveAt(levels[i].orders, IndexIn(levels[i].orders, node)))];
      if levels[i].orders == [] {
        levels := RemoveAt(levels, i);
      }
    }

    function Best(): Option<U64>
      reads this
    {
      if levels == [] then None else Some(levels[0].price)
    }

    function BestLevel(): Option<Snapshot>
      reads this
    {
      if levels == [] then None else Some(Snapshot(levels[0].price, levels[0].total))
    }
  }

  class OrderBook {
    const bids: SideMap
    const asks: SideMap

    constructor (ghost symbol: Symbol)
      ensures fresh(bids) && fresh(asks)
      ensures bids.side == Buy && asks.side == Sell && bids.symbol == symbol && asks.symbol == symbol
      ensures bids.levels == [] && asks.levels == []
    {
      bids := new SideMap(Buy, symbol);
      asks := new SideMap(Sell, symbol);
    }

    function SideOf(side: Side): SideMap
    {
      if side == Buy then bids else asks
    }

    method Place(node: OrderNode)
      requires SideOf(node.data.side).side == node.data.side
      modifies SideOf(node.data.side)
      ensures SideOf(node.data.side).levels
           == PlaceIn(node.data.side, old(SideOf(node.data.side).levels), node.data.price, node, node.data.leavesQty)
    {
      match node.data.side
      case Buy => bids.PlaceInto(node);
      case Sell => asks.PlaceInto(node);
    }

    method Cancel(node: OrderNode)
      requires SideOf(node.data.side).side == node.data.side
      requires LinkedAt(node.data.side, SideOf(node.data.side).levels, node.data.price, node)
      modifies SideOf(node.data.side)
      ensures SideOf(node.data.side).levels
           == CancelIn(node.data.side, old(SideOf(node.data.side).levels), node.data.price, node, node.data.leavesQty)
    {
      match node.data.side
      case Buy => bids.CancelFrom(node);
      case Sell => asks.CancelFrom(node);
    }

    function Best(side: Side): Option<U64>
      reads SideOf(side)
    {
      SideOf(side).Best()
    }

    function BestLevel(side: Side): Option<Snapshot>
      reads SideOf(side)
    {
      SideOf(side).BestLevel()
    }
  }

  /** The taker is the buyer exactly when it buys; the trade has no number yet. */
  function MakeTrade(taker: Order, maker: Order, levelPrice: U64, fillQty: U64): TradeMsg
  {
    var buyer := if taker.side == Buy then taker else maker;
    var seller := if taker.side == Buy then maker else taker;
    TradeMsg(taker.securityId, 0, levelPrice, fillQty, buyer.clOrdId, seller.clOrdId)
  }

  /** On emission a made trade is the flat engine's trade of the same fill. */
  lemma MadeTrade(taker: Order, takerId: nat, f: Fill, tradeId: U64)
    ensures MdEvent.Trade(MakeTrade(taker, f.maker.order, f.maker.order.price, f.qty).(tradeId := tradeId),
                          taker.symbol, takerId, f.maker.id)
         == TradeFor(taker, takerId, f, tradeId)
  {
  }

  /** What a level's orders have left, taken together. */
  function LeavesSum(orders: seq<OrderNode>): nat
    reads orders
  {
    if orders == [] then 0 else orders[0].data.leavesQty + LeavesSum(orders[1..])
  }

  class Engine {
    const books: map<Symbol, OrderBook>
    var pool: set<OrderNode>
    var index: map<Key, OrderNode>
    var nextExec: U64
    var nextTrade: U64

    // For specification: the state as a value, with both streams, and the requests so far.
    ghost var view: View<OrderNode>
    ghost var history: seq<Request>

    ghost function SideMaps(): set<SideMap>
    {
      (set symbol | symbol in books :: books[symbol].bids) + (set symbol | symbol in books :: books[symbol].asks)
    }

    ghost function SideAt(loc: Loc): SideMap
      requires loc.symbol in books
    {
      books[loc.symbol].SideOf(loc.side)
    }

    /** Each side map knows its place, so no two places share one. */
    ghost predicate WellFormed()
    {
      var placed :=
        forall symbol {:trigger books[symbol]} :: symbol in books ==>
          && books[symbol].bids.side == Buy && books[symbol].asks.side == Sell
          && books[symbol].bids.symbol == symbol && books[symbol].asks.symbol == symbol;
      placed
    }

    ghost predicate NodesMirrored()
      reads this`view, this`pool, pool
    {
      var same :=
        && view.store.heap.Keys == pool
        && forall n {:trigger view.store.heap[n]} :: n in pool ==> view.store.heap[n] == Resting(n.instance, n.data);
      same
    }

    ghost predicate SidesMirrored()
      reads this`view, SideMaps()
    {
      var same :=
        && view.store.sides.Keys == SidesOf(books.Keys)
        && forall loc {:trigger view.store.sides[loc]} :: loc in view.store.sides ==>
             loc.symbol in books && SideAt(loc).levels == view.store.sides[loc];
      same
    }

    /** The view is what the live nodes, the side maps, the index and the counters hold. */
    ghost predicate Mirrored()
      reads this`view, this`pool, this`index, this`nextExec, this`nextTrade, pool, SideMaps()
    {
      var same :=
        && WellFormed() && NodesMirrored() && SidesMirrored()
        && view.store.index == index && view.nextExec == nextExec && view.nextTrade == nextTrade;
      same
    }

    /** The flat state the engine stands for. */
    ghost function Abs(): State
      reads this`view
    {
      AbsOf(view)
    }

    /** Between requests: everything is as the flat engine would have it after the same requests. */
    ghost predicate Valid()
      reads this, pool, SideMaps()
    {
      Mirrored() && Ready(view) && Output(Abs(), view.md, view.oe) == Run(Initial(books.Keys), history)
    }

    // ---------- construction ----------

    static ghost predicate EmptyBook(symbol: Symbol, book: OrderBook)
      reads book.bids, book.asks
    {
      && book.bids.side == Buy && book.asks.side == Sell
      && book.bids.symbol == symbol && book.asks.symbol == symbol
      && book.bids.levels == [] && book.asks.levels == []
    }

    /** One empty book per configured symbol; a repeated symbol keeps its first book. */
    static method OpenBooks(validSymbols: seq<Symbol>) returns (opened_: map<Symbol, OrderBook>)
      ensures opened_.Keys == set symbol | symbol in validSymbols
      ensures forall symbol {:trigger opened_[symbol]} :: symbol in opened_ ==> EmptyBook(symbol, opened_[symbol])
      ensures forall symbol {:trigger opened_[symbol]} :: symbol in opened_ ==>
                fresh(opened_[symbol].bids) && fresh(opened_[symbol].asks)
    {
      opened_ := map[];
      for i := 0 to |validSymbols|
        invariant opened_.Keys == set symbol | symbol in validSymbols[..i]
        invariant forall symbol {:trigger opened_[symbol]} :: symbol in opened_ ==> EmptyBook(symbol, opened_[symbol])
        invariant forall symbol {:trigger opened_[symbol]} :: symbol in opened_ ==>
                    fresh(opened_[symbol].bids) && fresh(opened_[symbol].asks)
      {
        if validSymbols[i] !in opened_ {
          var book := new OrderBook(validSymbols[i]);
          opened_ := opened_[validSymbols[i] := book];
        }
      }
    }

    constructor (validSymbols: seq<Symbol>)
      ensures Valid() && history == [] && view.md == [] && view.oe == []
      ensures books.Keys == (set symbol | symbol in validSymbols) && pool == {}
      ensures fresh(SideMaps())
    {
      var opened_ := OpenBooks(validSymbols);
      books := opened_;
      pool, index, nextExec, nextTrade := {}, map[], 1, 1;
      view := View(Store(map[], map loc | loc in SidesOf(opened_.Keys) :: [], map[]), 1, 1, 0, [], []);
      history := [];
      new;
      StartsValid();
    }

    lemma StartsValid()
      requires WellFormed() && pool == {} && index == map[] && nextExec == 1 && nextTrade == 1 && history == []
      requires view == View(Store(map[], map loc | loc in SidesOf(books.Keys) :: [], map[]), 1, 1, 0, [], [])
      requires forall symbol {:trigger books[symbol]} :: symbol in books ==> EmptyBook(symbol, books[symbol])
      ensures Valid()
    {
      EmptyLayout(view.store);
      assert Abs() == Initial(books.Keys);
      InitialInv(books.Keys);
    }

    // ---------- keeping the view in step ----------

    ghost predicate Owns(sm: SideMap)
    {
      sm.symbol in books && sm == SideAt(Loc(sm.symbol, sm.side))
    }

    lemma MirrorAt(sm: SideMap)
      requires Mirrored() && Owns(sm)
      ensures Loc(sm.symbol, sm.side) in view.store.sides && view.store.sides[Loc(sm.symbol, sm.side)] == sm.levels
    {
      assert sm.side in {Buy, Sell};
      assert Loc(sm.symbol, sm.side) in SidesOf(books.Keys);
    }

    /** Every side map but this one is as it was. */
    ghost predicate OthersMirrored(sm: SideMap, sides: map<Loc, seq<Level<OrderNode>>>)
      reads SideMaps()
    {
      var same :=
        && sides.Keys == SidesOf(books.Keys)
        && forall loc {:trigger sides[loc]} :: loc in sides ==>
             loc.symbol in books && (SideAt(loc) != sm ==> SideAt(loc).levels == sides[loc]);
      same
    }

    /** A side map's place tells it apart from every other, so changing it is one update of the view. */
    ghost method NoteSide(sm: SideMap)
      requires WellFormed() && NodesMirrored() && Owns(sm) && OthersMirrored(sm, view.store.sides)
      requires view.store.index == index && view.nextExec == nextExec && view.nextTrade == nextTrade
      modifies this`view
      ensures Mirrored()
      ensures view == old(view).(store := WithSide(old(view).store, Loc(sm.symbol, sm.side), sm.levels))
    {
      view := view.(store := WithSide(view.store, Loc(sm.symbol, sm.side), sm.levels));
      SideKept(sm, old(view).store.sides);
    }

    method SetLevels(sm: SideMap, levels: seq<Level<OrderNode>>)
      requires Mirrored() && Owns(sm)
      modifies this`view, sm
      ensures Mirrored() && sm.levels == levels
      ensures view == old(view).(store := WithSide(old(view).store, Loc(sm.symbol, sm.side), levels))
    {
      sm.levels := levels;
      NoteSide(sm);
    }

    lemma SideKept(sm: SideMap, was: map<Loc, seq<Level<OrderNode>>>)
      requires WellFormed() && Owns(sm)
      requires OthersMirrored(sm, was)
      requires view.store.sides == was[Loc(sm.symbol, sm.side) := sm.levels]
      ensures SidesMirrored()
    {
      forall loc | loc in view.store.sides
        ensures loc.symbol in books && SideAt(loc).levels == view.store.sides[loc]
      {
        assert loc in was;
        assert SideAt(loc).symbol == loc.symbol && SideAt(loc).side == loc.side;
      }
    }

    method SetLeaves(node: OrderNode, leaves: U64)
      requires Mirrored() && node in pool
      modifies this`view, node
      ensures Mirrored() && node.data == old(node.data).(leavesQty := leaves)
      ensures view == old(view).(store := Store(old(view).store.heap[node := Resting(node.instance, node.data)],
                                                old(view).store.sides, old(view).store.index))
    {
      node.data := node.data.(leavesQty := leaves);
      view := view.(store := Store(view.store.heap[node := Resting(node.instance, node.data)], view.store.sides,
            view.store.index));
    }

    // ---------- pool and callbacks ----------

    /** A fresh node is live at once; it is linked and indexed by its user. */
    method AllocateNode(data: Order, ghost instance: nat) returns (node: OrderNode)
      requires Mirrored()
      modifies this`pool, this`view
      ensures fresh(node) && node.data == data && node.instance == instance
      ensures Mirrored() && pool == old(pool) + {node} && node !in old(view).store.heap
      ensures view == old(view).(store := Store(old(view).store.heap[node := Resting(instance, data)],
                                                old(view).store.sides, old(view).store.index))
    {
      node := new OrderNode(data, instance);
      pool := pool + {node};
      view := view.(store := Store(view.store.heap[node := Resting(instance, data)], view.store.sides,
          view.store.index));
    }

    /** Only a live node that no FIFO links may go back to the pool. */
    method ReleaseNode(node: OrderNode)
      requires Mirrored() && node in pool && UnlinkedIn(view.store.sides, node)
      modifies this`pool, this`view
      ensures Mirrored() && pool == old(pool) - {node}
      ensures view == old(view).(store := Store(old(view).store.heap - {node}, old(view).store.sides,
          old(view).store.index))
    {
      pool := pool - {node};
      view := view.(store := Store(view.store.heap - {node}, view.store.sides, view.store.index));
    }

    method EraseIndex(key: Key)
      requires Mirrored()
      modifies this`index, this`view
      ensures Mirrored()
      ensures view == old(view).(store := Store(old(view).store.heap, old(view).store.sides,
          old(view).store.index - {key}))
    {
      index := index - {key};
      view := view.(store := Store(view.store.heap, view.store.sides, index));
    }

    method EmplaceIndex(key: Key, node: OrderNode)
      requires Mirrored()
      modifies this`index, this`view
      ensures Mirrored()
      ensures view == old(view).(store := Store(old(view).store.heap, old(view).store.sides,
          old(view).store.index[key := node]))
    {
      index := index[key := node];
      view := view.(store := Store(view.store.heap, view.store.sides, index));
    }

    /** The view loses one node and that node's key, and nothing else. */
    method OnRelease(consumed: OrderNode)
      requires Mirrored() && consumed in pool && UnlinkedIn(view.store.sides, consumed)
      modifies this`pool, this`index, this`view
      ensures Mirrored() && pool <= old(pool)
      ensures view == old(view).(store := Store(old(view).store.heap - {consumed}, old(view).store.sides,
                                                old(view).store.index - {KeyOf(consumed.data)}))
    {
      EraseIndex(KeyOf(consumed.data));
      ReleaseNode(consumed);
    }

    method OnTrade(trade: TradeMsg, ghost symbol: Symbol, ghost taker: nat, ghost maker: nat)
      requires Mirrored()
      modifies this`nextTrade, this`view
      ensures Mirrored()
      ensures view == old(view).(nextTrade := Succ(old(view).nextTrade),
                md := old(view).md + [MdEvent.Trade(trade.(tradeId := old(view).nextTrade), symbol, taker, maker)])
    {
      ghost var numbered := trade.(tradeId := nextTrade);
      nextTrade := Succ(nextTrade);
      view := view.(nextTrade := nextTrade, md := view.md + [MdEvent.Trade(numbered, symbol, taker, maker)]);
    }

    // ---------- matching ----------

    /** The view's front order of level i and that level's total both lose qty. */
    method ReduceFront(sm: SideMap, i: nat, qty: U64)
      requires Mirrored() && Owns(sm) && CanHit(view.store, Loc(sm.symbol, sm.side), i, qty)
      modifies this`view, pool, sm
      ensures Mirrored()
      ensures view == old(view).(store := Reduced(old(view).store, Loc(sm.symbol, sm.side), i, qty))
    {
      MirrorAt(sm);
      var maker := sm.levels[i].orders[0];
      SetLeaves(maker, maker.data.leavesQty - qty);
      SetLevels(sm, ReduceTotal(sm.levels, i, qty));
    }

    /** The view loses the front order of level i: from the level, the index and the pool. */
    method PopFront(sm: SideMap, i: nat)
      requires Mirrored() && Owns(sm) && CanPop(view.store, Loc(sm.symbol, sm.side), i)
      modifies this`pool, this`index, this`view, sm
      ensures Mirrored() && pool <= old(pool)
      ensures view == old(view).(store := Popped(old(view).store, Loc(sm.symbol, sm.side), i))
    {
      MirrorAt(sm);
      var maker := sm.levels[i].orders[0];
      SetLevels(sm, PopAt(sm.levels, i));
      OnRelease(maker);
    }

    lemma FrontIsSpent(sm: SideMap, i: nat)
      requires Mirrored() && Owns(sm) && CanPop(view.store, Loc(sm.symbol, sm.side), i)
      ensures i < |sm.levels| && sm.levels[i].orders != []
      ensures sm.levels[i].orders[0].data.leavesQty == 0 <==> Spent(view.store, Loc(sm.symbol, sm.side), i)
    {
      MirrorAt(sm);
    }

    /** A whole hit: the view becomes `HitStore`, the front order popped exactly when nothing of it remains. */
    method HitFront(sm: SideMap, i: nat, qty: U64)
      requires Mirrored() && Owns(sm) && Linked(view) && CanHit(view.store, Loc(sm.symbol, sm.side), i, qty)
      modifies this`pool, this`index, this`view, pool, sm
      ensures Mirrored() && pool <= old(pool)
      ensures view == old(view).(store := HitStore(old(view).store, Loc(sm.symbol, sm.side), i, qty))
    {
      hide *;
      HitHalves(view, Loc(sm.symbol, sm.side), i, qty);
      ReduceFront(sm, i, qty);
      FrontIsSpent(sm, i);
      if sm.levels[i].orders[0].data.leavesQty == 0 {
        PopFront(sm, i);
      }
    }

    /** The view gains one trade, with the fill that `FillAt` names, and the taker has that much less to fill. */
    method TradeWithFront(sm: SideMap, i: nat, taker: Order, ghost takerId: nat) returns (t: Order)
      requires Mirrored() && Owns(sm) && Linked(view) && AtLevel(view.store, Loc(sm.symbol, sm.side), i)
      requires CanTrade(view.store, Loc(sm.symbol, sm.side), i, taker)
      modifies this`pool, this`index, this`nextTrade, this`view, pool, sm
      ensures Mirrored() && pool <= old(pool)
      ensures view == Traded(old(view), Loc(sm.symbol, sm.side), i, taker, takerId)
      ensures t == Take(taker, FillAt(old(view).store, Loc(sm.symbol, sm.side), i, taker).qty)
    {
      MirrorAt(sm);
      var maker := sm.levels[i].orders[0];
      var fillQty := Min(taker.leavesQty, maker.data.leavesQty);
      FrontIs(view.store, Loc(sm.symbol, sm.side), i);
      MadeTrade(taker, takerId, FillAt(view.store, Loc(sm.symbol, sm.side), i, taker), nextTrade);
      OnTrade(MakeTrade(taker, maker.data, sm.levels[i].price, fillQty), taker.symbol, takerId, maker.instance);
      t := Take(taker, fillQty);
      HitFront(sm, i, fillQty);
    }

    /** Afterwards level i is empty or the taker spent, and the trades counted all cleared at the level's price. */
    method ConsumeLevel(sm: SideMap, i: nat, taker: Order, ghost w: Walk, ghost at: Rung, ghost from: Point)
      returns (trades: nat, t: Order, ghost now: Point)
      requires Mirrored() && Owns(sm) && w.loc == Loc(sm.symbol, sm.side) && at.i == i && from.taker == taker
      requires Consumed(w, view, at, from, from, 0)
      modifies this`pool, this`index, this`nextTrade, this`view, pool, sm
      ensures Mirrored() && pool <= old(pool) && now.taker == t
      ensures Consumed(w, view, at, from, now, trades) && LevelDone(view, w.loc, i, t)
    {
      hide Traded, Mirrored, CanTrade, FillAt;
      trades, t, now := 0, taker, from;
      MirrorAt(sm);
      while sm.levels[i].orders != [] && t.leavesQty > 0
        invariant Mirrored() && pool <= old(pool) && now.taker == t
        invariant w.loc in view.store.sides && sm.levels == view.store.sides[w.loc]
        invariant Consumed(w, view, at, from, now, trades)
        decreases t.leavesQty
      {
        TurnConsumes(w, view, at, from, now, trades);
        now := AfterFill(now, FillAt(view.store, w.loc, i, t));
        t := TradeWithFront(sm, i, t, w.takerId);
        trades := trades + 1;
        MirrorAt(sm);
      }
    }

    /** The walk ends before a level where it must stop, every earlier level consumed and every trade accounted for. */
    method WalkLevels(sm: SideMap, taker: Order, ghost w: Walk)
      returns (it: nat, trades: nat, last: Option<U64>, t: Order, ghost now: Point)
      requires Mirrored() && Owns(sm) && w.loc == Loc(sm.symbol, sm.side)
      requires AtWalk(w, view, 0, |sm.levels|, Point(taker, []), Tally(0, None))
      modifies this`pool, this`index, this`nextTrade, this`view, pool, sm
      ensures Mirrored() && pool <= old(pool) && now.taker == t
      ensures AtWalk(w, view, it, old(|sm.levels|), now, Tally(trades, last)) && AtStop(view, w.loc, it, t)
    {
      hide Mirrored, Walking, BeforeLevel;
      it, trades, last, t, now := 0, 0, None, taker, Point(taker, []);
      MirrorAt(sm);
      ghost var count := |sm.levels|;
      while it < |sm.levels| && t.leavesQty > 0 && Crosses(t, sm.levels[it].price)
        invariant Mirrored() && pool <= old(pool) && it <= |sm.levels| == count && now.taker == t
        invariant w.loc in view.store.sides && sm.levels == view.store.sides[w.loc]
        invariant AtWalk(w, view, it, count, now, Tally(trades, last))
        decreases count - it
      {
        ghost var v0, from, at := view, now, RungAt(view, w.loc, it);
        EnterLevel(w, view, it, count, now, Tally(trades, last));
        var price, levelTrades := sm.levels[it].price, 0;
        levelTrades, t, now := ConsumeLevel(sm, it, t, w, at, from);
        LeaveLevel(w, v0, view, at, from, now, Tally(trades, last), levelTrades);
        if levelTrades > 0 {
          last, trades := Some(price), trades + levelTrades;
        }
        MirrorAt(sm);
        if sm.levels[it].orders == [] {
          it := it + 1;
        } else {
          break;
        }
      }
    }

    /** The view is that of the whole flat match of the side's queue, with the match's count and last price returned. */
    method Match(sm: SideMap, taker: Order, ghost takerId: nat)
      returns (trades: nat, last: Option<U64>, t: Order, ghost m: Matched)
      requires Mirrored() && Owns(sm) && Ready(view)
      modifies this`pool, this`index, this`nextTrade, this`view, pool, sm
      ensures Mirrored() && pool <= old(pool)
      ensures MatchedInto(old(view), view, Loc(sm.symbol, sm.side), taker, takerId, m, trades, last) && t == m.taker
    {
      ghost var w := Walk(AbsOf(view), Loc(sm.symbol, sm.side), taker, takerId, view.md, view.oe);
      ghost var now, count := Point(taker, []), |sm.levels|;
      MirrorAt(sm);
      WalkStarts(view, w.loc, taker, takerId);
      var it;
      it, trades, last, t, now := WalkLevels(sm, taker, w);
      MirrorAt(sm);
      m := Matched(now.fills, Abs().queues[w.loc], t);
      ghost var v := view;
      if trades > 0 {
        SetLevels(sm, sm.levels[it..]);
      }
      WalkEnds(old(view), v, view, w, it, count, now, Tally(trades, last));
    }

    // ---------- emissions ----------

    method EmitExecutionReport(order: Order, ghost instance: nat, execType: ExecType, ordStatus: OrdStatus,
                               origClOrdId: Option<U64>, lastQty: Option<U64>, lastPx: Option<U64>)
      requires Mirrored()
      modifies this`nextExec, this`view
      ensures Mirrored()
      ensures view == Reported(old(view), ReportFor(order, instance, old(view).nextExec, execType, ordStatus,
            origClOrdId, lastQty, lastPx))
    {
      var cumQty := Wrap(order.orderQty - order.leavesQty);
      var report := ExecutionReport(order.clientId, order.clOrdId, origClOrdId, order.clOrdId, nextExec,
          order.securityId,
                                    order.symbol, order.exchange, order.side, order.ordType, order.timeInForce,
                                    execType, ordStatus, order.orderQty, cumQty, order.leavesQty, lastQty, lastPx,
                                        lastPx);
      nextExec := Succ(nextExec);
      view := Reported(view, Report(report, instance));
    }

    method EmitCancelReject(cancel: CancelOrder, reason: RejectReason, text: string)
      requires Mirrored()
      modifies this`view
      ensures Mirrored()
      ensures view == old(view).(oe := old(view).oe
                + [Reject(CancelReject(cancel.clientId, cancel.clOrdId, cancel.origClOrdId, reason, text))])
    {
      var reject := CancelReject(cancel.clientId, cancel.clOrdId, cancel.origClOrdId, reason, text);
      view := view.(oe := view.oe + [Reject(reject)]);
    }

    method EmitExecutionSummary(summary: SummaryMsg, ghost symbol: Symbol, ghost taker: nat)
      requires Mirrored()
      modifies this`view
      ensures Mirrored() && view == Published(old(view), [Summary(summary, symbol, taker)])
    {
      view := Published(view, [Summary(summary, symbol, taker)]);
    }

    method EmitBookUpdate(symbol: Symbol, side: Side, securityId: U64)
      requires Mirrored() && symbol in books
      modifies this`view
      ensures Mirrored() && Loc(symbol, side) in old(view).store.sides
      ensures view == Published(old(view), [UpdateAt(old(view).store.sides[Loc(symbol, side)], Loc(symbol, side),
          securityId)])
    {
      MirrorAt(books[symbol].SideOf(side));
      var snapshot := books[symbol].BestLevel(side);
      var update := match snapshot
        case None => UpdateMsg(securityId, DeleteOrder, side, None, None)
        case Some(top) => UpdateMsg(securityId, Change, side, Some(top.price), Some(top.quantity));
      view := Published(view, [Update(update, symbol)]);
    }

    // ---------- new order ----------

    /** The flat match is with the queue across the book from the taker. */
    method MatchOrders(book: OrderBook, taker: Order, ghost takerId: nat)
      returns (trades: nat, last: Option<U64>, t: Order, ghost m: Matched)
      requires Mirrored() && Ready(view) && taker.symbol in books && books[taker.symbol] == book
      modifies this`pool, this`index, this`nextTrade, this`view, pool, book.SideOf(Opposite(taker.side))
      ensures Mirrored() && pool <= old(pool)
      ensures MatchedInto(old(view), view, Loc(taker.symbol, Opposite(taker.side)), taker, takerId, m, trades,
            last) && t == m.taker
    {
      match taker.side
      case Buy => trades, last, t, m := Match(book.asks, taker, takerId);
      case Sell => trades, last, t, m := Match(book.bids, taker, takerId);
    }

    /** The node's side of its book becomes `PlaceIn` of it. */
    method LinkNode(book: OrderBook, node: OrderNode)
      requires Mirrored() && node.data.symbol in books && books[node.data.symbol] == book
      modifies this`view, book.SideOf(node.data.side)
      ensures Mirrored() && LocOf(node.data) in old(view).store.sides
      ensures var o, st := node.data, old(view).store;
              view == old(view).(store := WithSide(st, LocOf(o), PlaceIn(o.side, st.sides[LocOf(o)], o.price, node,
                  o.leavesQty)))
    {
      MirrorAt(book.SideOf(node.data.side));
      book.Place(node);
      NoteSide(book.SideOf(node.data.side));
    }

    /** One fresh node comes to stand in pool, book and index alike, as `PlacesOrder` asks. */
    method RestResidual(book: OrderBook, order: Order, ghost instance: nat) returns (node: OrderNode)
      requires Mirrored() && order.symbol in books && books[order.symbol] == book && KeyOf(order) !in view.store.index
      modifies this`pool, this`index, this`view, book.SideOf(order.side)
      ensures Mirrored() && fresh(node) && pool == old(pool) + {node}
      ensures PlacesOrder(old(view).store, view.store, node, Resting(instance, order))
      ensures view == old(view).(store := view.store)
    {
      node := AllocateNode(order, instance);
      LinkNode(book, node);
      EmplaceIndex(KeyOf(order), node);
    }

    method Summarise(r: NewOrderSingle, t: Order, ghost takerId: nat, trades: nat, last: Option<U64>)
      requires Mirrored() && t.leavesQty <= r.orderQty && (trades > 0 <==> last.Some?)
      modifies this`nextExec, this`view
      ensures Mirrored() && view == Summarised(old(view), r, t, takerId, trades, last)
    {
      if trades > 0 {
        var filledQty: U64 := r.orderQty - t.leavesQty;
        EmitExecutionSummary(SummaryMsg(r.securityId, r.side, last.value, filledQty), r.symbol, takerId);
        var status := if t.leavesQty == 0 then OrdStatus.Filled else OrdStatus.PartiallyFilled;
        EmitExecutionReport(t, takerId, ExecType.Trade, status, None, Some(filledQty), last);
      }
    }

    /** Publishes exactly `Updates`: at most one message for each side, the opposite one before the own one. */
    method ReportTops(r: NewOrderSingle, t: Order, trades: nat)
      requires Mirrored() && r.symbol in books
      requires Loc(r.symbol, Buy) in view.store.sides && Loc(r.symbol, Sell) in view.store.sides
      modifies this`view
      ensures Mirrored() && view == Published(old(view), Updates(old(view).store.sides, r, t, trades))
    {
      if trades > 0 {
        EmitBookUpdate(r.symbol, Opposite(r.side), r.securityId);
      }
      if t.leavesQty > 0 && t.price != 0 {
        MirrorAt(books[r.symbol].SideOf(r.side));
        if books[r.symbol].Best(r.side) == Some(r.price) {
          EmitBookUpdate(r.symbol, r.side, r.securityId);
        }
      }
    }

    lemma BookIsKnown(symbol: Symbol)
      requires Mirrored()
      ensures symbol in books <==> Known(AbsOf(view), symbol)
      ensures symbol in books ==> Loc(symbol, Buy) in view.store.sides && Loc(symbol, Sell) in view.store.sides
      ensures symbol in books ==>
                forall side {:trigger books[symbol].SideOf(side)} :: books[symbol].SideOf(side) in SideMaps()
    {
      IndexKeys(view);
    }

    method HandleNewOrderImpl(request: NewOrderSingle) returns (rejected: Option<RejectReason>)
      requires Mirrored() && Ready(view)
      modifies this`pool, this`index, this`nextExec, this`nextTrade, this`view, pool, SideMaps()
      ensures Mirrored() && fresh(pool - old(pool))
      ensures HandlesNew(old(view), view, request, rejected)
    {
      IndexKeys(view);
      BookIsKnown(request.symbol);
      if Key(request.clientId, request.clOrdId) in index {
        return Some(DuplicateOrder);
      }
      if request.symbol !in books {
        return Some(UnknownSymbol);
      }
      AcceptNew(request);
      rejected := None;
    }

    /** One acknowledgement, then the flat match; t is what the match leaves of the order. */
    method MatchNew(request: NewOrderSingle) returns (trades: nat, last: Option<U64>, t: Order, ghost m: Matched)
      requires Mirrored() && Fresh(view, request) && request.symbol in books
      modifies this`pool, this`index, this`nextExec, this`nextTrade, this`view, pool,
            books[request.symbol].SideOf(Opposite(request.side))
      ensures Mirrored() && pool <= old(pool)
      ensures Crossed(old(view), view, request, m, trades, last, t)
    {
      AcknowledgedReady(view, request);
      var order := MakeOrder(request);
      ghost var takerId := view.nextId;
      EmitExecutionReport(order, takerId, ExecType.NewOrder, OrdStatus.NewOrder, None, None, None);
      trades, last, t, m := MatchOrders(books[request.symbol], order, takerId);
    }

    /** What remains rests under a new node if it has a price, and otherwise nothing of it stays. */
    method RestOrDrop(t: Order, ghost takerId: nat) returns (ghost n: Option<OrderNode>)
      requires Mirrored() && t.symbol in books && KeyOf(t) !in view.store.index
      modifies this`pool, this`index, this`view, books[t.symbol].SideOf(t.side)
      ensures Mirrored() && fresh(pool - old(pool)) && Rested(old(view), view, t, takerId, n)
    {
      hide PlacesOrder, Mirrored;
      n := None;
      if t.leavesQty > 0 && t.price != 0 {
        var node := RestResidual(books[t.symbol], t, takerId);
        n := Some(node);
      }
      CountAcceptance();
    }

    ghost method CountAcceptance()
      requires Mirrored()
      modifies this`view
      ensures Mirrored() && view == old(view).(nextId := old(view).nextId + 1)
    {
      view := view.(nextId := view.nextId + 1);
    }

    /** Between the match and the book updates: summary and report if there were trades, then the remainder settled. */
    method SettleResidual(r: NewOrderSingle, t: Order, ghost takerId: nat, trades: nat, last: Option<U64>)
          returns (ghost n: Option<OrderNode>)
      requires Mirrored() && r.symbol in books && Residual(view, r, trades, last, t)
      modifies this`pool, this`index, this`nextExec, this`view, books[r.symbol].SideOf(r.side)
      ensures Mirrored() && fresh(pool - old(pool))
      ensures Rested(Summarised(old(view), r, t, takerId, trades, last), view, t, takerId, n)
    {
      Summarise(r, t, takerId, trades, last);
      n := RestOrDrop(t, takerId);
    }

    method AcceptNew(request: NewOrderSingle)
      requires Mirrored() && Fresh(view, request) && request.symbol in books
      modifies this`pool, this`index, this`nextExec, this`nextTrade, this`view, pool, SideMaps()
      ensures Mirrored() && fresh(pool - old(pool))
      ensures HandlesNew(old(view), view, request, None)
    {
      hide *;
      BookIsKnown(request.symbol);
      var trades, last, t;
      ghost var m;
      trades, last, t, m := MatchNew(request);
      ghost var v, v2 := old(view), view;
      CrossedLeaves(v, v2, request, m, trades, last, t);
      ghost var n := SettleResidual(request, t, v.nextId, trades, last);
      AcceptHandles(v, v2, view, request, m, trades, last, t, n);
      ReportTops(request, t, trades);
    }

    /** A rejected new order leaves the view as it was. */
    method HandleNewOrder(request: NewOrderSingle)
      requires Mirrored() && Ready(view)
      modifies this`pool, this`index, this`nextExec, this`nextTrade, this`view, pool, SideMaps()
      ensures Mirrored() && fresh(pool - old(pool))
      ensures Gives(old(view), view, Step(AbsOf(old(view)), New(request)))
    {
      ghost var v := view;
      var rejected := HandleNewOrderImpl(request);
      NothingGives(v);
    }

    // ---------- cancel and replace ----------

    /** The node's side of its book becomes `CancelIn` of it. */
    method UnlinkNode(node: OrderNode)
      requires Mirrored() && CanWithdraw(view.store, node) && node.data.symbol in books
      modifies this`view, books[node.data.symbol].SideOf(node.data.side)
      ensures Mirrored() && CanWithdraw(old(view).store, node)
      ensures var st, o := old(view).store, node.data;
              view == old(view).(store := WithSide(st, LocOf(o), CancelIn(o.side, st.sides[LocOf(o)], o.price, node,
                    o.leavesQty)))
    {
      MirrorAt(books[node.data.symbol].SideOf(node.data.side));
      books[node.data.symbol].Cancel(node);
      NoteSide(books[node.data.symbol].SideOf(node.data.side));
    }

    /** The view becomes `Withdrawn`: the node stands neither in its book, nor in the index, nor in the pool. */
    method RemoveResting(node: OrderNode, key: Key)
      requires Mirrored() && CanWithdraw(view.store, node) && node.data.symbol in books && key == KeyOf(node.data)
      modifies this`pool, this`index, this`view, books[node.data.symbol].SideOf(node.data.side)
      ensures Mirrored() && pool <= old(pool)
      ensures CanWithdraw(old(view).store, node) && view == old(view).(store := Withdrawn(old(view).store, node))
    {
      UnlinkNode(node);
      EraseIndex(key);
      ReleaseNode(node);
    }

    /** For an indexed key: its live node, the order there, and whether that order has the best price of its side. */
    method Locate(key: Key) returns (node: OrderNode, resting: Order, affectsTop: bool)
      requires Mirrored() && Ready(view) && key in index
      ensures node in view.store.heap && view.store.heap[node] == Resting(node.instance, resting)
          && node.data == resting
      ensures KeyOf(resting) == key && resting.symbol in books && LocOf(resting) in view.store.sides
      ensures affectsTop <==> TopPriceIs(view.store.sides[LocOf(resting)], resting.price)
    {
      IndexLeads(view, key);
      node := index[key];
      resting := node.data;
      assert NodeLinked(view.store, node);
      MirrorAt(books[resting.symbol].SideOf(resting.side));
      affectsTop := books[resting.symbol].Best(resting.side) == Some(resting.price);
    }

    method HandleCancel(incoming: CancelOrder)
      requires Mirrored() && Ready(view)
      modifies this`pool, this`index, this`nextExec, this`nextTrade, this`view, pool, SideMaps()
      ensures Mirrored() && pool <= old(pool)
      ensures Gives(old(view), view, CancelStep(AbsOf(old(view)), incoming))
    {
      var key := Key(incoming.clientId, incoming.origClOrdId);
      ghost var v := view;
      IndexLeads(v, key);
      if key !in index {
        EmitCancelReject(incoming, UnknownOrder, "unknown order");
        RejectGives(v, RejectFor(incoming.clientId, incoming.clOrdId, incoming.origClOrdId, UnknownOrder));
      } else {
        CancelResting(key, incoming);
      }
    }

    method CancelResting(key: Key, incoming: CancelOrder)
      requires Mirrored() && Ready(view) && key in index && key == Key(incoming.clientId, incoming.origClOrdId)
      modifies this`pool, this`index, this`nextExec, this`nextTrade, this`view, pool, SideMaps()
      ensures Mirrored() && pool <= old(pool)
      ensures Gives(old(view), view, CancelStep(AbsOf(old(view)), incoming))
    {
      ghost var v := view;
      var node, resting, affectsTop := Locate(key);
      BookIsKnown(resting.symbol);
      ghost var v' := CancelGives(v, node, incoming);
      RemoveResting(node, key);
      EmitExecutionReport(resting, node.instance, ExecType.Canceled, OrdStatus.Canceled, Some(incoming.origClOrdId),
          None, None);
      if affectsTop {
        EmitBookUpdate(resting.symbol, resting.side, resting.securityId);
      }
      assert view.md == v'.md;
    }

    method HandleReplace(incoming: ReplaceOrder)
      requires Mirrored() && Ready(view)
      modifies this`pool, this`index, this`nextExec, this`nextTrade, this`view, pool, SideMaps()
      ensures Mirrored() && fresh(pool - old(pool))
      ensures Gives(old(view), view, ReplaceStep(AbsOf(old(view)), incoming))
    {
      hide Gives, Ready, ReplaceStep;
      var oldKey, newKey := Key(incoming.clientId, incoming.origClOrdId), Key(incoming.clientId, incoming.clOrdId);
      var cancel := CancelOrder(incoming.clientId, incoming.clOrdId, incoming.origClOrdId);
      ghost var v := view;
      if oldKey !in index {
        EmitCancelReject(cancel, UnknownOrder, "unknown order");
        ReplaceRefused(v, incoming, UnknownOrder);
      } else if newKey in index {
        EmitCancelReject(cancel, DuplicateOrder, "duplicate cl_ord_id");
        ReplaceRefused(v, incoming, DuplicateOrder);
      } else {
        ReplaceResting(oldKey, incoming);
      }
    }

    method ReplaceResting(key: Key, incoming: ReplaceOrder)
      requires Mirrored() && Ready(view) && key in index && key == Key(incoming.clientId, incoming.origClOrdId)
      requires Key(incoming.clientId, incoming.clOrdId) !in view.store.index
      modifies this`pool, this`index, this`nextExec, this`nextTrade, this`view, pool, SideMaps()
      ensures Mirrored() && fresh(pool - old(pool))
      ensures Gives(old(view), view, ReplaceStep(AbsOf(old(view)), incoming))
    {
      hide *;
      ghost var slot := WithdrawOriginal(key);
      ghost var v1 := view;
      PlaceReplacement(incoming);
      ReplaceGives(old(view), v1, view, slot, incoming);
    }

    /** First half: the flat withdrawal of the original, with its market data. */
    method WithdrawOriginal(key: Key) returns (ghost slot: Slot)
      requires Mirrored() && Ready(view) && key in index
      modifies this`pool, this`index, this`view, SideMaps()
      ensures Mirrored() && pool <= old(pool)
      ensures Ready(view) && Lookup(AbsOf(old(view)), key) == Some(slot)
      ensures Gives(old(view), view, Output(Withdraw(AbsOf(old(view)), slot).0, Withdraw(AbsOf(old(view)), slot).1, []))
    {
      ghost var v, v' := view, view;
      var node, resting, affectsTop := Locate(key);
      BookIsKnown(resting.symbol);
      slot, v' := WithdrawnGives(v, node);
      RemoveResting(node, key);
      if affectsTop {
        EmitBookUpdate(resting.symbol, resting.side, resting.securityId);
      }
      assert view.md == v'.md;
    }

    /** Second half: what the flat engine makes of the new terms once the original is gone. */
    method PlaceReplacement(incoming: ReplaceOrder)
      requires Mirrored() && Ready(view)
      modifies this`pool, this`index, this`nextExec, this`nextTrade, this`view, pool, SideMaps()
      ensures Mirrored() && fresh(pool - old(pool))
      ensures Gives(old(view), view, ReplaceTail(AbsOf(old(view)), incoming))
    {
      ghost var v := view;
      var cancel := CancelOrder(incoming.clientId, incoming.clOrdId, incoming.origClOrdId);
      var rejected := HandleNewOrderImpl(Replacement(incoming));
      ghost var v1 := view;
      if rejected == Some(DuplicateOrder) {
        EmitCancelReject(cancel, DuplicateOrder, "duplicate cl_ord_id");
      } else if rejected == Some(UnknownSymbol) {
        EmitCancelReject(cancel, UnknownSymbol, "unknown symbol");
      }
      TailGives(v, v1, view, incoming, rejected);
    }

    // ---------- flush ----------

    /** The side has one order less, and never an empty level. */
    method DrainFront(sm: SideMap)
      requires Mirrored() && Owns(sm) && CanPop(view.store, Loc(sm.symbol, sm.side), 0)
      modifies this`pool, this`index, this`view, sm
      ensures Mirrored() && pool <= old(pool)
      ensures view == old(view).(store := Drained(old(view).store, Loc(sm.symbol, sm.side)))
    {
      PopFront(sm, 0);
      MirrorAt(sm);
      if sm.levels[0].orders == [] {
        SetLevels(sm, sm.levels[1..]);
      }
    }

    method DrainSide(sm: SideMap)
      requires Mirrored() && Owns(sm) && StoreOk(view.store) && Tidy(view.store)
      modifies this`pool, this`index, this`view, sm
      ensures Mirrored() && pool <= old(pool)
      ensures Draining(old(view), view, Loc(sm.symbol, sm.side)) && view.store.sides[Loc(sm.symbol, sm.side)] == []
    {
      MirrorAt(sm);
      assert view.store.sides == view.store.sides[Loc(sm.symbol, sm.side) := sm.levels];
      while sm.levels != []
        invariant Mirrored() && pool <= old(pool)
        invariant Draining(old(view), view, Loc(sm.symbol, sm.side))
        invariant Loc(sm.symbol, sm.side) in view.store.sides && sm.levels == view.store.sides[Loc(sm.symbol, sm.side)]
        decreases |Nodes(sm.levels)|
      {
        DrainOn(old(view), view, Loc(sm.symbol, sm.side));
        DrainFront(sm);
        MirrorAt(sm);
      }
    }

    method DrainBook(symbol: Symbol, ghost v0: View<OrderNode>, ghost todo: set<Symbol>)
      requires Mirrored() && Flushing(v0, view, todo) && symbol in books
      modifies this`pool, this`index, this`view, books[symbol].bids, books[symbol].asks
      ensures Mirrored() && pool <= old(pool) && Flushing(v0, view, todo - {symbol})
    {
      DrainSide(books[symbol].bids);
      ghost var v1 := view;
      DrainSide(books[symbol].asks);
      FlushOn(v0, old(view), v1, view, todo, symbol);
    }

    /** Afterwards every side is empty and both streams are as they were. */
    method HandleFlush()
      requires Mirrored() && Ready(view)
      modifies this`pool, this`index, this`view, SideMaps()
      ensures Mirrored() && pool <= old(pool)
      ensures Gives(old(view), view, Step(AbsOf(old(view)), Flush))
    {
      hide Flushing, Ready, Gives, Step;
      var todo := books.Keys;
      FlushStarts();
      while todo != {}
        invariant Mirrored() && pool <= old(pool) && todo <= books.Keys
        invariant Flushing(old(view), view, todo)
        decreases |todo|
      {
        var symbol :| symbol in todo;
        BookIsKnown(symbol);
        DrainBook(symbol, old(view), todo);
        todo := todo - {symbol};
      }
      FlushGives(old(view), view);
    }

    lemma FlushStarts()
      requires Mirrored() && Ready(view)
      ensures Flushing(view, view, books.Keys)
    {
    }

    // ---------- requests ----------

    /** One request, dispatched to its handler. */
    method Send(request: Request)
      requires Valid()
      modifies this, pool, SideMaps()
      ensures Valid() && history == old(history) + [request]
      ensures Abs() == Step(old(Abs()), request).state
      ensures view.md == old(view.md) + Step(old(Abs()), request).md
      ensures view.oe == old(view.oe) + Step(old(Abs()), request).oe
      ensures fresh(pool - old(pool))
    {
      Handle(request);
      ghost var before := Run(Initial(books.Keys), history);
      RunSnoc(Initial(books.Keys), history, request);
      history := history + [request];
    }

    method Handle(request: Request)
      requires Mirrored() && Ready(view)
      modifies this`pool, this`index, this`nextExec, this`nextTrade, this`view, pool, SideMaps()
      ensures Mirrored() && fresh(pool - old(pool))
      ensures Gives(old(view), view, Step(AbsOf(old(view)), request))
    {
      match request
      case New(order) => HandleNewOrder(order);
      case Replace(replace) => HandleReplace(replace);
      case Cancel(cancel) => HandleCancel(cancel);
      case Flush => HandleFlush();
    }

    // ---------- what validity means ----------

    /** Levels strictly best first, none empty, each holding orders of its own price, and no node linked twice. */
    ghost predicate SideShape(sm: SideMap)
      reads sm, pool, this`pool
    {
      && NoDuplicates(Nodes(sm.levels)) && NoEmptyLevel(sm.levels)
      && (forall i, j {:trigger Better(sm.side, sm.levels[i].price, sm.levels[j].price)} ::
            0 <= i < j < |sm.levels| ==> Better(sm.side, sm.levels[i].price, sm.levels[j].price))
      && (forall i, k {:trigger sm.levels[i].orders[k]} :: 0 <= i < |sm.levels| && 0 <= k < |sm.levels[i].orders| ==>
            sm.levels[i].orders[k] in pool && sm.levels[i].orders[k].data.price == sm.levels[i].price)
    }

    /** Between requests the identity index and the pool hold the same nodes, each under its own key. */
    lemma IndexIsPool()
      requires Valid()
      ensures forall n {:trigger n in pool} :: n in pool ==> KeyOf(n.data) in index && index[KeyOf(n.data)] == n
      ensures forall k {:trigger index[k]} :: k in index ==> index[k] in pool && KeyOf(index[k].data) == k
    {
      forall n | n in pool
        ensures KeyOf(n.data) in index && index[KeyOf(n.data)] == n
      {
        assert NodeIndexed(view.store, n) && view.store.heap[n] == Resting(n.instance, n.data);
      }
      forall k | k in index
        ensures index[k] in pool && KeyOf(index[k].data) == k
      {
        assert IndexEntryOk(view.store, k) && view.store.heap[index[k]] == Resting(index[k].instance, index[k].data);
      }
    }

    /**
     And the linked nodes are the same again: each stands in the FIFO of its own book, side and price, and only there.
     */
    lemma LinkedIsPool(loc: Loc, n: OrderNode)
      requires Valid() && loc.symbol in books
      ensures SideAt(loc).side == loc.side && SideShape(SideAt(loc))
      ensures n in Nodes(SideAt(loc).levels) <==> n in pool && LocOf(n.data) == loc
      ensures n in Nodes(SideAt(loc).levels) ==> LinkedAt(loc.side, SideAt(loc).levels, n.data.price, n)
    {
      var sm, st := SideAt(loc), view.store;
      MirrorAt(sm);
      assert SideLinked(st.heap, loc, sm.levels) && LevelsSorted(st.heap, loc.side, sm.levels)
          && NoEmptyLevel(sm.levels);
      if n in pool {
        assert st.heap[n] == Resting(n.instance, n.data) && NodeLinked(st, n);
        var i, k := StandsAt(st, n);
      }
    }

    lemma {:induction false} LeavesMirrored(orders: seq<OrderNode>)
      requires NodesMirrored() && forall k {:trigger orders[k]} :: 0 <= k < |orders| ==> orders[k] in pool
      ensures LeavesSum(orders) == LeavesOf(QueueOf(view.store.heap, orders))
      decreases |orders|
    {
      if orders != [] {
        assert view.store.heap[orders[0]] == Resting(orders[0].instance, orders[0].data);
        LeavesMirrored(orders[1..]);
        assert QueueOf(view.store.heap, orders)[1..] == QueueOf(view.store.heap, orders[1..]);
      }
    }

    /**
     Every level's total is the sum of what its orders have left modulo 2^64, hence the sum itself exactly when that
     fits.
     */
    lemma LevelTotals(loc: Loc, i: nat)
      requires Valid() && loc.symbol in books && i < |SideAt(loc).levels|
      ensures var level := SideAt(loc).levels[i];
              && level.total == Wrap(LeavesSum(level.orders))
              && (level.total == LeavesSum(level.orders) <==> LeavesSum(level.orders) < TWO64)
    {
      var sm, st := SideAt(loc), view.store;
      MirrorAt(sm);
      assert TotalsRight(st.heap, sm.levels) && LevelsSorted(st.heap, loc.side, sm.levels);
      assert TotalRight(st.heap, sm.levels[i]);
      LeavesMirrored(sm.levels[i].orders);
    }

    /** No book is crossed, and what a book reports as its top is the best price with its true quantity modulo 2^64. */
    lemma TopsAreExact(symbol: Symbol, side: Side)
      requires Valid() && symbol in books
      ensures Known(Abs(), symbol) && books[symbol].BestLevel(side) == BestLevel(Abs().queues[Loc(symbol, side)])
      ensures books[symbol].Best(Buy).Some? && books[symbol].Best(Sell).Some? ==>
                books[symbol].Best(Buy).value < books[symbol].Best(Sell).value
    {
      BookIsKnown(symbol);
      MirrorAt(books[symbol].bids);
      MirrorAt(books[symbol].asks);
      TopStep(view.store, Loc(symbol, Buy));
      TopStep(view.store, Loc(symbol, Sell));
    }
  }
}
