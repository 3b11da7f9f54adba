/**
 What the engine answers to each request in each state a run can reach, in terms of the resting orders and of the
 request's own fields.
 */
module Answers {
  import opened Wrappers
  import opened Types
  import opened PriceTimeQueue
  import opened FlatEngine
  import opened FlatInvariant
  import opened Ledger
  import opened Priority
  import opened Lifecycle
  import opened Replica
  import opened Terms

  // ---------- resting orders by key ----------

  predicate RestsAt(s: State, key: Key, loc: Loc, i: nat)
  {
    && loc in s.queues && i < |s.queues[loc]|
    && s.queues[loc][i].order.clientId == key.clientId
    && s.queues[loc][i].order.clOrdId == key.clOrdId
  }

  ghost predicate OnBook(s: State, key: Key)
  {
    exists loc, i: nat :: RestsAt(s, key, loc, i)
  }

  lemma FoundAt(s: State, key: Key, loc: Loc, i: nat)
    requires Inv(s) && RestsAt(s, key, loc, i)
    ensures Lookup(s, key) == Some(Slot(loc, i)) && key in s.index
  {
    hide Lookup;
    assert KeyOf(s.queues[loc][i].order) == key;
    LookupExact(s, loc, i);
    LookupMiss(s, key);
  }

  /** The identity index holds the keys of the resting orders, no more and no fewer. */
  lemma OnBookIndexed(s: State, key: Key)
    requires Inv(s)
    ensures OnBook(s, key) <==> key in s.index
    ensures OnBook(s, key) <==> Lookup(s, key).Some?
  {
    if OnBook(s, key) {
      var loc, i: nat :| RestsAt(s, key, loc, i);
      FoundAt(s, key, loc, i);
    }
    LookupMiss(s, key);
    if key in s.index {
      var slot := Lookup(s, key).value;
      assert RestsAt(s, key, slot.loc, slot.pos);
    }
  }

  // ---------- what is said of a side ----------

  /** No order of the queue has a better price. */
  predicate NoneBetter(q: seq<Resting>, side: Side, price: U64)
  {
    forall j :: 0 <= j < |q| ==> if side == Buy then q[j].order.price <= price else price <= q[j].order.price
  }

  /** The message states the first price of the queue with all that rests at it, or that the side is empty. */
  predicate TopTold(e: MdEvent, q: seq<Resting>, loc: Loc, securityId: U64)
  {
    e == if q == [] then Update(UpdateMsg(securityId, DeleteOrder, loc.side, None, None), loc.symbol)
         else Update(UpdateMsg(securityId, Change, loc.side, Some(q[0].order.price),
                               Some(Wrap(LevelQty(q, q[0].order.price)))), loc.symbol)
  }

  lemma UpdateTells(q: seq<Resting>, loc: Loc, securityId: U64)
    ensures TopTold(UpdateFor(q, loc, securityId), q, loc, securityId)
  {
  }

  /** On a sorted side, standing at the first price and having no better one are the same. */
  lemma BestIsNoneBetter(q: seq<Resting>, side: Side, i: nat)
    requires Sorted(side, q) && i < |q|
    ensures BestPrice(q) == Some(q[i].order.price) <==> NoneBetter(q, side, q[i].order.price)
  {
    forall j | 0 < j < |q|
      ensures !Better(side, q[j].order.price, q[0].order.price)
    {
      assert Precedes(side, q[0], q[j]);
    }
    assert i > 0 ==> Precedes(side, q[0], q[i]);
  }

  // ---------- unlinking ----------

  function Without(s: State, loc: Loc, i: nat): State
    requires loc in s.queues && i < |s.queues[loc]|
  {
    var q := s.queues[loc];
    s.(queues := s.queues[loc := q[..i] + q[i + 1..]],
       index := s.index - {Key(q[i].order.clientId, q[i].order.clOrdId)})
  }

  /** An order at its side's best price leaves with one message about that side, any other in silence. */
  predicate UnlinkTold(s: State, loc: Loc, i: nat, md: seq<MdEvent>)
    requires loc in s.queues && i < |s.queues[loc]|
  {
    var q, o := s.queues[loc], s.queues[loc][i].order;
    if NoneBetter(q, loc.side, o.price) then |md| == 1 && TopTold(md[0], q[..i] + q[i + 1..], loc, o.securityId)
    else md == []
  }

  lemma WithdrawTold(s: State, loc: Loc, i: nat)
    requires Inv(s) && loc in s.queues && i < |s.queues[loc]|
    ensures Withdraw(s, Slot(loc, i)).0 == Without(s, loc, i)
    ensures UnlinkTold(s, loc, i, Withdraw(s, Slot(loc, i)).1)
  {
    hide BestPrice, UpdateFor, TopTold, NoneBetter;
    var q := s.queues[loc];
    CoherentLive(s, loc);
    BestIsNoneBetter(q, loc.side, i);
    UpdateTells(q[..i] + q[i + 1..], loc, q[i].order.securityId);
  }

  // ---------- cancel ----------

  /** A cancel that misses is told so; one that hits unlinks that order and nothing else, and reports it. */
  ghost predicate CancelAnswered(s: State, c: CancelOrder, out: Output)
  {
    var key := Key(c.clientId, c.origClOrdId);
    && (!OnBook(s, key) ==>
          out == Output(s, [], [Reject(CancelReject(c.clientId, c.clOrdId, c.origClOrdId, UnknownOrder,
                                                    "unknown order"))]))
    && (forall loc, i: nat {:trigger RestsAt(s, key, loc, i)} :: RestsAt(s, key, loc, i) ==>
          CancelledAt(s, loc, i, out))
  }

  predicate CancelledAt(s: State, loc: Loc, i: nat, out: Output)
    requires loc in s.queues && i < |s.queues[loc]|
  {
    var x := s.queues[loc][i];
    && out.state == Without(s, loc, i).(nextExec := Wrap(s.nextExec + 1))
    && UnlinkTold(s, loc, i, out.md)
    && |out.oe| == 1 && out.oe[0].Report? && out.oe[0].instance == x.id
    && out.oe[0].report.execType == ExecType.Canceled
    && out.oe[0].report.leavesQty == x.order.leavesQty
  }

  lemma CancelHits(s: State, c: CancelOrder, loc: Loc, i: nat)
    requires Inv(s) && RestsAt(s, Key(c.clientId, c.origClOrdId), loc, i)
    ensures CancelledAt(s, loc, i, CancelStep(s, c))
  {
    hide Inv, Lookup, Without, UnlinkTold, Withdraw;
    FoundAt(s, Key(c.clientId, c.origClOrdId), loc, i);
    WithdrawTold(s, loc, i);
    SuccIsWrap(s.nextExec);
  }

  lemma CancelIsAnswered(s: State, c: CancelOrder)
    requires Inv(s)
    ensures CancelAnswered(s, c, CancelStep(s, c))
  {
    hide Inv, Lookup, OnBook, RestsAt, CancelledAt;
    var key := Key(c.clientId, c.origClOrdId);
    OnBookIndexed(s, key);
    forall loc, i: nat | RestsAt(s, key, loc, i)
      ensures loc in s.queues && i < |s.queues[loc]| && CancelledAt(s, loc, i, CancelStep(s, c))
    {
      InRange(s, key, loc, i);
      CancelHits(s, c, loc, i);
    }
  }

  lemma InRange(s: State, key: Key, loc: Loc, i: nat)
    requires RestsAt(s, key, loc, i)
    ensures loc in s.queues && i < |s.queues[loc]|
  {
  }

  // ---------- an accepted order ----------

  /** The n-th order of the queue and those before it traded, all but the last in full; the rest is untouched. */
  predicate Consumed(q: seq<Resting>, q': seq<Resting>, md: seq<MdEvent>, n: nat)
  {
    && n <= |q| && n <= |md|
    && (forall i :: 0 <= i < n ==> md[i].Trade? && md[i].maker == q[i].id
                                   && 0 < md[i].trade.quantity <= q[i].order.leavesQty)
    && (forall i :: 0 <= i < n - 1 ==> md[i].trade.quantity == q[i].order.leavesQty)
    && (if n == 0 || md[n - 1].trade.quantity == q[n - 1].order.leavesQty then q' == q[n..]
        else
          var left := q[n - 1].order.leavesQty - md[n - 1].trade.quantity;
          q' == [q[n - 1].(order := q[n - 1].order.(leavesQty := left))] + q[n..])
  }

  /** Matching ends only when nothing is left to fill or nothing is left to fill it at an allowed price. */
  predicate Exhausted(a: Asked, left: nat, q: seq<Resting>)
  {
    || left == 0
    || q == []
    || (a.price != 0
        && forall j :: 0 <= j < |q| ==>
             if a.side == Buy then a.price < q[j].order.price else q[j].order.price < a.price)
  }

  /** x was added behind every order of at least its price and before every other. */
  ghost predicate AddedBehind(side: Side, q: seq<Resting>, q': seq<Resting>, x: Resting)
  {
    exists k: nat :: SplitAt(side, q, x, k) && q' == q[..k] + [x] + q[k..]
  }

  predicate SplitAt(side: Side, q: seq<Resting>, x: Resting, k: nat)
  {
    && k <= |q|
    && (forall j :: 0 <= j < k ==>
          if side == Buy then x.order.price <= q[j].order.price else q[j].order.price <= x.order.price)
    && (forall j :: k <= j < |q| ==>
          if side == Buy then q[j].order.price < x.order.price else x.order.price < q[j].order.price)
  }

  function OrderOf(a: Asked, left: U64): Order
  {
    Order(a.clientId, a.clOrdId, a.securityId, a.symbol, a.exchange, a.side, a.ordType, a.timeInForce, a.price,
          a.orderQty, left)
  }

  function OwnSide(a: Asked): Loc
  {
    Loc(a.symbol, a.side)
  }

  function OtherSide(a: Asked): Loc
  {
    Loc(a.symbol, if a.side == Buy then Sell else Buy)
  }

  /** The books after an accepted order that made n trades and has so much left. */
  ghost predicate BooksServed(s: State, a: Asked, out: Output, n: nat, left: U64)
  {
    var own, opp, queues, queues' := OwnSide(a), OtherSide(a), s.queues, out.state.queues;
    && own in queues && opp in queues && queues'.Keys == queues.Keys
    && (forall loc :: loc in queues && loc != own && loc != opp ==> queues'[loc] == queues[loc])
    && Consumed(queues[opp], queues'[opp], out.md, n)
    && Exhausted(a, left, queues'[opp])
    && (if left > 0 && a.price != 0
        then AddedBehind(a.side, queues[own], queues'[own], Resting(s.nextId, OrderOf(a, left)))
        else queues'[own] == queues[own])
  }

  /** After its trades: a summary and the other side's top if there were any, its own side's top if it is now best. */
  predicate Announced(s: State, a: Asked, out: Output, n: nat, left: U64)
    requires OwnSide(a) in out.state.queues && OtherSide(a) in out.state.queues && left <= a.orderQty
  {
    var own, opp := out.state.queues[OwnSide(a)], out.state.queues[OtherSide(a)];
    var best := left > 0 && a.price != 0 && NoneBetter(own, a.side, a.price);
    && |out.md| == n + (if n > 0 then 2 else 0) + (if best then 1 else 0)
    && (n > 0 ==>
          && out.md[n - 1].Trade?
          && out.md[n] == Summary(SummaryMsg(a.securityId, a.side, out.md[n - 1].trade.price, a.orderQty - left),
                                  a.symbol, s.nextId)
          && TopTold(out.md[n + 1], opp, OtherSide(a), a.securityId))
    && (best ==> TopTold(out.md[|out.md| - 1], own, OwnSide(a), a.securityId))
  }

  /** An acknowledgement of the terms first, then, if and only if it traded, one report of all its trades. */
  predicate ReportsServed(s: State, a: Asked, out: Output, n: nat, left: U64)
  {
    && |out.oe| == (if n > 0 then 2 else 1)
    && (forall k :: 0 <= k < |out.oe| ==> out.oe[k].Report? && out.oe[k].instance == s.nextId
                                            && Carries(a, out.oe[k].report))
    && out.oe[0].report.execType == ExecType.NewOrder
    && (n > 0 ==> out.oe[1].report.execType == ExecType.Trade && out.oe[1].report.leavesQty == left
                  && n <= |out.md| && out.md[n - 1].Trade?
                  && out.oe[1].report.lastPx == Some(out.md[n - 1].trade.price))
  }

  /** What accepting these terms means, n being the number of trades. */
  ghost predicate Served(s: State, a: Asked, out: Output, n: nat)
  {
    var traded := AsTaker(out.md, s.nextId);
    && traded <= a.orderQty
    && BooksServed(s, a, out, n, a.orderQty - traded)
    && Announced(s, a, out, n, a.orderQty - traded)
    && ReportsServed(s, a, out, n, a.orderQty - traded)
    && out.state.nextId == s.nextId + 1
  }

  lemma AcceptTraded(s: State, r: NewOrderSingle)
    requires Inv(s) && Known(s, r.symbol)
    ensures var m, out := MatchFor(s, r), Accept(s, r);
            && AsTaker(out.md, s.nextId) + m.taker.leavesQty == r.orderQty
            && m.taker == OrderOf(AskedBy(New(r)).value, m.taker.leavesQty)
  {
    hide Match, AcceptMd, AcceptOe, Settle, Inv;
    AcceptTaker(s, r, s.nextId);
  }

  lemma AcceptConsumed(s: State, r: NewOrderSingle)
    requires Inv(s) && Known(s, r.symbol)
    ensures var a, m, out := AskedBy(New(r)).value, MatchFor(s, r), Accept(s, r);
            && Consumed(s.queues[OtherSide(a)], m.queue, out.md, |m.fills|)
            && Exhausted(a, m.taker.leavesQty, m.queue)
  {
    hide Match, AfterTrades, AcceptOe, Settle;
    var opp, m := Loc(r.symbol, Opposite(r.side)), MatchFor(s, r);
    CoherentLive(s, opp);
    MatchIsMatch(s.queues[opp], MakeOrder(r));
    MatchConsumes(s.queues[opp], MakeOrder(r), m, s.nextId, s.nextTrade, AfterTrades(s, r));
    MatchExhausts(s, r);
  }

  lemma MatchConsumes(q: seq<Resting>, taker: Order, m: Matched, takerId: nat, nextTrade: U64, after: seq<MdEvent>)
    requires IsMatch(q, taker, m)
    ensures Consumed(q, m.queue, TradesFor(taker, takerId, m.fills, nextTrade) + after, |m.fills|)
  {
    hide Advance;
    assert forall i :: 0 <= i < |m.fills| - 1 ==> Released(m.fills[i]);
  }

  lemma MatchExhausts(s: State, r: NewOrderSingle)
    requires Inv(s) && Known(s, r.symbol)
    ensures Exhausted(AskedBy(New(r)).value, MatchFor(s, r).taker.leavesQty, MatchFor(s, r).queue)
  {
    hide Match;
    var opp, m := Loc(r.symbol, Opposite(r.side)), MatchFor(s, r);
    CoherentLive(s, opp);
    MatchIsMatch(s.queues[opp], MakeOrder(r));
    ConsumeCoherent(s, opp, MakeOrder(r));
    CoherentLive(Consume(s, opp, m), opp);
    forall j | 0 < j < |m.queue|
      ensures !Better(opp.side, m.queue[j].order.price, m.queue[0].order.price)
    {
      assert Precedes(opp.side, m.queue[0], m.queue[j]);
    }
  }

  lemma InsertAdds(side: Side, q: seq<Resting>, x: Resting)
    requires Sorted(side, q)
    ensures AddedBehind(side, q, Insert(side, q, x), x)
  {
    var k := InsertSplits(side, q, x);
    forall j | k < j < |q|
      ensures !Better(side, q[j].order.price, q[k].order.price)
    {
      assert Precedes(side, q[k], q[j]);
    }
    assert SplitAt(side, q, x, k);
  }

  lemma AcceptBooks(s: State, r: NewOrderSingle)
    requires Inv(s) && Known(s, r.symbol)
    ensures var m := MatchFor(s, r);
            BooksServed(s, AskedBy(New(r)).value, Accept(s, r), |m.fills|, m.taker.leavesQty)
  {
    hide Match, Insert, AcceptMd, AcceptOe, Consumed, Exhausted, AddedBehind, Inv;
    AcceptConsumed(s, r);
    AcceptTraded(s, r);
    CoherentOf(s);
    CoherentLive(s, Loc(r.symbol, r.side));
    InsertAdds(r.side, s.queues[Loc(r.symbol, r.side)], Resting(s.nextId, MatchFor(s, r).taker));
  }

  lemma CoherentOf(s: State)
    requires Inv(s)
    ensures Coherent(s)
  {
  }

  lemma AcceptAnnounced(s: State, r: NewOrderSingle)
    requires Inv(s) && Known(s, r.symbol) && Key(r.clientId, r.clOrdId) !in s.index
    ensures var m := MatchFor(s, r);
            Announced(s, AskedBy(New(r)).value, Accept(s, r), |m.fills|, m.taker.leavesQty)
  {
    hide Match, TopTold, NoneBetter, BestPrice, UpdateFor, Settle, Inv, AcceptOe;
    var m, out := MatchFor(s, r), Accept(s, r);
    var own, opp := Loc(r.symbol, r.side), Loc(r.symbol, Opposite(r.side));
    SettleKeys(s, r);
    UpdateTells(out.state.queues[own], own, r.securityId);
    UpdateTells(out.state.queues[opp], opp, r.securityId);
    OwnBest(s, r);
  }

  lemma SettleKeys(s: State, r: NewOrderSingle)
    requires Known(s, r.symbol)
    ensures Settle(s, r).queues.Keys == s.queues.Keys
  {
    hide Match;
  }

  /** The remainder is its side's new best exactly when no order there has a better price. */
  lemma OwnBest(s: State, r: NewOrderSingle)
    requires Inv(s) && Known(s, r.symbol) && Key(r.clientId, r.clOrdId) !in s.index
    ensures Loc(r.symbol, r.side) in Settle(s, r).queues
    ensures Rests(s, r) ==>
              var own := Settle(s, r).queues[Loc(r.symbol, r.side)];
              BestPrice(own) == Some(r.price) <==> NoneBetter(own, r.side, r.price)
  {
    hide Match, Insert, NoneBetter, BestPrice, AcceptMd, AcceptOe, Inv;
    var own, x := Loc(r.symbol, r.side), Resting(s.nextId, MatchFor(s, r).taker);
    if Rests(s, r) {
      var q := Settle(s, r).queues[own];
      AcceptInv(s, r);
      CoherentOf(Accept(s, r).state);
      CoherentLive(Accept(s, r).state, own);
      var at := InsertSplits(r.side, s.queues[own], x);
      assert q[at] == x;
      BestIsNoneBetter(q, r.side, at);
    }
  }

  lemma AcceptReports(s: State, r: NewOrderSingle)
    requires Inv(s) && Known(s, r.symbol)
    ensures var m := MatchFor(s, r);
            ReportsServed(s, AskedBy(New(r)).value, Accept(s, r), |m.fills|, m.taker.leavesQty)
  {
    hide Match, Settle, AfterTrades, Carries, Inv;
    forall k | 0 <= k < |AcceptOe(s, r)|
      ensures AcceptOe(s, r)[k].Report? && AcceptOe(s, r)[k].instance == s.nextId
      ensures Carries(AskedBy(New(r)).value, AcceptOe(s, r)[k].report)
    {
      AcceptCarries(s, r, k);
    }
  }

  /** Accepting an order serves the terms it asked for. */
  lemma AcceptServed(s: State, r: NewOrderSingle)
    requires Inv(s) && Known(s, r.symbol) && Key(r.clientId, r.clOrdId) !in s.index
    ensures Served(s, AskedBy(New(r)).value, Accept(s, r), |MatchFor(s, r).fills|)
  {
    hide Match, BooksServed, Announced, ReportsServed, Settle, AcceptMd, AcceptOe, Inv;
    AcceptTraded(s, r);
    AcceptBooks(s, r);
    AcceptAnnounced(s, r);
    AcceptReports(s, r);
  }

  // ---------- every request ----------

  /** A new order is refused in silence or served. */
  ghost predicate NewAnswered(symbols: set<Symbol>, s: State, n: NewOrderSingle, out: Output)
  {
    if OnBook(s, Key(n.clientId, n.clOrdId)) || n.symbol !in symbols then out == Output(s, [], [])
    else exists trades: nat :: Served(s, AskedBy(New(n)).value, out, trades)
  }

  /** Once the original is gone the new terms are served, or rejected when their book is unknown. */
  ghost predicate PutInPlace(symbols: set<Symbol>, s: State, o: ReplaceOrder, out: Output)
  {
    if o.symbol in symbols then exists trades: nat :: Served(s, AskedBy(Replace(o)).value, out, trades)
    else
      out == Output(s, [], [Reject(CancelReject(o.clientId, o.clOrdId, o.origClOrdId, UnknownSymbol,
                                                "unknown symbol"))])
  }

  ghost predicate ReplacedAt(symbols: set<Symbol>, s: State, o: ReplaceOrder, loc: Loc, i: nat, out: Output)
    requires loc in s.queues && i < |s.queues[loc]|
  {
    var cut := if NoneBetter(s.queues[loc], loc.side, s.queues[loc][i].order.price) then 1 else 0;
    && cut <= |out.md| && UnlinkTold(s, loc, i, out.md[..cut])
    && PutInPlace(symbols, Without(s, loc, i), o, Output(out.state, out.md[cut..], out.oe))
  }

  ghost predicate ReplaceAnswered(symbols: set<Symbol>, s: State, o: ReplaceOrder, out: Output)
  {
    var origKey, newKey := Key(o.clientId, o.origClOrdId), Key(o.clientId, o.clOrdId);
    && (!OnBook(s, origKey) ==>
          out == Output(s, [], [Reject(CancelReject(o.clientId, o.clOrdId, o.origClOrdId, UnknownOrder,
                                                    "unknown order"))]))
    && (OnBook(s, origKey) && OnBook(s, newKey) ==>
          out == Output(s, [], [Reject(CancelReject(o.clientId, o.clOrdId, o.origClOrdId, DuplicateOrder,
                                                    "duplicate cl_ord_id"))]))
    && (!OnBook(s, newKey) ==>
          forall loc, i: nat {:trigger RestsAt(s, origKey, loc, i)} :: RestsAt(s, origKey, loc, i) ==>
            ReplacedAt(symbols, s, o, loc, i, out))
  }

  /** A flush empties every side and says nothing. */
  predicate FlushAnswered(s: State, out: Output)
  {
    && out == Output(s.(queues := out.state.queues, index := map[]), [], [])
    && out.state.queues.Keys == s.queues.Keys
    && forall loc :: loc in s.queues ==> out.state.queues[loc] == []
  }

  ghost predicate Answered(symbols: set<Symbol>, s: State, r: Request, out: Output)
  {
    match r
    case New(n) => NewAnswered(symbols, s, n, out)
    case Replace(o) => ReplaceAnswered(symbols, s, o, out)
    case Cancel(c) => CancelAnswered(s, c, out)
    case Flush => FlushAnswered(s, out)
  }

  /** The sides that exist are those of the configured symbols. */
  predicate Configured(symbols: set<Symbol>, s: State)
  {
    s.queues.Keys == SidesOf(symbols)
  }

  lemma KnownIsConfigured(symbols: set<Symbol>, s: State, symbol: Symbol)
    requires Configured(symbols, s)
    ensures Known(s, symbol) <==> symbol in symbols
  {
    assert Loc(symbol, Buy) in s.queues <==> Loc(symbol, Buy) in s.queues.Keys;
    assert Loc(symbol, Sell) in s.queues <==> Loc(symbol, Sell) in s.queues.Keys;
  }

  lemma NewIsAnswered(symbols: set<Symbol>, s: State, n: NewOrderSingle)
    requires Inv(s) && Configured(symbols, s)
    ensures NewAnswered(symbols, s, n, Step(s, New(n)))
  {
    hide Inv, Known, OnBook, Served, Accept, Configured;
    OnBookIndexed(s, Key(n.clientId, n.clOrdId));
    KnownIsConfigured(symbols, s, n.symbol);
    if NewOrderStep(s, n).Ok? {
      AcceptServed(s, n);
    }
  }

  /** Why a new order is refused: its key rests already, or else its symbol has no book. */
  lemma RefusalOfRun(symbols: set<Symbol>, past: seq<Request>, n: NewOrderSingle)
    ensures var s := Run(Initial(symbols), past).state;
            match NewOrderStep(s, n)
            case Err(reason) =>
              && reason == (if OnBook(s, Key(n.clientId, n.clOrdId)) then DuplicateOrder else UnknownSymbol)
              && (reason == UnknownSymbol ==> n.symbol !in symbols)
            case Ok(_) => !OnBook(s, Key(n.clientId, n.clOrdId)) && n.symbol in symbols
  {
    hide Run, Inv, Configured, OnBook, Known, Accept;
    var s := Run(Initial(symbols), past).state;
    RunConfigured(symbols, past);
    OnBookIndexed(s, Key(n.clientId, n.clOrdId));
    KnownIsConfigured(symbols, s, n.symbol);
  }

  lemma TailPutInPlace(symbols: set<Symbol>, s: State, o: ReplaceOrder)
    requires Inv(s) && Configured(symbols, s) && Key(o.clientId, o.clOrdId) !in s.index
    ensures PutInPlace(symbols, s, o, ReplaceTail(s, o))
  {
    hide Inv, Known, Served, Accept, Configured;
    KnownIsConfigured(symbols, s, o.symbol);
    assert AskedBy(New(Replacement(o))) == AskedBy(Replace(o));
    if NewOrderStep(s, Replacement(o)).Ok? {
      AcceptServed(s, Replacement(o));
    }
  }

  lemma ReplaceHit(symbols: set<Symbol>, s: State, o: ReplaceOrder, loc: Loc, i: nat)
    requires Inv(s) && Configured(symbols, s) && !OnBook(s, Key(o.clientId, o.clOrdId))
    requires RestsAt(s, Key(o.clientId, o.origClOrdId), loc, i)
    ensures ReplacedAt(symbols, s, o, loc, i, ReplaceStep(s, o))
  {
    hide Inv, OnBook, PutInPlace, Withdraw, Configured, UnlinkTold, ReplaceTail, Lookup, NoneBetter;
    var slot := Slot(loc, i);
    var (s1, md1) := Withdraw(s, slot);
    var tail, out := ReplaceTail(s1, o), ReplaceStep(s, o);
    FoundAt(s, Key(o.clientId, o.origClOrdId), loc, i);
    OnBookIndexed(s, Key(o.clientId, o.clOrdId));
    WithdrawTold(s, loc, i);
    WithdrawInv(s, slot);
    ConfiguredWithout(symbols, s, loc, i);
    TailPutInPlace(symbols, s1, o);
    UnlinkCount(s, loc, i, md1);
    assert out.md[..|md1|] == md1 && out.md[|md1|..] == tail.md && [] + tail.oe == tail.oe;
  }

  lemma ConfiguredWithout(symbols: set<Symbol>, s: State, loc: Loc, i: nat)
    requires Configured(symbols, s) && loc in s.queues && i < |s.queues[loc]|
    ensures Configured(symbols, Without(s, loc, i))
    ensures Without(s, loc, i).index.Keys <= s.index.Keys
  {
  }

  lemma UnlinkCount(s: State, loc: Loc, i: nat, md: seq<MdEvent>)
    requires loc in s.queues && i < |s.queues[loc]| && UnlinkTold(s, loc, i, md)
    ensures |md| == if NoneBetter(s.queues[loc], loc.side, s.queues[loc][i].order.price) then 1 else 0
  {
  }

  lemma ReplaceIsAnswered(symbols: set<Symbol>, s: State, o: ReplaceOrder)
    requires Inv(s) && Configured(symbols, s)
    ensures ReplaceAnswered(symbols, s, o, ReplaceStep(s, o))
  {
    hide Inv, Known, OnBook, Withdraw, Configured, Lookup, ReplacedAt, RestsAt, ReplaceTail;
    var origKey, newKey := Key(o.clientId, o.origClOrdId), Key(o.clientId, o.clOrdId);
    OnBookIndexed(s, origKey);
    OnBookIndexed(s, newKey);
    forall loc, i: nat | !OnBook(s, newKey) && RestsAt(s, origKey, loc, i)
      ensures loc in s.queues && i < |s.queues[loc]| && ReplacedAt(symbols, s, o, loc, i, ReplaceStep(s, o))
    {
      InRange(s, origKey, loc, i);
      ReplaceHit(symbols, s, o, loc, i);
    }
  }

  lemma StepIsAnswered(symbols: set<Symbol>, s: State, r: Request)
    requires Inv(s) && Configured(symbols, s)
    ensures Answered(symbols, s, r, Step(s, r))
  {
    hide Inv, Configured, NewOrderStep, ReplaceStep, CancelStep, NewAnswered, ReplaceAnswered, CancelAnswered;
    match r
    case New(n) => NewIsAnswered(symbols, s, n);
    case Replace(o) => ReplaceIsAnswered(symbols, s, o);
    case Cancel(c) => CancelIsAnswered(s, c);
    case Flush =>
  }

  lemma RunConfigured(symbols: set<Symbol>, past: seq<Request>)
    ensures var s := Run(Initial(symbols), past).state; Inv(s) && Configured(symbols, s)
  {
    hide Run, Inv;
    InitialInv(symbols);
    RunInv(Initial(symbols), past);
    RunKeys(Initial(symbols), past);
  }

  /** In every state that a run can reach, every request is answered so. */
  lemma AnswerOfRun(symbols: set<Symbol>, past: seq<Request>, r: Request)
    ensures var s := Run(Initial(symbols), past).state; Answered(symbols, s, r, Step(s, r))
  {
    hide Run, Inv, Configured, Answered, Step;
    RunConfigured(symbols, past);
    StepIsAnswered(symbols, Run(Initial(symbols), past).state, r);
  }

  /** Why a request is rejected, if it is. */
  ghost function ReasonToReject(symbols: set<Symbol>, s: State, r: Request): Option<(RejectReason, string)>
  {
    match r
    case Cancel(c) =>
      if OnBook(s, Key(c.clientId, c.origClOrdId)) then None else Some((UnknownOrder, "unknown order"))
    case Replace(o) =>
      if !OnBook(s, Key(o.clientId, o.origClOrdId)) then Some((UnknownOrder, "unknown order"))
      else if OnBook(s, Key(o.clientId, o.clOrdId)) then Some((DuplicateOrder, "duplicate cl_ord_id"))
      else if o.symbol !in symbols then Some((UnknownSymbol, "unknown symbol"))
      else None
    case _ => None
  }

  /** The three ids a reject echoes. */
  function Echoed(r: Request): (U64, U64, U64)
    requires r.Cancel? || r.Replace?
  {
    match r
    case Cancel(c) => (c.clientId, c.clOrdId, c.origClOrdId)
    case Replace(o) => (o.clientId, o.clOrdId, o.origClOrdId)
  }

  /**
   In every state that a run can reach, a request is rejected exactly when it has that reason; the reject is then all
   that the lifecycle stream says, and it echoes the request.
   */
  lemma RejectOfRun(symbols: set<Symbol>, past: seq<Request>, r: Request)
    ensures var s := Run(Initial(symbols), past).state;
            var out, why := Step(s, r), ReasonToReject(symbols, s, r);
            && ((exists k :: 0 <= k < |out.oe| && out.oe[k].Reject?) <==> why.Some?)
            && (why.Some? ==>
                  out.oe == [Reject(CancelReject(Echoed(r).0, Echoed(r).1, Echoed(r).2, why.value.0, why.value.1))])
  {
    hide Run, Inv, Configured, Step, OnBook, RestsAt;
    var s := Run(Initial(symbols), past).state;
    AnswerOfRun(symbols, past, r);
    match r
    case New(n) =>
    case Cancel(c) => AnsweredReject(symbols, s, r, Step(s, r));
    case Replace(o) => AnsweredReject(symbols, s, r, Step(s, r));
    case Flush =>
  }

  lemma PutInPlaceRejects(symbols: set<Symbol>, s: State, o: ReplaceOrder, loc: Loc, i: nat, out: Output)
    requires loc in s.queues && i < |s.queues[loc]| && ReplacedAt(symbols, s, o, loc, i, out)
    ensures (exists k :: 0 <= k < |out.oe| && out.oe[k].Reject?) <==> o.symbol !in symbols
    ensures o.symbol !in symbols ==>
              out.oe == [Reject(CancelReject(o.clientId, o.clOrdId, o.origClOrdId, UnknownSymbol, "unknown symbol"))]
  {
    hide Without, UnlinkTold, BooksServed, Announced, NoneBetter;
    assert o.symbol !in symbols ==> out.oe[0].Reject?;
  }

  lemma AnsweredReject(symbols: set<Symbol>, s: State, r: Request, out: Output)
    requires (r.Cancel? || r.Replace?) && Answered(symbols, s, r, out)
    ensures var why := ReasonToReject(symbols, s, r);
            && ((exists k :: 0 <= k < |out.oe| && out.oe[k].Reject?) <==> why.Some?)
            && (why.Some? ==>
                  out.oe == [Reject(CancelReject(Echoed(r).0, Echoed(r).1, Echoed(r).2, why.value.0, why.value.1))])
  {
    hide Without, UnlinkTold, BooksServed, Announced, NoneBetter;
    match r
    case Cancel(c) =>
      if OnBook(s, Key(c.clientId, c.origClOrdId)) {
        var loc, i: nat :| RestsAt(s, Key(c.clientId, c.origClOrdId), loc, i);
        assert CancelledAt(s, loc, i, out);
      } else {
        assert out.oe[0].Reject?;
      }
    case Replace(o) =>
      if OnBook(s, Key(o.clientId, o.origClOrdId)) && !OnBook(s, Key(o.clientId, o.clOrdId)) {
        var loc, i: nat :| RestsAt(s, Key(o.clientId, o.origClOrdId), loc, i);
        PutInPlaceRejects(symbols, s, o, loc, i, out);
      } else {
        assert out.oe[0].Reject?;
      }
  }

}
