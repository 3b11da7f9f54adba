/** What each request handler does to the engine's view, shown to be what the flat engine does. */
module HandlerSteps {
  import opened Wrappers
  import opened Types
  import opened PriceTimeQueue
  import opened FlatEngine
  import opened FlatInvariant
  import opened LevelStore
  import opened LevelOps
  import opened StoreSteps
  import opened EngineView

  // ---------- emissions ----------

  function Reported<N>(v: View<N>, event: OeEvent): View<N>
  {
    v.(nextExec := Succ(v.nextExec), oe := v.oe + [event])
  }

  function Published<N>(v: View<N>, events: seq<MdEvent>): View<N>
  {
    v.(md := v.md + events)
  }

  /** The book update read off the first level of a side. */
  function UpdateAt<N>(levels: seq<Level<N>>, loc: Loc, securityId: U64): MdEvent
  {
    Update(if levels == [] then UpdateMsg(securityId, DeleteOrder, loc.side, None, None)
           else UpdateMsg(securityId, Change, loc.side, Some(levels[0].price), Some(levels[0].total)),
           loc.symbol)
  }

  predicate TopPriceIs<N>(levels: seq<Level<N>>, price: U64)
  {
    levels != [] && levels[0].price == price
  }

  /** The first level reports what the flat queue does: the same update, and the same best price. */
  ghost predicate TopsAgree<N>(sides: map<Loc, seq<Level<N>>>, queues: map<Loc, seq<Resting>>, loc: Loc,
        securityId: U64, price: U64)
  {
    var agree :=
      && loc in sides && loc in queues
      && UpdateAt(sides[loc], loc, securityId) == UpdateFor(queues[loc], loc, securityId)
      && (TopPriceIs(sides[loc], price) <==> BestPrice(queues[loc]) == Some(price));
    agree
  }

  lemma TopsRead<N>(v: View<N>, loc: Loc, securityId: U64, price: U64)
    requires Linked(v) && Tidy(v.store) && loc in v.store.sides
    ensures TopsAgree(v.store.sides, AbsOf(v).queues, loc, securityId, price)
  {
    TopStep(v.store, loc);
  }

  lemma IndexKeys<N>(v: View<N>)
    ensures AbsOf(v).index.Keys == v.store.index.Keys && AbsOf(v).queues.Keys == v.store.sides.Keys
  {
  }

  // ---------- new order ----------

  /** The accepted order's first report. */
  ghost function Acknowledged<N>(v: View<N>, r: NewOrderSingle): View<N>
  {
    Reported(v, ReportFor(MakeOrder(r), v.nextId, v.nextExec, ExecType.NewOrder, OrdStatus.NewOrder, None, None, None))
  }

  function SummaryOf(r: NewOrderSingle, t: Order, takerId: nat, trades: nat, last: Option<U64>): seq<MdEvent>
    requires t.leavesQty <= r.orderQty
  {
    if trades == 0 || last.None? then []
    else [Summary(SummaryMsg(r.securityId, r.side, last.value, r.orderQty - t.leavesQty), r.symbol, takerId)]
  }

  /** After trades: the summary and the trade report. */
  ghost function Summarised<N>(v: View<N>, r: NewOrderSingle, t: Order, takerId: nat, trades: nat,
      last: Option<U64>): View<N>
    requires t.leavesQty <= r.orderQty
  {
    if trades == 0 || last.None? then v
    else Reported(Published(v, SummaryOf(r, t, takerId, trades, last)),
                  ReportFor(t, takerId, v.nextExec, ExecType.Trade,
                            if t.leavesQty == 0 then OrdStatus.Filled else OrdStatus.PartiallyFilled,
                            None, Some(r.orderQty - t.leavesQty), last))
  }

  /** The residual rests, or is dropped. */
  ghost predicate Rested<N>(v: View<N>, v': View<N>, t: Order, takerId: nat, n: Option<N>)
  {
    var rested :=
      if t.leavesQty > 0 && t.price != 0
      then n.Some? && PlacesOrder(v.store, v'.store, n.value, Resting(takerId, t)) && v' == v.(store := v'.store,
            nextId := v.nextId + 1)
      else v' == v.(nextId := v.nextId + 1);
    rested
  }

  /** The consumed side's update after trades, and the own side's when the residual is its new best. */
  ghost function Updates<N>(sides: map<Loc, seq<Level<N>>>, r: NewOrderSingle, t: Order, trades: nat): seq<MdEvent>
    requires Loc(r.symbol, Buy) in sides && Loc(r.symbol, Sell) in sides
  {
    var own, opp := Loc(r.symbol, r.side), Loc(r.symbol, Opposite(r.side));
    (if trades > 0 then [UpdateAt(sides[opp], opp, r.securityId)] else [])
    + (if t.leavesQty > 0 && t.price != 0 && TopPriceIs(sides[own], r.price)
       then [UpdateAt(sides[own], own, r.securityId)] else [])
  }

  ghost predicate Fresh<N>(v: View<N>, r: NewOrderSingle)
  {
    var fresh_ :=
      && Ready(v) && Known(AbsOf(v), r.symbol) && Key(r.clientId, r.clOrdId) !in v.store.index;
    fresh_
  }

  /** The match and the placing together are the flat engine's settlement. */
  lemma SettleGives<N>(v: View<N>, v2: View<N>, v3: View<N>, v4: View<N>, r: NewOrderSingle, m: Matched, trades: nat,
                       last: Option<U64>, n: Option<N>)
    requires Fresh(v, r)
    requires MatchedInto(Acknowledged(v, r), v2, Loc(r.symbol, Opposite(r.side)), MakeOrder(r), v.nextId, m, trades,
        last)
    requires v3.store == v2.store && v3.nextTrade == v2.nextTrade && v3.nextId == v2.nextId
    requires Rested(v3, v4, m.taker, v.nextId, n)
    ensures m == MatchFor(AbsOf(v), r)
    ensures Linked(v4) && Tidy(v4.store)
    ensures AbsOf(v4) == Settle(AbsOf(v), r).(nextId := v.nextId + 1, nextExec := v4.nextExec)
  {
    var s, opp := AbsOf(v), Loc(r.symbol, Opposite(r.side));
    assert AbsOf(Acknowledged(v, r)) == s.(nextExec := Succ(v.nextExec));
    if m.taker.leavesQty > 0 && m.taker.price != 0 {
      var x := Resting(v.nextId, m.taker);
      PlaceStep(v3.store, v4.store, n.value, x);
      PlaceStepTotals(v3.store, v4.store, n.value, x);
      PlaceStepTidy(v3.store, v4.store, n.value, x);
    }
  }

  /** An accepted new order: acknowledge, match, summarise, rest the residual, report the tops. */
  ghost predicate Accepts<N>(v: View<N>, v2: View<N>, v4: View<N>, r: NewOrderSingle, m: Matched, trades: nat,
                             last: Option<U64>, n: Option<N>)
  {
    var accepts :=
      && Fresh(v, r)
      && MatchedInto(Acknowledged(v, r), v2, Loc(r.symbol, Opposite(r.side)), MakeOrder(r), v.nextId, m, trades, last)
      && Rested(Summarised(v2, r, m.taker, v.nextId, trades, last), v4, m.taker, v.nextId, n);
    accepts
  }

  /** The two reports of an accepted order, in order, each with the next execution id. */
  lemma ReportsMatch<N>(v: View<N>, v2: View<N>, r: NewOrderSingle, m: Matched)
    requires Known(AbsOf(v), r.symbol) && m == MatchFor(AbsOf(v), r)
    requires v2.oe == Acknowledged(v, r).oe && v2.nextExec == Acknowledged(v, r).nextExec
    ensures var v3 := Summarised(v2, r, m.taker, v.nextId, |m.fills|, LastPrice(m.fills));
            && v3.oe == v.oe + AcceptOe(AbsOf(v), r)
            && v3.nextExec == Advance(v.nextExec, |AcceptOe(AbsOf(v), r)|)
  {
    var v3 := Summarised(v2, r, m.taker, v.nextId, |m.fills|, LastPrice(m.fills));
    assert v3.oe == v.oe + AcceptOe(AbsOf(v), r);
    assert Advance(v.nextExec, 1) == Succ(v.nextExec) && Advance(v.nextExec, 2) == Succ(Succ(v.nextExec));
  }

  /** What follows the trades in the market data of an accepted order: summary, consumed side, own side. */
  lemma UpdatesMatch<N>(s: State, sides: map<Loc, seq<Level<N>>>, queues: map<Loc, seq<Resting>>, r: NewOrderSingle,
      m: Matched)
    requires Known(s, r.symbol) && m == MatchFor(s, r) && queues == Settle(s, r).queues
    requires TopsAgree(sides, queues, Loc(r.symbol, r.side), r.securityId, r.price)
    requires TopsAgree(sides, queues, Loc(r.symbol, Opposite(r.side)), r.securityId, r.price)
    ensures SummaryOf(r, m.taker, s.nextId, |m.fills|, LastPrice(m.fills)) + Updates(sides, r, m.taker, |m.fills|)
         == AfterTrades(s, r)
  {
  }

  lemma MarketDataMatches<N>(v: View<N>, v2: View<N>, v4: View<N>, r: NewOrderSingle, m: Matched)
    requires Known(AbsOf(v), r.symbol) && m == MatchFor(AbsOf(v), r)
    requires v2.md == v.md + TradesFor(MakeOrder(r), v.nextId, m.fills, v.nextTrade)
    requires Linked(v4) && Tidy(v4.store) && AbsOf(v4).queues == Settle(AbsOf(v), r).queues
    requires v4.md == v2.md + SummaryOf(r, m.taker, v.nextId, |m.fills|, LastPrice(m.fills))
    ensures Loc(r.symbol, Buy) in v4.store.sides && Loc(r.symbol, Sell) in v4.store.sides
    ensures v4.md + Updates(v4.store.sides, r, m.taker, |m.fills|) == v.md + AcceptMd(AbsOf(v), r)
  {
    IndexKeys(v4);
    TopsRead(v4, Loc(r.symbol, Opposite(r.side)), r.securityId, r.price);
    TopsRead(v4, Loc(r.symbol, r.side), r.securityId, r.price);
    UpdatesMatch(AbsOf(v), v4.store.sides, AbsOf(v4).queues, r, m);
    Regroup(v.md, TradesFor(MakeOrder(r), v.nextId, m.fills, v.nextTrade),
            SummaryOf(r, m.taker, v.nextId, |m.fills|, LastPrice(m.fills)), Updates(v4.store.sides, r, m.taker,
                |m.fills|));
  }

  lemma Regroup<T>(a: seq<T>, b: seq<T>, c: seq<T>, d: seq<T>)
    ensures ((a + b) + c) + d == a + (b + (c + d))
  {
  }

  lemma SettledIsAccepted<N>(s: State, v4: View<N>, r: NewOrderSingle)
    requires Inv(s) && Known(s, r.symbol) && Key(r.clientId, r.clOrdId) !in s.index
    requires Linked(v4) && Tidy(v4.store) && v4.nextExec == Advance(s.nextExec, |AcceptOe(s, r)|)
    requires AbsOf(v4) == Settle(s, r).(nextId := s.nextId + 1, nextExec := v4.nextExec)
    ensures Ready(v4) && AbsOf(v4) == Accept(s, r).state
  {
    AcceptInv(s, r);
  }

  lemma AcceptsState<N>(v: View<N>, v2: View<N>, v4: View<N>, r: NewOrderSingle, m: Matched, trades: nat,
                        last: Option<U64>, n: Option<N>)
    requires Accepts(v, v2, v4, r, m, trades, last, n)
    ensures Ready(v4) && AbsOf(v4) == Accept(AbsOf(v), r).state
    ensures m == MatchFor(AbsOf(v), r) && v4.oe == v.oe + AcceptOe(AbsOf(v), r)
  {
    SettleGives(v, v2, Summarised(v2, r, m.taker, v.nextId, trades, last), v4, r, m, trades, last, n);
    ReportsMatch(v, v2, r, m);
    IndexKeys(v);
    SettledIsAccepted(AbsOf(v), v4, r);
  }

  lemma AcceptGives<N>(v: View<N>, v2: View<N>, v4: View<N>, r: NewOrderSingle, m: Matched, trades: nat,
                       last: Option<U64>, n: Option<N>)
    requires Accepts(v, v2, v4, r, m, trades, last, n)
    ensures Loc(r.symbol, Buy) in v4.store.sides && Loc(r.symbol, Sell) in v4.store.sides
    ensures Gives(v, Published(v4, Updates(v4.store.sides, r, m.taker, trades)), Accept(AbsOf(v), r))
  {
    AcceptsState(v, v2, v4, r, m, trades, last, n);
    MarketDataMatches(v, v2, v4, r, m);
    assert AbsOf(Published(v4, Updates(v4.store.sides, r, m.taker, trades))) == AbsOf(v4);
  }

  /** A new order handled: accepted as the flat engine does, or rejected for its reason with nothing done. */
  ghost predicate HandlesNew<N>(v: View<N>, v': View<N>, r: NewOrderSingle, rejected: Option<RejectReason>)
  {
    var handled :=
      match NewOrderStep(AbsOf(v), r)
      case Ok(out) => rejected == None && Gives(v, v', out)
      case Err(reason) => rejected == Some(reason) && v' == v;
    handled
  }

  lemma AcknowledgedReady<N>(v: View<N>, r: NewOrderSingle)
    requires Fresh(v, r)
    ensures Ready(Acknowledged(v, r))
  {
    ReportKeepsReady(v, Acknowledged(v, r));
  }

  /** An incoming order acknowledged and crossed: what remains of it is t. */
  ghost predicate Crossed<N>(v: View<N>, v2: View<N>, r: NewOrderSingle, m: Matched, trades: nat, last: Option<U64>,
      t: Order)
  {
    var crossed :=
      && Fresh(v, r)
      && MatchedInto(Acknowledged(v, r), v2, Loc(r.symbol, Opposite(r.side)), MakeOrder(r), v.nextId, m, trades, last)
      && t == m.taker;
    crossed
  }

  /** What the rest of the handler relies on; matching adds no key, so the incoming one is still free. */
  ghost predicate Residual<N>(v2: View<N>, r: NewOrderSingle, trades: nat, last: Option<U64>, t: Order)
  {
    var residual :=
      && KeyOf(t) !in v2.store.index && LocOf(t) == Loc(r.symbol, r.side)
      && t.leavesQty <= r.orderQty && (trades > 0 <==> last.Some?);
    residual
  }

  lemma CrossedLeaves<N>(v: View<N>, v2: View<N>, r: NewOrderSingle, m: Matched, trades: nat, last: Option<U64>,
      t: Order)
    requires Crossed(v, v2, r, m, trades, last, t)
    ensures Residual(v2, r, trades, last, t)
  {
    IndexKeys(v2);
    IndexKeys(Acknowledged(v, r));
  }

  lemma AcceptHandles<N>(v: View<N>, v2: View<N>, v4: View<N>, r: NewOrderSingle, m: Matched, trades: nat,
                         last: Option<U64>, t: Order, n: Option<N>)
    requires Crossed(v, v2, r, m, trades, last, t) && Residual(v2, r, trades, last, t)
    requires Rested(Summarised(v2, r, t, v.nextId, trades, last), v4, t, v.nextId, n)
    ensures Loc(r.symbol, Buy) in v4.store.sides && Loc(r.symbol, Sell) in v4.store.sides
    ensures HandlesNew(v, Published(v4, Updates(v4.store.sides, r, t, trades)), r, None)
  {
    AcceptGives(v, v2, v4, r, m, trades, last, n);
    IndexKeys(v);
  }

  // ---------- withdrawing ----------

  ghost predicate CanWithdraw<N>(st: Store<N>, n: N)
  {
    var possible :=
      && n in st.heap
      && var o := st.heap[n].order;
      && LocOf(o) in st.sides && LinkedAt(o.side, st.sides[LocOf(o)], o.price, n)
      && UnlinkedIn(st.sides[LocOf(o) := CancelIn(o.side, st.sides[LocOf(o)], o.price, n, o.leavesQty)], n);
    possible
  }

  /** The order unlinked, its identity dropped, its node freed. */
  ghost function Withdrawn<N>(st: Store<N>, n: N): Store<N>
    requires CanWithdraw(st, n)
  {
    var o := st.heap[n].order;
    Store(st.heap - {n}, st.sides[LocOf(o) := CancelIn(o.side, st.sides[LocOf(o)], o.price, n, o.leavesQty)],
          st.index - {KeyOf(o)})
  }

  /** Where a live node stands. */
  lemma StandsAt<N>(st: Store<N>, n: N) returns (i: nat, k: nat)
    requires StoreOk(st) && n in st.heap
    ensures var o := st.heap[n].order;
            && LocOf(o) in st.sides
            && var levels := st.sides[LocOf(o)];
            && LinkedAt(o.side, levels, o.price, n)
            && i == LowerBound(o.side, levels, o.price) < |levels|
            && k == IndexIn(levels[i].orders, n) < |levels[i].orders| && levels[i].orders[k] == n
  {
    assert NodeLinked(st, n);
    var o := st.heap[n].order;
    var levels := st.sides[LocOf(o)];
    var m :| 0 <= m < |Nodes(levels)| && Nodes(levels)[m] == n;
    i, k := LevelOf(levels, m);
    assert LevelsSorted(st.heap, o.side, levels);
    LowerBoundAt(st.heap, o.side, levels, i);
    k := IndexIn(levels[i].orders, n);
  }

  /** Taking the order out and then dropping its level if it emptied. */
  lemma WithdrawLayout<N>(st: Store<N>, n: N, i: nat, k: nat)
    requires StoreOk(st) && TotalsOk(st) && Tidy(st) && n in st.heap
    requires var o := st.heap[n].order;
             && LocOf(o) in st.sides && i < |st.sides[LocOf(o)]| && k < |st.sides[LocOf(o)][i].orders|
             && st.sides[LocOf(o)][i].orders[k] == n && LinkedAt(o.side, st.sides[LocOf(o)], o.price, n)
             && i == LowerBound(o.side, st.sides[LocOf(o)], o.price) && k == IndexIn(st.sides[LocOf(o)][i].orders, n)
    ensures CanWithdraw(st, n) && StoreOk(Withdrawn(st, n)) && TotalsOk(Withdrawn(st, n)) && Tidy(Withdrawn(st, n))
    ensures var loc, m := LocOf(st.heap[n].order), PositionOf(st.sides[LocOf(st.heap[n].order)], i, k);
            && m < |Queues(st)[loc]| && Queues(st)[loc][m] == st.heap[n]
            && Queues(Withdrawn(st, n)) == Queues(st)[loc := RemoveAt(Queues(st)[loc], m)]
            && Entries(Withdrawn(st, n)) == Entries(st) - {KeyOf(st.heap[n].order)}
  {
    var o := st.heap[n].order;
    var loc := LocOf(o);
    var levels := st.sides[loc];
    var taken := TakeFrom(levels, i, k, o.leavesQty);
    var st1 := Store(st.heap - {n}, st.sides[loc := taken], st.index - {KeyOf(o)});
    TakeOrderStep(st, st1, loc, i, k);
    TakenTotals(st, st1, loc, i, k);
    TakenUnlinked(st, loc, i, k, o.leavesQty);
    if taken[i].orders == [] {
      DropStep(st1, loc, i);
      DropNodes(taken, i);
      assert st1.sides[loc := RemoveAt(taken, i)] == st.sides[loc := RemoveAt(taken, i)];
    }
    WithdrawTidy(st, n);
  }

  lemma WithdrawTidy<N>(st: Store<N>, n: N)
    requires Tidy(st) && CanWithdraw(st, n)
    ensures Tidy(Withdrawn(st, n))
  {
    var st' := Withdrawn(st, n);
    forall l | l in st'.sides
      ensures NoEmptyLevel(st'.sides[l])
    {
      assert NoEmptyLevel(st.sides[l]);
    }
  }

  /** Unlinking a live order is the flat engine's withdrawal of the slot that lookup finds. */
  lemma WithdrawGives<N>(v: View<N>, n: N) returns (slot: Slot)
    requires Ready(v) && n in v.store.heap
    ensures CanWithdraw(v.store, n)
    ensures Lookup(AbsOf(v), KeyOf(v.store.heap[n].order)) == Some(slot)
    ensures slot.loc == LocOf(v.store.heap[n].order) && AbsOf(v).queues[slot.loc][slot.pos] == v.store.heap[n]
    ensures var v' := v.(store := Withdrawn(v.store, n));
            Ready(v') && AbsOf(v') == Withdraw(AbsOf(v), slot).0
  {
    var i, k := StandsAt(v.store, n);
    WithdrawLayout(v.store, n, i, k);
    var loc := LocOf(v.store.heap[n].order);
    slot := Slot(loc, PositionOf(v.store.sides[loc], i, k));
    LookupExact(AbsOf(v), loc, slot.pos);
    WithdrawInv(AbsOf(v), slot);
  }

  /** The update a withdrawal publishes, decided before the order is unlinked and read off after. */
  ghost function WithdrawUpdates<N>(st: Store<N>, n: N): seq<MdEvent>
    requires CanWithdraw(st, n)
  {
    var o := st.heap[n].order;
    if TopPriceIs(st.sides[LocOf(o)], o.price)
        then [UpdateAt(Withdrawn(st, n).sides[LocOf(o)], LocOf(o), o.securityId)] else []
  }

  lemma WithdrawPublishes<N>(v: View<N>, n: N, slot: Slot)
    requires Ready(v) && CanWithdraw(v.store, n) && LocOf(v.store.heap[n].order) == slot.loc
    requires slot.loc in AbsOf(v).queues && slot.pos < |AbsOf(v).queues[slot.loc]|
    requires AbsOf(v).queues[slot.loc][slot.pos] == v.store.heap[n]
    requires var v' := v.(store := Withdrawn(v.store, n));
             Ready(v') && AbsOf(v') == Withdraw(AbsOf(v), slot).0
    ensures WithdrawUpdates(v.store, n) == Withdraw(AbsOf(v), slot).1
  {
    var o, v' := v.store.heap[n].order, v.(store := Withdrawn(v.store, n));
    TopsRead(v, slot.loc, o.securityId, o.price);
    TopsRead(v', slot.loc, o.securityId, o.price);
  }

  // ---------- cancel and replace ----------

  /** A cancel that finds its order. */
  lemma CancelGives<N>(v: View<N>, n: N, c: CancelOrder) returns (v': View<N>)
    requires Ready(v) && n in v.store.heap && KeyOf(v.store.heap[n].order) == Key(c.clientId, c.origClOrdId)
    ensures CanWithdraw(v.store, n)
    ensures v' == Published(Reported(v.(store := Withdrawn(v.store, n)),
                                     ReportFor(v.store.heap[n].order, v.store.heap[n].id, v.nextExec, ExecType.Canceled,
                                               OrdStatus.Canceled, Some(c.origClOrdId), None, None)),
                            WithdrawUpdates(v.store, n))
    ensures Gives(v, v', CancelStep(AbsOf(v), c))
  {
    var slot := WithdrawGives(v, n);
    WithdrawPublishes(v, n, slot);
    var v1, x := v.(store := Withdrawn(v.store, n)), v.store.heap[n];
    v' := Published(Reported(v1, ReportFor(x.order, x.id, v.nextExec, ExecType.Canceled, OrdStatus.Canceled,
                                           Some(c.origClOrdId), None, None)), WithdrawUpdates(v.store, n));
    ReportKeepsReady(v1, v');
  }

  lemma ReportKeepsReady<N>(v: View<N>, v': View<N>)
    requires Ready(v) && v'.store == v.store && v'.nextTrade == v.nextTrade && v'.nextId == v.nextId
    ensures Ready(v') && AbsOf(v') == AbsOf(v).(nextExec := v'.nextExec)
  {
    CountersFree(AbsOf(v), AbsOf(v'));
  }

  /** The first half of a replace. */
  lemma WithdrawnGives<N>(v: View<N>, n: N) returns (slot: Slot, v': View<N>)
    requires Ready(v) && n in v.store.heap
    ensures CanWithdraw(v.store, n)
    ensures v' == Published(v.(store := Withdrawn(v.store, n)), WithdrawUpdates(v.store, n))
    ensures Lookup(AbsOf(v), KeyOf(v.store.heap[n].order)) == Some(slot)
    ensures Gives(v, v', Output(Withdraw(AbsOf(v), slot).0, Withdraw(AbsOf(v), slot).1, []))
  {
    slot := WithdrawGives(v, n);
    WithdrawPublishes(v, n, slot);
    v' := Published(v.(store := Withdrawn(v.store, n)), WithdrawUpdates(v.store, n));
    assert AbsOf(v') == AbsOf(v.(store := Withdrawn(v.store, n)));
    assert v.oe + [] == v.oe;
  }

  lemma ThenGives<N>(v: View<N>, v1: View<N>, v2: View<N>, a: Output, b: Output)
    requires Gives(v, v1, a) && Gives(v1, v2, b)
    ensures Gives(v, v2, Then(a, b))
  {
    assert (v.md + a.md) + b.md == v.md + (a.md + b.md);
    assert (v.oe + a.oe) + b.oe == v.oe + (a.oe + b.oe);
  }

  /**
   A replace that finds its order and a free key: withdraw, then the new terms handled as a new order, or a reject.
   */
  lemma ReplaceGives<N>(v: View<N>, v1: View<N>, v2: View<N>, slot: Slot, r: ReplaceOrder)
    requires Lookup(AbsOf(v), Key(r.clientId, r.origClOrdId)) == Some(slot)
    requires Key(r.clientId, r.clOrdId) !in v.store.index
    requires Gives(v, v1, Output(Withdraw(AbsOf(v), slot).0, Withdraw(AbsOf(v), slot).1, []))
    requires Gives(v1, v2, ReplaceTail(AbsOf(v1), r))
    ensures Gives(v, v2, ReplaceStep(AbsOf(v), r))
  {
    IndexKeys(v);
    var (s1, md) := Withdraw(AbsOf(v), slot);
    ThenGives(v, v1, v2, Output(s1, md, []), ReplaceTail(s1, r));
  }

  /** The second half of a replace, once the new terms were handled and a reject answered. */
  lemma TailGives<N>(v: View<N>, v1: View<N>, v2: View<N>, r: ReplaceOrder, rejected: Option<RejectReason>)
    requires Ready(v) && HandlesNew(v, v1, Replacement(r), rejected)
    requires v2 == if rejected == None then v1
                   else v1.(oe := v1.oe + [RejectFor(r.clientId, r.clOrdId, r.origClOrdId, rejected.value)])
    ensures Gives(v, v2, ReplaceTail(AbsOf(v), r))
  {
    if rejected.Some? {
      RejectGives(v, RejectFor(r.clientId, r.clOrdId, r.origClOrdId, rejected.value));
    }
  }

  /** A reject changes nothing but the order-entry stream. */
  lemma RejectGives<N>(v: View<N>, event: OeEvent)
    requires Ready(v)
    ensures Gives(v, v.(oe := v.oe + [event]), Output(AbsOf(v), [], [event]))
  {
    assert v.md + [] == v.md;
    assert AbsOf(v.(oe := v.oe + [event])) == AbsOf(v);
  }

  lemma NothingGives<N>(v: View<N>)
    requires Ready(v)
    ensures Gives(v, v, Output(AbsOf(v), [], []))
  {
    assert v.md + [] == v.md && v.oe + [] == v.oe;
  }

  /** The index entry of a key leads to a live order with that key; without one, lookup misses. */
  lemma IndexLeads<N>(v: View<N>, key: Key)
    requires Ready(v)
    ensures if key in v.store.index then v.store.index[key] in v.store.heap &&
          KeyOf(v.store.heap[v.store.index[key]].order) == key
            else Lookup(AbsOf(v), key) == None
  {
    if key in v.store.index {
      assert IndexEntryOk(v.store, key);
    } else {
      IndexKeys(v);
      LookupMiss(AbsOf(v), key);
    }
  }

  /** A replace refused before anything was withdrawn. */
  lemma ReplaceRefused<N>(v: View<N>, r: ReplaceOrder, reason: RejectReason)
    requires Ready(v)
    requires reason == if Key(r.clientId, r.origClOrdId) in v.store.index then DuplicateOrder else UnknownOrder
    requires reason == DuplicateOrder ==> Key(r.clientId, r.clOrdId) in v.store.index
    ensures Gives(v, v.(oe := v.oe + [RejectFor(r.clientId, r.clOrdId, r.origClOrdId, reason)]), ReplaceStep(AbsOf(v),
        r))
  {
    var oldKey := Key(r.clientId, r.origClOrdId);
    IndexLeads(v, oldKey);
    IndexKeys(v);
    RejectGives(v, RejectFor(r.clientId, r.clOrdId, r.origClOrdId, reason));
    if oldKey in v.store.index {
      var slot := WithdrawGives(v, v.store.index[oldKey]);
    }
  }

  // ---------- flush ----------

  /** Popping the first order of a side, totals unattended. */
  lemma DrainPop<N>(st: Store<N>, loc: Loc)
    requires StoreOk(st) && Tidy(st) && loc in st.sides && st.sides[loc] != []
    ensures CanPop(st, loc, 0) && StoreOk(Popped(st, loc, 0))
    ensures |Nodes(Popped(st, loc, 0).sides[loc])| + 1 == |Nodes(st.sides[loc])|
  {
    var levels := st.sides[loc];
    assert NoEmptyLevel(levels) && SideLinked(st.heap, loc, levels) && LevelsSorted(st.heap, loc.side, levels);
    var n, popped := levels[0].orders[0], PopAt(levels, 0);
    TakenUnlinked(st, loc, 0, 0, 0);
    var taken := TakeFrom(levels, 0, 0, 0);
    assert RemoveAt(levels[0].orders, 0) == levels[0].orders[1..];
    assert popped[1..] == levels[1..] && taken[1..] == levels[1..];
    TakeFromSorted(st.heap, loc, levels, 0, 0, 0);
    SortedBy(st.heap - {n}, st.heap - {n}, loc.side, taken, popped);
    assert Nodes(popped) == Nodes(levels)[1..] == RemoveAt(Nodes(levels), 0);
    DrainUnlinks(st, loc);
    TakeNode(st, Popped(st, loc, 0), loc, 0);
  }

  lemma DrainUnlinks<N>(st: Store<N>, loc: Loc)
    requires StoreOk(st) && loc in st.sides && st.sides[loc] != [] && st.sides[loc][0].orders != []
    ensures CanPop(st, loc, 0)
  {
    PoppedUnlinked(st, loc, 0, 0);
    var levels, n := st.sides[loc], st.sides[loc][0].orders[0];
    var a, b := PopAt(levels, 0), PopAt(ReduceTotal(levels, 0, 0), 0);
    assert a[1..] == b[1..] && Nodes(a) == Nodes(b);
    FrontIs(st, loc, 0);
    var was, now := st.sides[loc := b], st.sides[loc := a];
    forall l | l in now
      ensures n !in Nodes(now[l])
    {
      assert n !in Nodes(was[l]);
      assert now[l] == if l == loc then a else was[l];
    }
  }

  /** One turn of the drain: pop and release the head, and erase the level when it empties. */
  ghost function Drained<N>(st: Store<N>, loc: Loc): Store<N>
    requires CanPop(st, loc, 0)
  {
    var st1 := Popped(st, loc, 0);
    if st1.sides[loc][0].orders == [] then WithSide(st1, loc, st1.sides[loc][1..]) else st1
  }

  lemma DrainStep<N>(st: Store<N>, loc: Loc)
    requires StoreOk(st) && Tidy(st) && loc in st.sides && st.sides[loc] != []
    ensures CanPop(st, loc, 0) && StoreOk(Drained(st, loc)) && Tidy(Drained(st, loc))
    ensures |Nodes(Drained(st, loc).sides[loc])| < |Nodes(st.sides[loc])|
  {
    hide StoreOk;
    DrainPop(st, loc);
    var st1 := Popped(st, loc, 0);
    if st1.sides[loc][0].orders == [] {
      DropStep(st1, loc, 0);
      assert RemoveAt(st1.sides[loc], 0) == st1.sides[loc][1..];
    }
    forall l | l in Drained(st, loc).sides
      ensures NoEmptyLevel(Drained(st, loc).sides[l])
    {
      assert NoEmptyLevel(st.sides[l]);
    }
  }

  /** While a side drains, nothing else moves. */
  ghost predicate Draining<N>(v0: View<N>, v: View<N>, loc: Loc)
  {
    var draining :=
      && StoreOk(v.store) && Tidy(v.store) && loc in v0.store.sides && loc in v.store.sides
      && v == v0.(store := v.store) && v.store.sides == v0.store.sides[loc := v.store.sides[loc]];
    draining
  }

  lemma DrainOn<N>(v0: View<N>, v: View<N>, loc: Loc)
    requires Draining(v0, v, loc) && v.store.sides[loc] != []
    ensures CanPop(v.store, loc, 0)
    ensures Draining(v0, v.(store := Drained(v.store, loc)), loc)
    ensures |Nodes(Drained(v.store, loc).sides[loc])| < |Nodes(v.store.sides[loc])|
  {
    DrainStep(v.store, loc);
    var sides := Drained(v.store, loc).sides;
    assert sides == v.store.sides[loc := sides[loc]];
  }

  /** All books but those still to do are empty. */
  ghost predicate Flushing<N>(v0: View<N>, v: View<N>, todo: set<Symbol>)
  {
    var flushing :=
      && StoreOk(v.store) && Tidy(v.store) && v == v0.(store := v.store) && v.store.sides.Keys == v0.store.sides.Keys
      && forall loc {:trigger v.store.sides[loc]} :: loc in v.store.sides && loc.symbol !in todo
          ==> v.store.sides[loc] == [];
    flushing
  }

  lemma FlushOn<N>(v0: View<N>, v: View<N>, v1: View<N>, v2: View<N>, todo: set<Symbol>, symbol: Symbol)
    requires Flushing(v0, v, todo)
    requires Draining(v, v1, Loc(symbol, Buy)) && v1.store.sides[Loc(symbol, Buy)] == []
    requires Draining(v1, v2, Loc(symbol, Sell)) && v2.store.sides[Loc(symbol, Sell)] == []
    ensures Flushing(v0, v2, todo - {symbol})
  {
    forall loc | loc in v2.store.sides && loc.symbol !in todo - {symbol}
      ensures v2.store.sides[loc] == []
    {
      assert loc in v.store.sides && loc == Loc(loc.symbol, if loc.side.Buy? then Buy else Sell);
    }
  }

  /** When every side is empty, no node is live and no key is indexed. */
  lemma AllDrained<N>(st: Store<N>)
    requires StoreOk(st) && forall loc {:trigger st.sides[loc]} :: loc in st.sides ==> st.sides[loc] == []
    ensures st.heap == map[] && st.index == map[]
  {
    assert forall n {:trigger n in st.heap} :: n in st.heap ==> NodeLinked(st, n);
    assert st.heap.Keys == {};
    assert forall k {:trigger k in st.index} :: k in st.index ==> IndexEntryOk(st, k);
    assert st.index.Keys == {};
  }

  lemma FlushGives<N>(v: View<N>, v': View<N>)
    requires Ready(v) && Flushing(v, v', {})
    ensures Gives(v, v', Step(AbsOf(v), Flush))
  {
    AllDrained(v'.store);
    EmptyLayout(v'.store);
    FlushInv(AbsOf(v));
    assert AbsOf(v').queues == FlushStep(AbsOf(v)).queues;
    assert v.md + [] == v.md && v.oe + [] == v.oe;
  }

}
