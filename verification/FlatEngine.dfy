/**
 The engine's request handlers over flat queues: what each request does to the books, to the identity index
 and to the two event streams.
 */
module FlatEngine {
  import opened Wrappers
  import opened Types
  import opened PriceTimeQueue

  /** What the identity index knows of a live order: where it rests, and which instance it is. */
  datatype Entry = Entry(loc: Loc, id: nat)

  datatype State = State(
    queues: map<Loc, seq<Resting>>,
    index: map<Key, Entry>,
    nextExec: U64,
    nextTrade: U64,
    nextId: nat)

  /** The state after a request, and what the request appended to each stream. */
  datatype Output = Output(state: State, md: seq<MdEvent>, oe: seq<OeEvent>)

  /** One output after another. */
  function Then(a: Output, b: Output): Output
  {
    Output(b.state, a.md + b.md, a.oe + b.oe)
  }

  function SidesOf(symbols: set<Symbol>): set<Loc>
  {
    set symbol, side | symbol in symbols && side in {Buy, Sell} :: Loc(symbol, side)
  }

  function Initial(symbols: set<Symbol>): State
  {
    State(map loc | loc in SidesOf(symbols) :: [], map[], 1, 1, 0)
  }

  // ---------- state changes ----------

  function ReleasedKeys(fills: seq<Fill>): set<Key>
  {
    set i | 0 <= i < |fills| && Released(fills[i]) :: KeyOf(fills[i].maker.order)
  }

  function Consume(s: State, loc: Loc, m: Matched): State
  {
    s.(queues := s.queues[loc := m.queue],
       index := s.index - ReleasedKeys(m.fills),
       nextTrade := Advance(s.nextTrade, |m.fills|))
  }

  function Place(s: State, x: Resting): State
    requires LocOf(x.order) in s.queues
  {
    var loc := LocOf(x.order);
    s.(queues := s.queues[loc := Insert(loc.side, s.queues[loc], x)],
       index := s.index[KeyOf(x.order) := Entry(loc, x.id)])
  }

  function Remove(s: State, loc: Loc, i: nat): State
    requires loc in s.queues && i < |s.queues[loc]|
  {
    s.(queues := s.queues[loc := RemoveAt(s.queues[loc], i)],
       index := s.index - {KeyOf(s.queues[loc][i].order)})
  }

  function Find(q: seq<Resting>, key: Key): (i: nat)
    ensures i <= |q|
    ensures i < |q| ==> KeyOf(q[i].order) == key
    ensures forall j :: 0 <= j < i ==> KeyOf(q[j].order) != key
  {
    if q == [] || KeyOf(q[0].order) == key then 0 else 1 + Find(q[1..], key)
  }

  datatype Slot = Slot(loc: Loc, pos: nat)

  /** Identity lookup: where the live order with this key stands in its queue. */
  function Lookup(s: State, key: Key): (r: Option<Slot>)
    ensures r.Some? ==> r.value.loc in s.queues && r.value.pos < |s.queues[r.value.loc]|
    ensures r.Some? ==> KeyOf(s.queues[r.value.loc][r.value.pos].order) == key
  {
    if key !in s.index || s.index[key].loc !in s.queues then None
    else
      var loc := s.index[key].loc;
      var i := Find(s.queues[loc], key);
      if i < |s.queues[loc]| then Some(Slot(loc, i)) else None
  }

  // ---------- emitted events ----------

  function ReportFor(o: Order, id: nat, execId: U64, execType: ExecType, status: OrdStatus,
                     origClOrdId: Option<U64>, lastQty: Option<U64>, lastPx: Option<U64>): OeEvent
  {
    Report(ExecutionReport(o.clientId, o.clOrdId, origClOrdId, o.clOrdId, execId, o.securityId, o.symbol, o.exchange,
                           o.side, o.ordType, o.timeInForce, execType, status, o.orderQty,
                           Wrap(o.orderQty - o.leavesQty), o.leavesQty, lastQty, lastPx, lastPx), id)
  }

  function RejectFor(clientId: U64, clOrdId: U64, origClOrdId: U64, reason: RejectReason): OeEvent
  {
    Reject(CancelReject(clientId, clOrdId, origClOrdId, reason,
                        match reason
                        case UnknownOrder => "unknown order"
                        case DuplicateOrder => "duplicate cl_ord_id"
                        case _ => "unknown symbol"))
  }

  /** Buyer and seller follow from the taker's side; the price is the maker's. */
  function TradeFor(taker: Order, takerId: nat, f: Fill, tradeId: U64): MdEvent
  {
    var maker := f.maker.order;
    var (buyer, seller) := if taker.side == Buy then (taker, maker) else (maker, taker);
    MdEvent.Trade(TradeMsg(taker.securityId, tradeId, maker.price, f.qty, buyer.clOrdId, seller.clOrdId),
                  taker.symbol, takerId, f.maker.id)
  }

  function TradesFor(taker: Order, takerId: nat, fills: seq<Fill>, nextTrade: U64): seq<MdEvent>
  {
    seq(|fills|, i requires 0 <= i < |fills| => TradeFor(taker, takerId, fills[i], Advance(nextTrade, i)))
  }

  function UpdateFor(q: seq<Resting>, loc: Loc, securityId: U64): MdEvent
  {
    Update(match BestLevel(q)
           case None => UpdateMsg(securityId, DeleteOrder, loc.side, None, None)
           case Some(top) => UpdateMsg(securityId, Change, loc.side, Some(top.price), Some(top.quantity)),
           loc.symbol)
  }

  // ---------- request handlers ----------

  predicate Known(s: State, symbol: Symbol)
  {
    Loc(symbol, Buy) in s.queues && Loc(symbol, Sell) in s.queues
  }

  function MatchFor(s: State, r: NewOrderSingle): Matched
    requires Known(s, r.symbol)
  {
    Match(s.queues[Loc(r.symbol, Opposite(r.side))], MakeOrder(r))
  }

  /** Only a zero price makes a market order; its remainder is dropped, a limit remainder rests. */
  predicate Rests(s: State, r: NewOrderSingle)
    requires Known(s, r.symbol)
  {
    MatchFor(s, r).taker.leavesQty > 0 && r.price != 0
  }

  /** The books and the index after an accepted order. */
  function Settle(s: State, r: NewOrderSingle): State
    requires Known(s, r.symbol)
  {
    var m := MatchFor(s, r);
    var s1 := Consume(s, Loc(r.symbol, Opposite(r.side)), m);
    if Rests(s, r) then Place(s1, Resting(s.nextId, m.taker)) else s1
  }

  /** After the trades: the summary, the consumed side, and the own side when the residual is its new best. */
  function AfterTrades(s: State, r: NewOrderSingle): seq<MdEvent>
    requires Known(s, r.symbol)
  {
    var m := MatchFor(s, r);
    var own, opp := Loc(r.symbol, r.side), Loc(r.symbol, Opposite(r.side));
    var after := Settle(s, r).queues;
    (if m.fills == [] then []
     else [Summary(SummaryMsg(r.securityId, r.side, m.fills[|m.fills| - 1].maker.order.price,
                              r.orderQty - m.taker.leavesQty), r.symbol, s.nextId),
           UpdateFor(after[opp], opp, r.securityId)])
    + (if Rests(s, r) && BestPrice(after[own]) == Some(r.price) then [UpdateFor(after[own], own, r.securityId)]
       else [])
  }

  function AcceptMd(s: State, r: NewOrderSingle): seq<MdEvent>
    requires Known(s, r.symbol)
  {
    TradesFor(MakeOrder(r), s.nextId, MatchFor(s, r).fills, s.nextTrade) + AfterTrades(s, r)
  }

  function AcceptOe(s: State, r: NewOrderSingle): seq<OeEvent>
    requires Known(s, r.symbol)
  {
    var m := MatchFor(s, r);
    [ReportFor(MakeOrder(r), s.nextId, s.nextExec, ExecType.NewOrder, OrdStatus.NewOrder, None, None, None)]
    + (if m.fills == [] then []
       else [ReportFor(m.taker, s.nextId, Succ(s.nextExec), ExecType.Trade,
                       if m.taker.leavesQty == 0 then OrdStatus.Filled else OrdStatus.PartiallyFilled,
                       None, Some(r.orderQty - m.taker.leavesQty),
                       Some(m.fills[|m.fills| - 1].maker.order.price))])
  }

  function Accept(s: State, r: NewOrderSingle): Output
    requires Known(s, r.symbol)
  {
    Output(Settle(s, r).(nextId := s.nextId + 1, nextExec := Advance(s.nextExec, |AcceptOe(s, r)|)),
           AcceptMd(s, r), AcceptOe(s, r))
  }

  function NewOrderStep(s: State, r: NewOrderSingle): Result<Output, RejectReason>
  {
    if Key(r.clientId, r.clOrdId) in s.index then Err(DuplicateOrder)
    else if !Known(s, r.symbol) then Err(UnknownSymbol)
    else Ok(Accept(s, r))
  }

  /** Unlink a resting order; the update is emitted only when it stood at the best price. */
  function Withdraw(s: State, slot: Slot): (State, seq<MdEvent>)
    requires slot.loc in s.queues && slot.pos < |s.queues[slot.loc]|
  {
    var q := s.queues[slot.loc];
    var o := q[slot.pos].order;
    var s' := Remove(s, slot.loc, slot.pos);
    (s', if BestPrice(q) == Some(o.price) then [UpdateFor(s'.queues[slot.loc], slot.loc, o.securityId)] else [])
  }

  function CancelStep(s: State, c: CancelOrder): Output
  {
    match Lookup(s, Key(c.clientId, c.origClOrdId))
    case None => Output(s, [], [RejectFor(c.clientId, c.clOrdId, c.origClOrdId, UnknownOrder)])
    case Some(slot) =>
      var x := s.queues[slot.loc][slot.pos];
      var (s', md) := Withdraw(s, slot);
      Output(s'.(nextExec := Succ(s.nextExec)), md,
             [ReportFor(x.order, x.id, s.nextExec, ExecType.Canceled, OrdStatus.Canceled,
                        Some(c.origClOrdId), None, None)])
  }

  function Replacement(r: ReplaceOrder): NewOrderSingle
  {
    NewOrderSingle(r.clientId, r.clOrdId, r.securityId, r.symbol, r.exchange, r.side, r.ordType, r.timeInForce,
                   r.orderQty, r.price)
  }

  /** The second half of a replace: the new terms handled as a new order, or a reject. */
  function ReplaceTail(s: State, r: ReplaceOrder): Output
  {
    match NewOrderStep(s, Replacement(r))
    case Ok(out) => out
    case Err(reason) => Output(s, [], [RejectFor(r.clientId, r.clOrdId, r.origClOrdId, reason)])
  }

  /** A replace answers an unknown new symbol after the original order is gone. */
  function ReplaceStep(s: State, r: ReplaceOrder): Output
  {
    match Lookup(s, Key(r.clientId, r.origClOrdId))
    case None => Output(s, [], [RejectFor(r.clientId, r.clOrdId, r.origClOrdId, UnknownOrder)])
    case Some(slot) =>
      if Key(r.clientId, r.clOrdId) in s.index then
        Output(s, [], [RejectFor(r.clientId, r.clOrdId, r.origClOrdId, DuplicateOrder)])
      else
        var (s1, md) := Withdraw(s, slot);
        Then(Output(s1, md, []), ReplaceTail(s1, r))
  }

  function FlushStep(s: State): State
  {
    s.(queues := map loc | loc in s.queues :: [], index := map[])
  }

  function Step(s: State, r: Request): Output
  {
    match r
    case New(order) =>
      (match NewOrderStep(s, order)
       case Ok(out) => out
       case Err(_) => Output(s, [], []))
    case Replace(replace) => ReplaceStep(s, replace)
    case Cancel(cancel) => CancelStep(s, cancel)
    case Flush => Output(FlushStep(s), [], [])
  }

  function Run(s: State, rs: seq<Request>): Output
    decreases |rs|
  {
    if rs == [] then Output(s, [], [])
    else Then(Step(s, rs[0]), Run(Step(s, rs[0]).state, rs[1..]))
  }

  lemma ThenAssociative(a: Output, b: Output, c: Output)
    ensures Then(Then(a, b), c) == Then(a, Then(b, c))
  {
    assert (a.md + b.md) + c.md == a.md + (b.md + c.md);
    assert (a.oe + b.oe) + c.oe == a.oe + (b.oe + c.oe);
  }

  lemma {:induction false} RunAppend(s: State, a: seq<Request>, b: seq<Request>)
    ensures Run(s, a + b) == Then(Run(s, a), Run(Run(s, a).state, b))
    decreases |a|
  {
    if a == [] {
      assert a + b == b;
    } else {
      var first := Step(s, a[0]);
      assert (a + b)[0] == a[0] && (a + b)[1..] == a[1..] + b;
      RunAppend(first.state, a[1..], b);
      ThenAssociative(first, Run(first.state, a[1..]), Run(Run(s, a).state, b));
    }
  }

  lemma RunSnoc(s: State, rs: seq<Request>, r: Request)
    ensures Run(s, rs + [r]) == Then(Run(s, rs), Step(Run(s, rs).state, r))
  {
    RunAppend(s, rs, [r]);
    var last := Step(Run(s, rs).state, r);
    assert [r][0] == r && Run(last.state, [r][1..]) == Output(last.state, [], []);
    assert last.md + [] == last.md && last.oe + [] == last.oe;
  }

}
