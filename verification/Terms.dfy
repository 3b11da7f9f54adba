/**
 Whose terms the streams speak of. An order instance is given the terms its own request asked for, field by field, and
 every trade, report and resting order of a run is held against them.
 */
module Terms {
  import opened Wrappers
  import opened Types
  import opened PriceTimeQueue
  import opened FlatEngine
  import opened FlatInvariant
  import opened Ledger
  import opened Priority
  import opened Lifecycle

  /** The terms of an order, as a request states them. */
  datatype Asked = Asked(
    clientId: U64, clOrdId: U64, securityId: U64, symbol: Symbol, exchange: string,
    side: Side, ordType: OrdType, timeInForce: TimeInForce, orderQty: U64, price: U64)

  function AskedBy(r: Request): Option<Asked>
  {
    match r
    case New(n) =>
      Some(Asked(n.clientId, n.clOrdId, n.securityId, n.symbol, n.exchange, n.side, n.ordType, n.timeInForce,
                 n.orderQty, n.price))
    case Replace(o) =>
      Some(Asked(o.clientId, o.clOrdId, o.securityId, o.symbol, o.exchange, o.side, o.ordType, o.timeInForce,
                 o.orderQty, o.price))
    case Cancel(_) => None
    case Flush => None
  }

  /** The terms a request brings in: its own when it leads to an acceptance, else none. */
  function BroughtIn(s: State, r: Request): seq<Asked>
  {
    if s.nextId < Step(s, r).state.nextId && AskedBy(r).Some? then [AskedBy(r).value] else []
  }

  /** The terms of the instances that a run accepts, in order of acceptance. */
  function Acceptances(s: State, rs: seq<Request>): seq<Asked>
    decreases |rs|
  {
    if rs == [] then [] else BroughtIn(s, rs[0]) + Acceptances(Step(s, rs[0]).state, rs[1..])
  }

  // ---------- holding events against terms ----------

  /** A limit order trades at its price or better, an order of price 0 at any price. */
  predicate Allows(a: Asked, price: U64)
  {
    a.price == 0 || (if a.side == Buy then price <= a.price else a.price <= price)
  }

  predicate RestsAsAsked(acc: seq<Asked>, loc: Loc, x: Resting)
  {
    && x.id < |acc|
    && var a := acc[x.id];
       && loc == Loc(a.symbol, a.side)
       && x.order == Order(a.clientId, a.clOrdId, a.securityId, a.symbol, a.exchange, a.side, a.ordType, a.timeInForce,
                           a.price, a.orderQty, x.order.leavesQty)
  }

  /** The two orders of a trade are a resting one and a later one of the other side of the same book. */
  predicate TradedAsAsked(acc: seq<Asked>, e: MdEvent)
  {
    e.Trade? ==>
      && e.maker < e.taker < |acc|
      && var t, m := acc[e.taker], acc[e.maker];
         && t.symbol == m.symbol == e.symbol
         && t.side != m.side
         && e.trade.securityId == t.securityId
         && e.trade.price == m.price
         && Allows(t, m.price)
         && e.trade.buyer == (if t.side == Buy then t.clOrdId else m.clOrdId)
         && e.trade.seller == (if t.side == Sell then t.clOrdId else m.clOrdId)
  }

  predicate SummedAsAsked(acc: seq<Asked>, e: MdEvent)
  {
    e.Summary? ==>
      && e.taker < |acc|
      && var t := acc[e.taker];
         && e.symbol == t.symbol
         && e.summary.securityId == t.securityId
         && e.summary.aggressorSide == t.side
         && Allows(t, e.summary.lastPx)
  }

  /** What each kind of report says beyond the terms. */
  predicate Told(a: Asked, r: ExecutionReport)
  {
    && r.cumQty + r.leavesQty == a.orderQty
    && match r.execType
       case NewOrder =>
         && r.ordStatus == OrdStatus.NewOrder && r.cumQty == 0
         && r.origClOrdId == None && r.lastQty == None && r.lastPx == None
       case Trade =>
         && r.ordStatus == (if r.leavesQty == 0 then OrdStatus.Filled else OrdStatus.PartiallyFilled)
         && r.origClOrdId == None && r.lastQty == Some(r.cumQty)
         && r.lastPx.Some? && Allows(a, r.lastPx.value)
       case Canceled =>
         && r.ordStatus == OrdStatus.Canceled && 0 < r.leavesQty
         && r.origClOrdId == Some(a.clOrdId) && r.lastQty == None && r.lastPx == None
       case _ => false
  }

  /** The report of an order that asked for these terms. */
  predicate Carries(a: Asked, r: ExecutionReport)
  {
    && r.clientId == a.clientId && r.clOrdId == a.clOrdId && r.orderId == a.clOrdId
    && r.securityId == a.securityId && r.symbol == a.symbol && r.exchange == a.exchange
    && r.side == a.side && r.ordType == a.ordType && r.timeInForce == a.timeInForce
    && r.orderQty == a.orderQty && r.avgPx == r.lastPx
    && Told(a, r)
  }

  predicate ReportedAsAsked(acc: seq<Asked>, e: OeEvent)
  {
    e.Report? ==> e.instance < |acc| && Carries(acc[e.instance], e.report)
  }

  ghost predicate BooksAsAsked(s: State, acc: seq<Asked>)
  {
    forall loc, i {:trigger RestsAsAsked(acc, loc, s.queues[loc][i])} ::
      loc in s.queues && 0 <= i < |s.queues[loc]| ==> RestsAsAsked(acc, loc, s.queues[loc][i])
  }

  predicate MdAsAsked(acc: seq<Asked>, md: seq<MdEvent>)
  {
    forall i :: 0 <= i < |md| ==> TradedAsAsked(acc, md[i]) && SummedAsAsked(acc, md[i])
  }

  predicate OeAsAsked(acc: seq<Asked>, oe: seq<OeEvent>)
  {
    forall i :: 0 <= i < |oe| ==> ReportedAsAsked(acc, oe[i])
  }

  /** One set of terms for each instance so far, and everything said or resting agrees with them. */
  ghost predicate AsAsked(s: State, acc: seq<Asked>, md: seq<MdEvent>, oe: seq<OeEvent>)
  {
    var agree := |acc| == s.nextId && BooksAsAsked(s, acc) && MdAsAsked(acc, md) && OeAsAsked(acc, oe);
    agree
  }

  // ---------- events ----------

  lemma MdAppends(acc: seq<Asked>, a: seq<MdEvent>, b: seq<MdEvent>)
    ensures MdAsAsked(acc, a + b) <==> MdAsAsked(acc, a) && MdAsAsked(acc, b)
  {
    hide TradedAsAsked, SummedAsAsked;
    var all := a + b;
    assert forall i :: 0 <= i < |a| ==> all[i] == a[i];
    assert forall i :: 0 <= i < |b| ==> all[|a| + i] == b[i];
  }

  lemma OeAppends(acc: seq<Asked>, a: seq<OeEvent>, b: seq<OeEvent>)
    ensures OeAsAsked(acc, a + b) <==> OeAsAsked(acc, a) && OeAsAsked(acc, b)
  {
    hide ReportedAsAsked;
    var all := a + b;
    assert forall i :: 0 <= i < |a| ==> all[i] == a[i];
    assert forall i :: 0 <= i < |b| ==> all[|a| + i] == b[i];
  }

  /** Later acceptances change nothing of what was said of earlier ones. */
  lemma MdGrows(acc: seq<Asked>, more: seq<Asked>, md: seq<MdEvent>)
    requires MdAsAsked(acc, md)
    ensures MdAsAsked(acc + more, md)
  {
    forall i | 0 <= i < |md|
      ensures TradedAsAsked(acc + more, md[i]) && SummedAsAsked(acc + more, md[i])
    {
      assert TradedAsAsked(acc, md[i]) && SummedAsAsked(acc, md[i]);
    }
  }

  lemma OeGrows(acc: seq<Asked>, more: seq<Asked>, oe: seq<OeEvent>)
    requires OeAsAsked(acc, oe)
    ensures OeAsAsked(acc + more, oe)
  {
    forall i | 0 <= i < |oe|
      ensures ReportedAsAsked(acc + more, oe[i])
    {
      assert ReportedAsAsked(acc, oe[i]);
    }
  }

  /** Only trades and reports of an instance are held against terms, and a withdrawal brings neither. */
  predicate Updates(md: seq<MdEvent>)
  {
    forall i :: 0 <= i < |md| ==> md[i].Update?
  }

  lemma UpdatesAsAsked(acc: seq<Asked>, md: seq<MdEvent>)
    requires Updates(md)
    ensures MdAsAsked(acc, md)
  {
  }

  lemma QuietAsAsked(s: State, s': State, acc: seq<Asked>, md: seq<MdEvent>, oe: seq<OeEvent>, md': seq<MdEvent>,
      oe': seq<OeEvent>)
    requires AsAsked(s, acc, md, oe) && s'.nextId == s.nextId && StillResting(s, s')
    requires Updates(md') && OeAsAsked(acc, oe')
    ensures AsAsked(s', acc, md + md', oe + oe')
  {
    hide ReportedAsAsked, RestsAsAsked, MdAsAsked, OeAsAsked;
    UpdatesAsAsked(acc, md');
    MdAppends(acc, md, md');
    OeAppends(acc, oe, oe');
    forall loc, i | loc in s'.queues && 0 <= i < |s'.queues[loc]|
      ensures RestsAsAsked(acc, loc, s'.queues[loc][i])
    {
      assert s'.queues[loc][i] in s'.queues[loc];
      var j :| 0 <= j < |s.queues[loc]| && s.queues[loc][j] == s'.queues[loc][i];
      assert RestsAsAsked(acc, loc, s.queues[loc][j]);
    }
  }

  // ---------- withdrawals ----------

  lemma WithdrawUpdates(s: State, slot: Slot)
    requires slot.loc in s.queues && slot.pos < |s.queues[slot.loc]|
    ensures Updates(Withdraw(s, slot).1) && StillResting(s, Withdraw(s, slot).0)
    ensures Withdraw(s, slot).0.nextId == s.nextId
  {
  }

  lemma WithdrawAsAsked(s: State, slot: Slot, acc: seq<Asked>, md: seq<MdEvent>, oe: seq<OeEvent>)
    requires AsAsked(s, acc, md, oe) && slot.loc in s.queues && slot.pos < |s.queues[slot.loc]|
    ensures AsAsked(Withdraw(s, slot).0, acc, md + Withdraw(s, slot).1, oe)
  {
    hide AsAsked, Withdraw;
    WithdrawUpdates(s, slot);
    QuietAsAsked(s, Withdraw(s, slot).0, acc, md, oe, Withdraw(s, slot).1, []);
    assert oe + [] == oe;
  }

  lemma CancelReport(s: State, c: CancelOrder, acc: seq<Asked>)
    requires Inv(s) && BooksAsAsked(s, acc)
    ensures |CancelStep(s, c).oe| == 1 && ReportedAsAsked(acc, CancelStep(s, c).oe[0])
  {
    var found := Lookup(s, Key(c.clientId, c.origClOrdId));
    if found.Some? {
      var loc, i := found.value.loc, found.value.pos;
      assert RestsAsAsked(acc, loc, s.queues[loc][i]);
      assert QueueOk(s.index, s.nextId, loc, s.queues[loc]);
      assert Belongs(s.index, s.nextId, loc, s.queues[loc][i]);
    }
  }

  lemma CancelAsAsked(s: State, c: CancelOrder, acc: seq<Asked>, md: seq<MdEvent>, oe: seq<OeEvent>)
    requires Inv(s) && AsAsked(s, acc, md, oe)
    ensures AsAsked(CancelStep(s, c).state, acc, md + CancelStep(s, c).md, oe + CancelStep(s, c).oe)
    ensures CancelStep(s, c).state.nextId == s.nextId
  {
    CancelReport(s, c, acc);
    hide Inv, BooksAsAsked, MdAsAsked, ReportedAsAsked, Remove, UpdateFor;
    var found, out := Lookup(s, Key(c.clientId, c.origClOrdId)), CancelStep(s, c);
    if found.Some? {
      WithdrawUpdates(s, found.value);
    }
    QuietAsAsked(s, out.state, acc, md, oe, out.md, out.oe);
  }

  // ---------- acceptances ----------

  lemma BooksGrow(s: State, r: NewOrderSingle, acc: seq<Asked>)
    requires Inv(s) && Known(s, r.symbol) && |acc| == s.nextId && BooksAsAsked(s, acc)
    ensures BooksAsAsked(Accept(s, r).state, acc + [AskedBy(New(r)).value])
  {
    hide Inv, Match, Settle, AcceptMd, AcceptOe, Rested;
    var s', acc' := Accept(s, r).state, acc + [AskedBy(New(r)).value];
    forall loc, i | loc in s'.queues && 0 <= i < |s'.queues[loc]|
      ensures RestsAsAsked(acc', loc, s'.queues[loc][i])
    {
      AcceptedAt(s, r, acc, loc, i);
    }
  }

  lemma AcceptedAt(s: State, r: NewOrderSingle, acc: seq<Asked>, loc: Loc, i: nat)
    requires Inv(s) && Known(s, r.symbol) && |acc| == s.nextId && BooksAsAsked(s, acc)
    requires loc in Accept(s, r).state.queues && i < |Accept(s, r).state.queues[loc]|
    ensures RestsAsAsked(acc + [AskedBy(New(r)).value], loc, Accept(s, r).state.queues[loc][i])
  {
    hide Inv, Match, Settle, AcceptMd, AcceptOe;
    AcceptedRests(s, r, loc, i);
    var x := Accept(s, r).state.queues[loc][i];
    if x.id < s.nextId {
      var j :| 0 <= j < |s.queues[loc]| && SameOrder(x, s.queues[loc][j]);
      assert RestsAsAsked(acc, loc, s.queues[loc][j]);
    }
  }

  /** Every maker of a match stands at a price that the taker allows. */
  lemma FillAllowed(s: State, r: NewOrderSingle, i: nat)
    requires Inv(s) && Known(s, r.symbol) && i < |MatchFor(s, r).fills|
    ensures var opp := Loc(r.symbol, if r.side == Buy then Sell else Buy);
            && i < |s.queues[opp]| && MatchFor(s, r).fills[i].maker == s.queues[opp][i]
            && Allows(AskedBy(New(r)).value, s.queues[opp][i].order.price)
  {
    hide Match;
    var opp := Loc(r.symbol, Opposite(r.side));
    CoherentLive(s, opp);
    MatchIsMatch(s.queues[opp], MakeOrder(r));
    assert WithinLimit(MakeOrder(r), s.queues[opp][i].order.price);
  }

  lemma FillsAsAsked(s: State, r: NewOrderSingle, acc: seq<Asked>, i: nat)
    requires Inv(s) && Known(s, r.symbol) && BooksAsAsked(s, acc) && i < |MatchFor(s, r).fills|
    ensures var a, f := AskedBy(New(r)).value, MatchFor(s, r).fills[i];
            && Allows(a, f.maker.order.price) && f.maker.id < s.nextId
            && RestsAsAsked(acc, Loc(r.symbol, if r.side == Buy then Sell else Buy), f.maker)
  {
    hide Match, Allows;
    var opp := Loc(r.symbol, Opposite(r.side));
    FillAllowed(s, r, i);
    CoherentLive(s, opp);
    assert RestsAsAsked(acc, opp, s.queues[opp][i]);
  }

  lemma TradesAsAsked(s: State, r: NewOrderSingle, acc: seq<Asked>)
    requires Inv(s) && Known(s, r.symbol) && |acc| == s.nextId && BooksAsAsked(s, acc)
    ensures MdAsAsked(acc + [AskedBy(New(r)).value], AcceptMd(s, r))
  {
    hide Match, Inv, BooksAsAsked, RestsAsAsked, Settle;
    var acc', fills := acc + [AskedBy(New(r)).value], MatchFor(s, r).fills;
    var trades := TradesFor(MakeOrder(r), s.nextId, fills, s.nextTrade);
    forall i | 0 <= i < |trades|
      ensures TradedAsAsked(acc', trades[i]) && SummedAsAsked(acc', trades[i])
    {
      FillsAsAsked(s, r, acc, i);
      TradeAsAsked(s, r, acc, i);
    }
    SummaryAsAsked(s, r, acc);
    MdAppends(acc', trades, AfterTrades(s, r));
  }

  lemma TradeAsAsked(s: State, r: NewOrderSingle, acc: seq<Asked>, i: nat)
    requires Inv(s) && Known(s, r.symbol) && |acc| == s.nextId && BooksAsAsked(s, acc)
    requires i < |MatchFor(s, r).fills|
    ensures TradedAsAsked(acc + [AskedBy(New(r)).value],
                          TradeFor(MakeOrder(r), s.nextId, MatchFor(s, r).fills[i], Advance(s.nextTrade, i)))
  {
    hide Match, Inv, BooksAsAsked;
    FillsAsAsked(s, r, acc, i);
  }

  lemma SummaryAsAsked(s: State, r: NewOrderSingle, acc: seq<Asked>)
    requires Inv(s) && Known(s, r.symbol) && |acc| == s.nextId && BooksAsAsked(s, acc)
    ensures MdAsAsked(acc + [AskedBy(New(r)).value], AfterTrades(s, r))
  {
    hide Match, Inv, BooksAsAsked, RestsAsAsked, Settle, BestLevel, BestPrice;
    if MatchFor(s, r).fills != [] {
      FillsAsAsked(s, r, acc, |MatchFor(s, r).fills| - 1);
    }
  }

  lemma AcceptCarries(s: State, r: NewOrderSingle, k: nat)
    requires Inv(s) && Known(s, r.symbol) && k < |AcceptOe(s, r)|
    ensures var e := AcceptOe(s, r)[k];
            e.Report? && e.instance == s.nextId && Carries(AskedBy(New(r)).value, e.report)
  {
    hide Match, Inv;
    if MatchFor(s, r).fills != [] {
      FillAllowed(s, r, |MatchFor(s, r).fills| - 1);
    }
  }

  lemma ReportsAsAsked(s: State, r: NewOrderSingle, acc: seq<Asked>)
    requires Inv(s) && Known(s, r.symbol) && |acc| == s.nextId
    ensures OeAsAsked(acc + [AskedBy(New(r)).value], AcceptOe(s, r))
  {
    hide Inv, AcceptOe, Carries;
    forall k | 0 <= k < |AcceptOe(s, r)|
      ensures ReportedAsAsked(acc + [AskedBy(New(r)).value], AcceptOe(s, r)[k])
    {
      AcceptCarries(s, r, k);
    }
  }

  lemma AcceptAsAsked(s: State, r: NewOrderSingle, acc: seq<Asked>, md: seq<MdEvent>, oe: seq<OeEvent>)
    requires Inv(s) && Known(s, r.symbol) && AsAsked(s, acc, md, oe)
    ensures var out := Accept(s, r);
            AsAsked(out.state, acc + [AskedBy(New(r)).value], md + out.md, oe + out.oe)
  {
    hide Inv, BooksAsAsked, MdAsAsked, OeAsAsked, Settle, AcceptMd, AcceptOe;
    var more := [AskedBy(New(r)).value];
    BooksGrow(s, r, acc);
    TradesAsAsked(s, r, acc);
    ReportsAsAsked(s, r, acc);
    MdGrows(acc, more, md);
    OeGrows(acc, more, oe);
    MdAppends(acc + more, md, AcceptMd(s, r));
    OeAppends(acc + more, oe, AcceptOe(s, r));
  }

  // ---------- every request, every run ----------

  lemma NewAsAsked(s: State, r: NewOrderSingle, acc: seq<Asked>, md: seq<MdEvent>, oe: seq<OeEvent>)
    requires Inv(s) && AsAsked(s, acc, md, oe)
    ensures var out := Step(s, New(r));
            AsAsked(out.state, acc + BroughtIn(s, New(r)), md + out.md, oe + out.oe)
  {
    hide AsAsked, Inv, Settle, AcceptMd, AcceptOe;
    if NewOrderStep(s, r).Ok? {
      AcceptAsAsked(s, r, acc, md, oe);
    } else {
      assert acc + [] == acc && md + [] == md && oe + [] == oe;
    }
  }

  /** A replace asks for exactly what the new order made of it asks for. */
  lemma ReplaceAsAsked(s: State, o: ReplaceOrder, acc: seq<Asked>, md: seq<MdEvent>, oe: seq<OeEvent>)
    requires Inv(s) && AsAsked(s, acc, md, oe)
    ensures var out := ReplaceStep(s, o);
            AsAsked(out.state, acc + BroughtIn(s, Replace(o)), md + out.md, oe + out.oe)
  {
    hide AsAsked, Inv, OeAsAsked, Withdraw, Accept, Updates;
    assert acc + [] == acc && md + [] == md;
    var found := Lookup(s, Key(o.clientId, o.origClOrdId));
    if found.None? || Key(o.clientId, o.clOrdId) in s.index {
      RejectAsAsked(s, acc, md, oe, ReplaceStep(s, o).oe[0]);
    } else {
      var (s1, md1) := Withdraw(s, found.value);
      var tail := ReplaceTail(s1, o);
      WithdrawInv(s, found.value);
      WithdrawUpdates(s, found.value);
      WithdrawAsAsked(s, found.value, acc, md, oe);
      TailAsAsked(s1, o, acc, md + md1, oe);
      assert (md + md1) + tail.md == md + (md1 + tail.md);
      assert [] + tail.oe == tail.oe;
    }
  }

  lemma RejectAsAsked(s: State, acc: seq<Asked>, md: seq<MdEvent>, oe: seq<OeEvent>, e: OeEvent)
    requires AsAsked(s, acc, md, oe) && e.Reject?
    ensures AsAsked(s, acc, md, oe + [e])
  {
    hide ReportedAsAsked, MdAsAsked, BooksAsAsked;
    OeAppends(acc, oe, [e]);
    RejectTold(acc, e);
  }

  lemma RejectTold(acc: seq<Asked>, e: OeEvent)
    requires e.Reject?
    ensures OeAsAsked(acc, [e])
  {
  }

  lemma TailAsAsked(s: State, o: ReplaceOrder, acc: seq<Asked>, md: seq<MdEvent>, oe: seq<OeEvent>)
    requires Inv(s) && AsAsked(s, acc, md, oe)
    ensures var out := ReplaceTail(s, o);
            var more := if s.nextId < out.state.nextId then [AskedBy(Replace(o)).value] else [];
            AsAsked(out.state, acc + more, md + out.md, oe + out.oe)
  {
    hide AsAsked, Inv, Settle, AcceptMd, AcceptOe;
    assert AskedBy(New(Replacement(o))) == AskedBy(Replace(o));
    if NewOrderStep(s, Replacement(o)).Ok? {
      AcceptAsAsked(s, Replacement(o), acc, md, oe);
    } else {
      assert acc + [] == acc && md + [] == md;
      RejectAsAsked(s, acc, md, oe, ReplaceTail(s, o).oe[0]);
    }
  }

  lemma FlushAsAsked(s: State, acc: seq<Asked>, md: seq<MdEvent>, oe: seq<OeEvent>)
    requires AsAsked(s, acc, md, oe)
    ensures AsAsked(FlushStep(s), acc, md, oe)
  {
    hide MdAsAsked, OeAsAsked;
  }

  lemma StepAsAsked(s: State, r: Request, acc: seq<Asked>, md: seq<MdEvent>, oe: seq<OeEvent>)
    requires Inv(s) && AsAsked(s, acc, md, oe)
    ensures var out := Step(s, r);
            AsAsked(out.state, acc + BroughtIn(s, r), md + out.md, oe + out.oe)
  {
    hide AsAsked, Inv, NewOrderStep, ReplaceStep, CancelStep, FlushStep;
    assert acc + [] == acc && md + [] == md && oe + [] == oe;
    match r
    case New(n) => NewAsAsked(s, n, acc, md, oe);
    case Replace(o) => ReplaceAsAsked(s, o, acc, md, oe);
    case Cancel(c) => CancelAsAsked(s, c, acc, md, oe);
    case Flush => FlushAsAsked(s, acc, md, oe);
  }

  /** Whatever a run says or leaves resting is as the requests it accepted asked for. */
  lemma {:induction false} RunAsAsked(s: State, rs: seq<Request>, acc: seq<Asked>, md: seq<MdEvent>, oe: seq<OeEvent>)
    requires Inv(s) && AsAsked(s, acc, md, oe)
    ensures var out := Run(s, rs);
            AsAsked(out.state, acc + Acceptances(s, rs), md + out.md, oe + out.oe)
    decreases |rs|
  {
    hide AsAsked, Step, Inv, BroughtIn;
    if rs == [] {
      assert acc + [] == acc && md + [] == md && oe + [] == oe;
    } else {
      var first, more := Step(s, rs[0]), BroughtIn(s, rs[0]);
      var rest := Run(first.state, rs[1..]);
      StepInv(s, rs[0]);
      StepAsAsked(s, rs[0], acc, md, oe);
      RunAsAsked(first.state, rs[1..], acc + more, md + first.md, oe + first.oe);
      assert (acc + more) + Acceptances(first.state, rs[1..]) == acc + (more + Acceptances(first.state, rs[1..]));
      assert (md + first.md) + rest.md == md + (first.md + rest.md);
      assert (oe + first.oe) + rest.oe == oe + (first.oe + rest.oe);
    }
  }

  lemma StartAsAsked(symbols: set<Symbol>, rs: seq<Request>)
    ensures var out := Run(Initial(symbols), rs);
            AsAsked(out.state, Acceptances(Initial(symbols), rs), out.md, out.oe)
  {
    hide Run, Acceptances, Inv;
    var s0, out := Initial(symbols), Run(Initial(symbols), rs);
    InitialInv(symbols);
    assert AsAsked(s0, [], [], []);
    RunAsAsked(s0, rs, [], [], []);
    assert [] + out.md == out.md && [] + out.oe == out.oe;
    assert [] + Acceptances(s0, rs) == Acceptances(s0, rs);
  }

  /**
   Every trade of every run is between an earlier order, at that order's price, and a later one of the other side of
   the same book, at a price within the later one's limit; it names the buyer and the seller by their own ids.
   */
  lemma TradeOfRun(symbols: set<Symbol>, rs: seq<Request>, p: nat)
    requires p < |Run(Initial(symbols), rs).md| && Run(Initial(symbols), rs).md[p].Trade?
    ensures var e, acc := Run(Initial(symbols), rs).md[p], Acceptances(Initial(symbols), rs);
            && e.maker < e.taker < |acc|
            && var taker, maker := acc[e.taker], acc[e.maker];
               && taker.symbol == maker.symbol == e.symbol
               && (taker.price == 0
                   || (if taker.side == Buy then e.trade.price <= taker.price else taker.price <= e.trade.price))
               && e.trade.price == maker.price && e.trade.securityId == taker.securityId
               && ((taker.side == Buy && maker.side == Sell
                    && e.trade.buyer == taker.clOrdId && e.trade.seller == maker.clOrdId)
                   || (taker.side == Sell && maker.side == Buy
                       && e.trade.buyer == maker.clOrdId && e.trade.seller == taker.clOrdId))
  {
    hide Run, Acceptances;
    StartAsAsked(symbols, rs);
    assert TradedAsAsked(Acceptances(Initial(symbols), rs), Run(Initial(symbols), rs).md[p]);
  }

  /** Every report of every run carries the terms its own instance asked for. */
  lemma ReportOfRun(symbols: set<Symbol>, rs: seq<Request>, p: nat)
    requires p < |Run(Initial(symbols), rs).oe| && Run(Initial(symbols), rs).oe[p].Report?
    ensures var e, acc := Run(Initial(symbols), rs).oe[p], Acceptances(Initial(symbols), rs);
            e.instance < |acc| && ReportedAsAsked(acc, e)
  {
    hide Run, Acceptances;
    StartAsAsked(symbols, rs);
    assert ReportedAsAsked(Acceptances(Initial(symbols), rs), Run(Initial(symbols), rs).oe[p]);
  }

  /** Every order that rests after a run rests where, at the price and for the quantity that its instance asked for. */
  lemma RestingOfRun(symbols: set<Symbol>, rs: seq<Request>, loc: Loc, i: nat)
    requires var s := Run(Initial(symbols), rs).state; loc in s.queues && i < |s.queues[loc]|
    ensures var x, acc := Run(Initial(symbols), rs).state.queues[loc][i], Acceptances(Initial(symbols), rs);
            && x.id < |acc|
            && loc == Loc(acc[x.id].symbol, acc[x.id].side)
            && x.order.price == acc[x.id].price && x.order.orderQty == acc[x.id].orderQty
            && KeyOf(x.order) == Key(acc[x.id].clientId, acc[x.id].clOrdId)
  {
    hide Run, Acceptances;
    StartAsAsked(symbols, rs);
    assert RestsAsAsked(Acceptances(Initial(symbols), rs), loc, Run(Initial(symbols), rs).state.queues[loc][i]);
  }

  // ---------- the two streams against each other ----------

  lemma {:induction false} AboutComesFrom(oe: seq<OeEvent>, id: nat, k: nat) returns (p: nat)
    requires k < |About(oe, id)|
    ensures p < |oe| && oe[p] == Report(About(oe, id)[k], id)
    decreases |oe|
  {
    if oe[0].Report? && oe[0].instance == id {
      if k == 0 {
        p := 0;
      } else {
        p := AboutComesFrom(oe[1..], id, k - 1);
        p := p + 1;
      }
    } else {
      p := AboutComesFrom(oe[1..], id, k);
      p := p + 1;
    }
  }

  /** The first report about an instance acknowledges it, with the terms it asked for. */
  lemma Acknowledged(symbols: set<Symbol>, rs: seq<Request>, id: nat)
    requires id < |Acceptances(Initial(symbols), rs)|
    ensures var told, a := About(Run(Initial(symbols), rs).oe, id), Acceptances(Initial(symbols), rs)[id];
            && told != [] && told[0].execType == ExecType.NewOrder
            && told[0].side == a.side && told[0].clOrdId == a.clOrdId
            && told[0].symbol == a.symbol && told[0].securityId == a.securityId
  {
    hide Run, Acceptances, About, AsAsked;
    var out := Run(Initial(symbols), rs);
    StartAsAsked(symbols, rs);
    AsManyAsInstances(out.state, Acceptances(Initial(symbols), rs), out.md, out.oe);
    LifeOfInstance(symbols, rs, id);
    var p := AboutComesFrom(out.oe, id, 0);
    ReportOfRun(symbols, rs, p);
  }

  lemma AsManyAsInstances(s: State, acc: seq<Asked>, md: seq<MdEvent>, oe: seq<OeEvent>)
    requires AsAsked(s, acc, md, oe)
    ensures |acc| == s.nextId
  {
  }

  /**
   The market data and the lifecycle stream agree on who traded: of the two orders of a trade, as each was first
   reported, one buys and the other sells, and the trade names them so, in the book of both.
   */
  lemma TradersAsReported(symbols: set<Symbol>, rs: seq<Request>, p: nat)
    requires p < |Run(Initial(symbols), rs).md| && Run(Initial(symbols), rs).md[p].Trade?
    ensures var out := Run(Initial(symbols), rs);
            var e := out.md[p];
            var takers, makers := About(out.oe, e.taker), About(out.oe, e.maker);
            && takers != [] && makers != []
            && (if takers[0].side == Buy
                then makers[0].side == Sell && e.trade.buyer == takers[0].clOrdId && e.trade.seller == makers[0].clOrdId
                else makers[0].side == Buy && e.trade.buyer == makers[0].clOrdId && e.trade.seller == takers[0].clOrdId)
            && e.symbol == takers[0].symbol == makers[0].symbol
            && e.trade.securityId == takers[0].securityId
  {
    hide Run, Acceptances, About;
    TradeOfRun(symbols, rs, p);
    var e := Run(Initial(symbols), rs).md[p];
    Acknowledged(symbols, rs, e.taker);
    Acknowledged(symbols, rs, e.maker);
  }

}
