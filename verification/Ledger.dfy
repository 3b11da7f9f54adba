/**
 Quantity accounting over whole runs: what each order instance has traded, and where all accepted quantity went.
 */
module Ledger {
  import opened Wrappers
  import opened Types
  import opened PriceTimeQueue
  import opened FlatEngine
  import opened FlatInvariant

  // ---------- reading the market-data stream ----------

  function TradedBy(e: MdEvent, id: nat): nat
  {
    match e
    case Trade(t, _, taker, maker) => (if taker == id then t.quantity else 0) + (if maker == id then t.quantity else 0)
    case _ => 0
  }

  /** Total quantity of the trades of one order instance, as taker and as maker. */
  function Traded(md: seq<MdEvent>, id: nat): nat
  {
    if md == [] then 0 else TradedBy(md[0], id) + Traded(md[1..], id)
  }

  function TotalTraded(md: seq<MdEvent>): nat
  {
    if md == [] then 0 else (if md[0].Trade? then md[0].trade.quantity else 0) + TotalTraded(md[1..])
  }

  lemma {:induction false} TradedAppend(a: seq<MdEvent>, b: seq<MdEvent>, id: nat)
    ensures Traded(a + b, id) == Traded(a, id) + Traded(b, id)
    ensures TotalTraded(a + b) == TotalTraded(a) + TotalTraded(b)
    decreases |a|
  {
    if a == [] {
      assert a + b == b;
    } else {
      assert (a + b)[1..] == a[1..] + b;
      TradedAppend(a[1..], b, id);
    }
  }

  lemma {:induction false} NoTrades(md: seq<MdEvent>, id: nat)
    requires forall i :: 0 <= i < |md| ==> !md[i].Trade?
    ensures Traded(md, id) == 0 && TotalTraded(md) == 0
    decreases |md|
  {
    if md != [] {
      assert !md[0].Trade?;
      NoTrades(md[1..], id);
    }
  }

  // ---------- fills per maker ----------

  function FilledOf(fills: seq<Fill>, id: nat): nat
  {
    if fills == [] then 0 else (if fills[0].maker.id == id then fills[0].qty else 0) + FilledOf(fills[1..], id)
  }

  lemma TradesTail(taker: Order, takerId: nat, fills: seq<Fill>, nextTrade: U64)
    requires fills != []
    ensures TradesFor(taker, takerId, fills, nextTrade)[1..] == TradesFor(taker, takerId, fills[1..], Succ(nextTrade))
  {
    forall i | 0 <= i < |fills| - 1
      ensures Advance(Succ(nextTrade), i) == Advance(nextTrade, i + 1)
    {
      AdvanceSucc(nextTrade, i);
    }
  }

  lemma {:induction false} TradesMean(taker: Order, takerId: nat, fills: seq<Fill>, nextTrade: U64, id: nat)
    ensures Traded(TradesFor(taker, takerId, fills, nextTrade), id)
         == FilledOf(fills, id) + (if id == takerId then FilledQty(fills) else 0)
    ensures TotalTraded(TradesFor(taker, takerId, fills, nextTrade)) == FilledQty(fills)
    decreases |fills|
  {
    var md := TradesFor(taker, takerId, fills, nextTrade);
    if fills != [] {
      TradesTail(taker, takerId, fills, nextTrade);
      TradesMean(taker, takerId, fills[1..], Succ(nextTrade), id);
    }
  }

  lemma {:induction false} FilledOfNone(fills: seq<Fill>, id: nat)
    requires forall i :: 0 <= i < |fills| ==> fills[i].maker.id != id
    ensures FilledOf(fills, id) == 0
    decreases |fills|
  {
    if fills != [] {
      assert fills[0].maker.id != id;
      FilledOfNone(fills[1..], id);
    }
  }

  lemma {:induction false} FilledOfOne(fills: seq<Fill>, i: nat)
    requires i < |fills|
    requires forall j, k :: 0 <= j < k < |fills| ==> fills[j].maker.id != fills[k].maker.id
    ensures FilledOf(fills, fills[i].maker.id) == fills[i].qty
    decreases |fills|
  {
    if i == 0 {
      FilledOfNone(fills[1..], fills[0].maker.id);
    } else {
      assert fills[1..][i - 1] == fills[i];
      FilledOfOne(fills[1..], i - 1);
    }
  }

  // ---------- per-instance accounting ----------

  predicate OrderAccounted(md: seq<MdEvent>, x: Resting)
  {
    x.order.orderQty - x.order.leavesQty == Traded(md, x.id)
  }

  /** Every resting order's filled quantity is the total of its trades; unborn instances have none. */
  ghost predicate Accounted(s: State, md: seq<MdEvent>)
  {
    && (forall loc, i :: loc in s.queues && 0 <= i < |s.queues[loc]| ==> OrderAccounted(md, s.queues[loc][i]))
    && (forall id: nat :: s.nextId <= id ==> Traded(md, id) == 0)
  }

  lemma SameInstance(s: State, l: Loc, i: nat, m: Loc, j: nat)
    requires Coherent(s) && l in s.queues && m in s.queues && i < |s.queues[l]| && j < |s.queues[m]|
    requires s.queues[l][i].id == s.queues[m][j].id
    ensures l == m && i == j
  {
    assert QueueOk(s.index, s.nextId, l, s.queues[l]) && QueueOk(s.index, s.nextId, m, s.queues[m]);
    assert Belongs(s.index, s.nextId, l, s.queues[l][i]);
    assert Belongs(s.index, s.nextId, m, s.queues[m][j]);
    assert ApartIn(s.index, KeyOf(s.queues[l][i].order), KeyOf(s.queues[m][j].order));
    if l == m && i != j {
      DistinctAt(s.queues[l], i, j);
    }
  }

  ghost predicate StillResting(s: State, s': State)
  {
    forall loc :: loc in s'.queues ==> loc in s.queues && forall x :: x in s'.queues[loc] ==> x in s.queues[loc]
  }

  /** Silence in the trade stream keeps the accounts of whatever still rests. */
  lemma QuietAccounted(s: State, s': State, md: seq<MdEvent>, quiet: seq<MdEvent>)
    requires Accounted(s, md) && s.nextId <= s'.nextId && StillResting(s, s')
    requires forall i :: 0 <= i < |quiet| ==> !quiet[i].Trade?
    ensures Accounted(s', md + quiet)
  {
    forall id: nat
      ensures Traded(md + quiet, id) == Traded(md, id)
    {
      TradedAppend(md, quiet, id);
      NoTrades(quiet, id);
    }
    forall loc, i | loc in s'.queues && 0 <= i < |s'.queues[loc]|
      ensures OrderAccounted(md + quiet, s'.queues[loc][i])
    {
      assert s'.queues[loc][i] in s'.queues[loc];
      var j :| 0 <= j < |s.queues[loc]| && s.queues[loc][j] == s'.queues[loc][i];
      assert OrderAccounted(md, s.queues[loc][j]);
    }
  }

  lemma WithdrawAccounted(s: State, slot: Slot, md: seq<MdEvent>)
    requires Accounted(s, md) && slot.loc in s.queues && slot.pos < |s.queues[slot.loc]|
    ensures Accounted(Withdraw(s, slot).0, md + Withdraw(s, slot).1)
  {
    QuietAccounted(s, Withdraw(s, slot).0, md, Withdraw(s, slot).1);
  }

  lemma FillsDistinct(q: seq<Resting>, taker: Order, m: Matched, j: nat)
    requires Distinct(q) && IsMatch(q, taker, m) && j < |q|
    ensures FilledOf(m.fills, q[j].id) == if j < |m.fills| then m.fills[j].qty else 0
  {
    if j < |m.fills| {
      forall f, g | 0 <= f < g < |m.fills|
        ensures m.fills[f].maker.id != m.fills[g].maker.id
      {
        DistinctAt(q, f, g);
      }
      FilledOfOne(m.fills, j);
    } else {
      forall f | 0 <= f < |m.fills|
        ensures m.fills[f].maker.id != q[j].id
      {
        DistinctAt(q, f, j);
      }
      FilledOfNone(m.fills, q[j].id);
    }
  }

  /** A maker that survives a match has lost exactly what its trades say; others of the queue are untouched. */
  lemma SurvivorFills(q: seq<Resting>, taker: Order, i: nat)
    requires Live(q) && Distinct(q)
    requires i < |Match(q, taker).queue|
    ensures var m := Match(q, taker);
            var j := |q| - |m.queue| + i;
            && 0 <= j < |q|
            && m.queue[i] == q[j].(order := q[j].order.(leavesQty := m.queue[i].order.leavesQty))
            && m.queue[i].order.leavesQty + FilledOf(m.fills, q[j].id) == q[j].order.leavesQty
  {
    MatchIsMatch(q, taker);
    Survivor(q, taker, Match(q, taker), i);
  }

  lemma Survivor(q: seq<Resting>, taker: Order, m: Matched, i: nat)
    requires Live(q) && Distinct(q) && IsMatch(q, taker, m) && i < |m.queue|
    ensures var j := |q| - |m.queue| + i;
            && 0 <= j < |q|
            && m.queue[i] == q[j].(order := q[j].order.(leavesQty := m.queue[i].order.leavesQty))
            && m.queue[i].order.leavesQty + FilledOf(m.fills, q[j].id) == q[j].order.leavesQty
  {
    MatchSuffix(q, taker, m, i);
    FillsDistinct(q, taker, m, |q| - |m.queue| + i);
  }

  lemma FillsElsewhere(s: State, opp: Loc, taker: Order, l: Loc, i: nat)
    requires Coherent(s) && opp in s.queues && l in s.queues && l != opp && i < |s.queues[l]|
    ensures FilledOf(Match(s.queues[opp], taker).fills, s.queues[l][i].id) == 0
  {
    var m := Match(s.queues[opp], taker);
    CoherentLive(s, opp);
    MatchIsMatch(s.queues[opp], taker);
    forall j | 0 <= j < |m.fills|
      ensures m.fills[j].maker.id != s.queues[l][i].id
    {
      if m.fills[j].maker.id == s.queues[l][i].id {
        SameInstance(s, opp, j, l, i);
      }
    }
    FilledOfNone(m.fills, s.queues[l][i].id);
  }

  lemma UnbornFills(s: State, opp: Loc, taker: Order, id: nat)
    requires Coherent(s) && opp in s.queues && s.nextId <= id
    ensures FilledOf(Match(s.queues[opp], taker).fills, id) == 0
  {
    var m := Match(s.queues[opp], taker);
    CoherentLive(s, opp);
    MatchIsMatch(s.queues[opp], taker);
    assert QueueOk(s.index, s.nextId, opp, s.queues[opp]);
    forall j | 0 <= j < |m.fills|
      ensures m.fills[j].maker.id != id
    {
      assert Belongs(s.index, s.nextId, opp, s.queues[opp][j]);
    }
    FilledOfNone(m.fills, id);
  }

  lemma AcceptMdTrades(s: State, r: NewOrderSingle, id: nat)
    requires Known(s, r.symbol)
    ensures var m := MatchFor(s, r);
            && Traded(AcceptMd(s, r), id) == FilledOf(m.fills, id) + (if id == s.nextId then FilledQty(m.fills) else 0)
            && TotalTraded(AcceptMd(s, r)) == FilledQty(m.fills)
  {
    var trades := TradesFor(MakeOrder(r), s.nextId, MatchFor(s, r).fills, s.nextTrade);
    TradedAppend(trades, AfterTrades(s, r), id);
    NoTrades(AfterTrades(s, r), id);
    TradesMean(MakeOrder(r), s.nextId, MatchFor(s, r).fills, s.nextTrade, id);
  }

  lemma ConsumedAccounted(s: State, r: NewOrderSingle, md: seq<MdEvent>)
    requires Inv(s) && Accounted(s, md) && Known(s, r.symbol)
    ensures Accounted(Consume(s, Loc(r.symbol, Opposite(r.side)), MatchFor(s, r)).(nextId := s.nextId + 1),
                      md + AcceptMd(s, r))
  {
    var opp := Loc(r.symbol, Opposite(r.side));
    var m := MatchFor(s, r);
    var s' := Consume(s, opp, m);
    var q := s.queues[opp];
    CoherentLive(s, opp);
    assert QueueOk(s.index, s.nextId, opp, q);
    forall loc, i | loc in s'.queues && 0 <= i < |s'.queues[loc]|
      ensures OrderAccounted(md + AcceptMd(s, r), s'.queues[loc][i])
    {
      var x := s'.queues[loc][i];
      var j: nat := i;
      if loc == opp {
        SurvivorFills(q, MakeOrder(r), i);
        j := |q| - |m.queue| + i;
      } else {
        FillsElsewhere(s, opp, MakeOrder(r), loc, i);
      }
      assert OrderAccounted(md, s.queues[loc][j]);
      assert QueueOk(s.index, s.nextId, loc, s.queues[loc]);
      assert Belongs(s.index, s.nextId, loc, s.queues[loc][j]);
      TradedAppend(md, AcceptMd(s, r), x.id);
      AcceptMdTrades(s, r, x.id);
    }
    forall id: nat | s.nextId < id
      ensures Traded(md + AcceptMd(s, r), id) == 0
    {
      TradedAppend(md, AcceptMd(s, r), id);
      AcceptMdTrades(s, r, id);
      UnbornFills(s, opp, MakeOrder(r), id);
    }
  }

  /** After an accepted order, its own trades are what it lacks. */
  lemma TakerTraded(s: State, r: NewOrderSingle, md: seq<MdEvent>)
    requires Inv(s) && Accounted(s, md) && Known(s, r.symbol)
    ensures r.orderQty - MatchFor(s, r).taker.leavesQty == Traded(md + AcceptMd(s, r), s.nextId)
  {
    var opp := Loc(r.symbol, Opposite(r.side));
    TradedAppend(md, AcceptMd(s, r), s.nextId);
    AcceptMdTrades(s, r, s.nextId);
    UnbornFills(s, opp, MakeOrder(r), s.nextId);
    CoherentLive(s, opp);
    MatchIsMatch(s.queues[opp], MakeOrder(r));
  }

  lemma AcceptAccounted(s: State, r: NewOrderSingle, md: seq<MdEvent>)
    requires Inv(s) && Accounted(s, md) && Known(s, r.symbol)
    ensures Accounted(Accept(s, r).state, md + Accept(s, r).md)
  {
    hide Match, AcceptMd, AcceptOe, Traded, Coherent, Uncrossed;
    var own, opp := Loc(r.symbol, r.side), Loc(r.symbol, Opposite(r.side));
    ConsumedAccounted(s, r, md);
    TakerTraded(s, r, md);
    var s1 := Consume(s, opp, MatchFor(s, r));
    var s' := Accept(s, r).state;
    forall loc, i | loc in s'.queues && 0 <= i < |s'.queues[loc]|
      ensures OrderAccounted(md + Accept(s, r).md, s'.queues[loc][i])
    {
      if Rests(s, r) && loc == own {
        var x := Resting(s.nextId, MatchFor(s, r).taker);
        var at := InsertSplits(r.side, s1.queues[own], x);
        if i != at {
          assert s'.queues[loc][i] == s1.queues[own][if i < at then i else i - 1];
        }
      } else {
        assert s'.queues[loc] == s1.queues[loc];
      }
    }
  }

  lemma NewOrderAccounted(s: State, r: NewOrderSingle, md: seq<MdEvent>)
    requires Inv(s) && Accounted(s, md)
    ensures match NewOrderStep(s, r)
            case Ok(out) => Accounted(out.state, md + out.md)
            case Err(_) => true
  {
    if NewOrderStep(s, r).Ok? {
      AcceptAccounted(s, r, md);
    }
  }

  lemma ReplaceTailAccounted(s: State, o: ReplaceOrder, md: seq<MdEvent>)
    requires Inv(s) && Accounted(s, md)
    ensures Accounted(ReplaceTail(s, o).state, md + ReplaceTail(s, o).md)
  {
    NewOrderAccounted(s, Replacement(o), md);
    assert md + [] == md;
  }

  lemma ReplaceAccounted(s: State, o: ReplaceOrder, md: seq<MdEvent>)
    requires Inv(s) && Accounted(s, md)
    ensures Accounted(ReplaceStep(s, o).state, md + ReplaceStep(s, o).md)
  {
    var slot := Lookup(s, Key(o.clientId, o.origClOrdId));
    if slot.None? || Key(o.clientId, o.clOrdId) in s.index {
      assert md + [] == md;
    } else {
      var (s1, md1) := Withdraw(s, slot.value);
      WithdrawInv(s, slot.value);
      WithdrawAccounted(s, slot.value, md);
      ReplaceTailAccounted(s1, o, md + md1);
      Associative(md, md1, ReplaceTail(s1, o).md);
    }
  }

  lemma Associative(a: seq<MdEvent>, b: seq<MdEvent>, c: seq<MdEvent>)
    ensures (a + b) + c == a + (b + c)
  {
  }

  lemma CancelAccounted(s: State, c: CancelOrder, md: seq<MdEvent>)
    requires Inv(s) && Accounted(s, md)
    ensures Accounted(CancelStep(s, c).state, md + CancelStep(s, c).md)
  {
    assert md + [] == md;
    var slot := Lookup(s, Key(c.clientId, c.origClOrdId));
    if slot.Some? {
      QuietAccounted(s, CancelStep(s, c).state, md, CancelStep(s, c).md);
    }
  }

  lemma StepAccounted(s: State, r: Request, md: seq<MdEvent>)
    requires Inv(s) && Accounted(s, md)
    ensures Accounted(Step(s, r).state, md + Step(s, r).md)
  {
    assert md + [] == md;
    match r
    case New(order) => NewOrderAccounted(s, order, md);
    case Replace(o) => ReplaceAccounted(s, o, md);
    case Cancel(c) => CancelAccounted(s, c, md);
    case Flush => QuietAccounted(s, Step(s, r).state, md, []);
  }

  /** Over any run, every resting order has traded exactly what it lacks. */
  lemma {:induction false} RunAccounted(s: State, rs: seq<Request>, md: seq<MdEvent>)
    requires Inv(s) && Accounted(s, md)
    ensures Accounted(Run(s, rs).state, md + Run(s, rs).md)
    decreases |rs|
  {
    if rs == [] {
      assert md + [] == md;
    } else {
      StepInv(s, rs[0]);
      StepAccounted(s, rs[0], md);
      RunAccounted(Step(s, rs[0]).state, rs[1..], md + Step(s, rs[0]).md);
      Associative(md, Step(s, rs[0]).md, Run(Step(s, rs[0]).state, rs[1..]).md);
    }
  }

  /** A report's cum_qty is what its order instance had traded: before the request, or with it for a trade report. */
  predicate ReportTrue(before: seq<MdEvent>, after: seq<MdEvent>, e: OeEvent)
  {
    e.Report? ==>
      && e.report.cumQty == Traded(if e.report.execType == ExecType.Trade then after else before, e.instance)
      && e.report.cumQty + e.report.leavesQty == e.report.orderQty
  }

  lemma ReportMeans(before: seq<MdEvent>, after: seq<MdEvent>, o: Order, id: nat, execId: U64, execType: ExecType,
                    status: OrdStatus, orig: Option<U64>, lastQty: Option<U64>, lastPx: Option<U64>)
    requires o.orderQty - o.leavesQty == Traded(if execType == ExecType.Trade then after else before, id)
    ensures ReportTrue(before, after, ReportFor(o, id, execId, execType, status, orig, lastQty, lastPx))
  {
    assert Wrap(o.orderQty - o.leavesQty) == o.orderQty - o.leavesQty;
  }

  lemma AcceptReports(s: State, r: NewOrderSingle, md: seq<MdEvent>)
    requires Inv(s) && Accounted(s, md) && Known(s, r.symbol)
    ensures forall i :: 0 <= i < |AcceptOe(s, r)| ==> ReportTrue(md, md + AcceptMd(s, r), AcceptOe(s, r)[i])
  {
    var m, after := MatchFor(s, r), md + AcceptMd(s, r);
    TakerTraded(s, r, md);
    assert Traded(md, s.nextId) == 0;
    ReportMeans(md, after, MakeOrder(r), s.nextId, s.nextExec, ExecType.NewOrder, OrdStatus.NewOrder, None, None, None);
    if m.fills != [] {
      ReportMeans(md, after, m.taker, s.nextId, Succ(s.nextExec), ExecType.Trade,
                  if m.taker.leavesQty == 0 then OrdStatus.Filled else OrdStatus.PartiallyFilled,
                  None, Some(r.orderQty - m.taker.leavesQty), Some(m.fills[|m.fills| - 1].maker.order.price));
    }
  }

  /** Messages other than trades may precede a request without changing what its reports mean. */
  lemma QuietReport(md: seq<MdEvent>, quiet: seq<MdEvent>, out: seq<MdEvent>, e: OeEvent)
    requires forall i :: 0 <= i < |quiet| ==> !quiet[i].Trade?
    requires ReportTrue(md + quiet, md + quiet + out, e)
    ensures ReportTrue(md, md + (quiet + out), e)
  {
    if e.Report? {
      TradedAppend(md, quiet, e.instance);
      NoTrades(quiet, e.instance);
      assert md + quiet + out == md + (quiet + out);
    }
  }

  lemma ReplaceReports(s: State, o: ReplaceOrder, md: seq<MdEvent>, i: nat)
    requires Inv(s) && Accounted(s, md) && i < |ReplaceStep(s, o).oe|
    ensures ReportTrue(md, md + ReplaceStep(s, o).md, ReplaceStep(s, o).oe[i])
  {
    var slot := Lookup(s, Key(o.clientId, o.origClOrdId));
    if slot.Some? && Key(o.clientId, o.clOrdId) !in s.index {
      var (s1, md1) := Withdraw(s, slot.value);
      var tail := ReplaceTail(s1, o);
      assert ReplaceStep(s, o).oe[i] == tail.oe[i];
      WithdrawInv(s, slot.value);
      WithdrawAccounted(s, slot.value, md);
      if NewOrderStep(s1, Replacement(o)).Ok? {
        AcceptReports(s1, Replacement(o), md + md1);
      }
      QuietReport(md, md1, tail.md, tail.oe[i]);
    }
  }

  lemma CancelReports(s: State, c: CancelOrder, md: seq<MdEvent>)
    requires Inv(s) && Accounted(s, md)
    ensures ReportTrue(md, md + CancelStep(s, c).md, CancelStep(s, c).oe[0])
  {
    var slot := Lookup(s, Key(c.clientId, c.origClOrdId));
    if slot.Some? {
      var loc, i := slot.value.loc, slot.value.pos;
      assert QueueOk(s.index, s.nextId, loc, s.queues[loc]);
      assert Belongs(s.index, s.nextId, loc, s.queues[loc][i]);
      assert OrderAccounted(md, s.queues[loc][i]);
    }
  }

  lemma StepReports(s: State, r: Request, md: seq<MdEvent>, i: nat)
    requires Inv(s) && Accounted(s, md) && i < |Step(s, r).oe|
    ensures ReportTrue(md, md + Step(s, r).md, Step(s, r).oe[i])
  {
    match r
    case New(order) => AcceptReports(s, order, md);
    case Replace(o) => ReplaceReports(s, o, md, i);
    case Cancel(c) => CancelReports(s, c, md);
    case Flush =>
  }

  /** Every report of every run states the true filled amount of its order. */
  lemma ReportsTrue(symbols: set<Symbol>, rs: seq<Request>, r: Request, i: nat)
    requires i < |Step(Run(Initial(symbols), rs).state, r).oe|
    ensures var past := Run(Initial(symbols), rs);
            var out := Step(past.state, r);
            ReportTrue(past.md, past.md + out.md, out.oe[i])
  {
    var s0 := Initial(symbols);
    InitialInv(symbols);
    RunInv(s0, rs);
    RunAccounted(s0, rs, []);
    assert [] + Run(s0, rs).md == Run(s0, rs).md;
    StepReports(Run(s0, rs).state, r, Run(s0, rs).md, i);
  }

  // ---------- conservation ----------

  /** Everything that rests, over all books. */
  ghost function RestingQty(queues: map<Loc, seq<Resting>>): nat
    decreases |queues|
  {
    if queues == map[] then 0
    else
      var loc :| loc in queues;
      LeavesOf(queues[loc]) + RestingQty(queues - {loc})
  }

  lemma {:induction false} RestingPick(queues: map<Loc, seq<Resting>>, loc: Loc)
    requires loc in queues
    ensures RestingQty(queues) == LeavesOf(queues[loc]) + RestingQty(queues - {loc})
    decreases |queues|
  {
    var first :| first in queues && RestingQty(queues) == LeavesOf(queues[first]) + RestingQty(queues - {first});
    if first != loc {
      RestingPick(queues - {first}, loc);
      RestingPick(queues - {loc}, first);
      assert queues - {first} - {loc} == queues - {loc} - {first};
    }
  }

  lemma RestingUpdate(queues: map<Loc, seq<Resting>>, loc: Loc, q: seq<Resting>)
    requires loc in queues
    ensures RestingQty(queues[loc := q]) + LeavesOf(queues[loc]) == RestingQty(queues) + LeavesOf(q)
  {
    RestingPick(queues, loc);
    RestingPick(queues[loc := q], loc);
    assert queues[loc := q] - {loc} == queues - {loc};
  }

  lemma {:induction false} RestingEmpty(queues: map<Loc, seq<Resting>>)
    requires forall loc :: loc in queues ==> queues[loc] == []
    ensures RestingQty(queues) == 0
    decreases |queues|
  {
    if queues != map[] {
      var first :| first in queues && RestingQty(queues) == LeavesOf(queues[first]) + RestingQty(queues - {first});
      RestingEmpty(queues - {first});
    }
  }

  lemma {:induction false} MatchLeaves(q: seq<Resting>, taker: Order)
    ensures var m := Match(q, taker);
            && LeavesOf(m.queue) + FilledQty(m.fills) == LeavesOf(q)
            && m.taker.leavesQty + FilledQty(m.fills) == taker.leavesQty
    decreases |q|, taker.leavesQty
  {
    if q == [] || taker.leavesQty == 0 || !Crosses(taker, q[0].order.price) {
    } else {
      var qty := Min(taker.leavesQty, q[0].order.leavesQty);
      MatchLeaves(HitHead(q, qty), Take(taker, qty));
      var m := Match(HitHead(q, qty), Take(taker, qty));
      assert ([Fill(q[0], qty)] + m.fills)[1..] == m.fills;
      assert ([Hit(q[0], qty)] + q[1..])[1..] == q[1..];
    }
  }

  lemma InsertLeaves(side: Side, q: seq<Resting>, x: Resting)
    ensures LeavesOf(Insert(side, q, x)) == LeavesOf(q) + x.order.leavesQty
  {
    if q == [] || Better(side, x.order.price, q[0].order.price) {
      assert ([x] + q)[1..] == q;
    } else {
      InsertLeaves(side, q[1..], x);
      assert ([q[0]] + Insert(side, q[1..], x))[1..] == Insert(side, q[1..], x);
    }
  }

  /** Order quantities of the acceptances announced in a lifecycle stream. */
  function Accepted(oe: seq<OeEvent>): nat
  {
    if oe == [] then 0
    else (if oe[0].Report? && oe[0].report.execType == ExecType.NewOrder then oe[0].report.orderQty else 0)
         + Accepted(oe[1..])
  }

  /** Where quantity went besides trading: taken out by cancel, replace or flush, or dropped as a market remainder. */
  datatype Losses = Losses(withdrawn: nat, dropped: nat)

  function DroppedBy(s: State, r: NewOrderSingle): nat
  {
    if NewOrderStep(s, r).Ok? && r.price == 0 then MatchFor(s, r).taker.leavesQty else 0
  }

  ghost function StepLosses(s: State, r: Request): Losses
  {
    match r
    case New(order) => Losses(0, DroppedBy(s, order))
    case Replace(o) =>
      var slot := Lookup(s, Key(o.clientId, o.origClOrdId));
      if slot.None? || Key(o.clientId, o.clOrdId) in s.index then Losses(0, 0)
      else Losses(s.queues[slot.value.loc][slot.value.pos].order.leavesQty,
                  DroppedBy(Withdraw(s, slot.value).0, Replacement(o)))
    case Cancel(c) =>
      var slot := Lookup(s, Key(c.clientId, c.origClOrdId));
      if slot.None? then Losses(0, 0) else Losses(s.queues[slot.value.loc][slot.value.pos].order.leavesQty, 0)
    case Flush => Losses(RestingQty(s.queues), 0)
  }

  ghost function RunLosses(s: State, rs: seq<Request>): Losses
    decreases |rs|
  {
    if rs == [] then Losses(0, 0)
    else
      var first, rest := StepLosses(s, rs[0]), RunLosses(Step(s, rs[0]).state, rs[1..]);
      Losses(first.withdrawn + rest.withdrawn, first.dropped + rest.dropped)
  }

  lemma {:induction false} AcceptedAppend(a: seq<OeEvent>, b: seq<OeEvent>)
    ensures Accepted(a + b) == Accepted(a) + Accepted(b)
    decreases |a|
  {
    if a == [] {
      assert a + b == b;
    } else {
      assert (a + b)[1..] == a[1..] + b;
      AcceptedAppend(a[1..], b);
    }
  }

  ghost predicate Balanced(s: State, out: Output, losses: Losses)
  {
    RestingQty(s.queues) + Accepted(out.oe)
    == RestingQty(out.state.queues) + 2 * TotalTraded(out.md) + losses.withdrawn + losses.dropped
  }

  /** Matching moves each traded unit out of the opposite queue and out of the incoming order. */
  lemma ConsumeBalanced(s: State, r: NewOrderSingle)
    requires Known(s, r.symbol)
    ensures var m := MatchFor(s, r);
            RestingQty(s.queues) + r.orderQty
            == RestingQty(Consume(s, Loc(r.symbol, Opposite(r.side)),
                m).queues) + m.taker.leavesQty + 2 * FilledQty(m.fills)
  {
    hide Match;
    var opp, m := Loc(r.symbol, Opposite(r.side)), MatchFor(s, r);
    MatchLeaves(s.queues[opp], MakeOrder(r));
    RestingUpdate(s.queues, opp, m.queue);
  }

  /** What remains of the order rests or is dropped. */
  lemma SettleBalanced(s: State, r: NewOrderSingle)
    requires NewOrderStep(s, r).Ok?
    ensures RestingQty(s.queues) + r.orderQty
         == RestingQty(Settle(s, r).queues) + DroppedBy(s, r) + 2 * FilledQty(MatchFor(s, r).fills)
  {
    hide Match, Insert;
    var own, opp, m := Loc(r.symbol, r.side), Loc(r.symbol, Opposite(r.side)), MatchFor(s, r);
    var s1 := Consume(s, opp, m);
    ConsumeBalanced(s, r);
    if Rests(s, r) {
      var x := Resting(s.nextId, m.taker);
      InsertLeaves(r.side, s1.queues[own], x);
      RestingUpdate(s1.queues, own, Insert(r.side, s1.queues[own], x));
    }
  }

  /** One acceptance is reported, whatever else is. */
  lemma AcceptedOnce(s: State, r: NewOrderSingle)
    requires Known(s, r.symbol)
    ensures Accepted(AcceptOe(s, r)) == r.orderQty
  {
    hide Match;
    var oe := AcceptOe(s, r);
    assert Accepted(oe[1..]) == 0 by {
      if |oe| == 2 {
        assert oe[1..][0] == oe[1] && oe[1..][1..] == [];
      }
    }
  }

  lemma AcceptBalanced(s: State, r: NewOrderSingle)
    requires NewOrderStep(s, r).Ok?
    ensures Balanced(s, Accept(s, r), Losses(0, DroppedBy(s, r)))
  {
    hide Settle, MatchFor, AcceptOe, AcceptMd, RestingQty, Accepted, TotalTraded, FilledQty, DroppedBy;
    SettleBalanced(s, r);
    AcceptedOnce(s, r);
    AcceptMdTrades(s, r, 0);
  }

  lemma WithdrawBalanced(s: State, slot: Slot)
    requires slot.loc in s.queues && slot.pos < |s.queues[slot.loc]|
    ensures RestingQty(s.queues)
         == RestingQty(Withdraw(s, slot).0.queues) + s.queues[slot.loc][slot.pos].order.leavesQty
    ensures TotalTraded(Withdraw(s, slot).1) == 0
  {
    RemoveLeaves(s.queues[slot.loc], slot.pos);
    RestingUpdate(s.queues, slot.loc, RemoveAt(s.queues[slot.loc], slot.pos));
    NoTrades(Withdraw(s, slot).1, 0);
  }

  lemma ReplaceBalanced(s: State, o: ReplaceOrder)
    ensures Balanced(s, ReplaceStep(s, o), StepLosses(s, Replace(o)))
  {
    var slot := Lookup(s, Key(o.clientId, o.origClOrdId));
    if slot.Some? && Key(o.clientId, o.clOrdId) !in s.index {
      var (s1, md) := Withdraw(s, slot.value);
      var tail := ReplaceTail(s1, o);
      WithdrawBalanced(s, slot.value);
      TradedAppend(md, tail.md, 0);
      assert [] + tail.oe == tail.oe;
      if NewOrderStep(s1, Replacement(o)).Ok? {
        AcceptBalanced(s1, Replacement(o));
      }
    }
  }

  lemma CancelBalanced(s: State, c: CancelOrder)
    ensures Balanced(s, CancelStep(s, c), StepLosses(s, Cancel(c)))
  {
    var slot := Lookup(s, Key(c.clientId, c.origClOrdId));
    if slot.Some? {
      WithdrawBalanced(s, slot.value);
      assert CancelStep(s, c).oe[1..] == [];
    }
  }

  lemma StepBalanced(s: State, r: Request)
    ensures Balanced(s, Step(s, r), StepLosses(s, r))
  {
    match r
    case New(order) =>
      if NewOrderStep(s, order).Ok? {
        AcceptBalanced(s, order);
      }
    case Replace(o) => ReplaceBalanced(s, o);
    case Cancel(c) => CancelBalanced(s, c);
    case Flush => RestingEmpty(Step(s, r).state.queues);
  }

  /** Over any run: accepted = still resting + twice the traded + withdrawn + dropped. */
  lemma {:induction false} Conservation(s: State, rs: seq<Request>)
    ensures Balanced(s, Run(s, rs), RunLosses(s, rs))
    decreases |rs|
  {
    if rs != [] {
      var first := Step(s, rs[0]);
      var rest := Run(first.state, rs[1..]);
      StepBalanced(s, rs[0]);
      Conservation(first.state, rs[1..]);
      TradedAppend(first.md, rest.md, 0);
      AcceptedAppend(first.oe, rest.oe);
    }
  }

}
