/** What the two streams say about one accepted order, how their numbering runs, and what a replace amounts to. */
module Reports {
  import opened Wrappers
  import opened Types
  import opened PriceTimeQueue
  import opened FlatEngine
  import opened FlatInvariant
  import opened Ledger

  // ---------- numbering ----------

  function TradesOf(md: seq<MdEvent>): seq<TradeMsg>
  {
    if md == [] then [] else (if md[0].Trade? then [md[0].trade] else []) + TradesOf(md[1..])
  }

  function ReportsOf(oe: seq<OeEvent>): seq<ExecutionReport>
  {
    if oe == [] then [] else (if oe[0].Report? then [oe[0].report] else []) + ReportsOf(oe[1..])
  }

  lemma {:induction false} TradesOfAppend(a: seq<MdEvent>, b: seq<MdEvent>)
    ensures TradesOf(a + b) == TradesOf(a) + TradesOf(b)
    decreases |a|
  {
    if a == [] {
      assert a + b == b;
    } else {
      var head := if a[0].Trade? then [a[0].trade] else [];
      assert (a + b)[0] == a[0] && (a + b)[1..] == a[1..] + b;
      TradesOfAppend(a[1..], b);
      assert head + (TradesOf(a[1..]) + TradesOf(b)) == (head + TradesOf(a[1..])) + TradesOf(b);
    }
  }

  lemma {:induction false} ReportsOfAppend(a: seq<OeEvent>, b: seq<OeEvent>)
    ensures ReportsOf(a + b) == ReportsOf(a) + ReportsOf(b)
    decreases |a|
  {
    if a == [] {
      assert a + b == b;
    } else {
      var head := if a[0].Report? then [a[0].report] else [];
      assert (a + b)[0] == a[0] && (a + b)[1..] == a[1..] + b;
      ReportsOfAppend(a[1..], b);
      assert head + (ReportsOf(a[1..]) + ReportsOf(b)) == (head + ReportsOf(a[1..])) + ReportsOf(b);
    }
  }

  lemma {:induction false} NoTradesOf(md: seq<MdEvent>)
    requires forall i :: 0 <= i < |md| ==> !md[i].Trade?
    ensures TradesOf(md) == []
    decreases |md|
  {
    if md != [] {
      assert !md[0].Trade?;
      NoTradesOf(md[1..]);
    }
  }

  lemma {:induction false} TradesOfTrades(taker: Order, takerId: nat, fills: seq<Fill>, nextTrade: U64)
    ensures var md := TradesFor(taker, takerId, fills, nextTrade);
            && |TradesOf(md)| == |fills|
            && forall i :: 0 <= i < |fills| ==> TradesOf(md)[i] == md[i].trade
    decreases |fills|
  {
    var md := TradesFor(taker, takerId, fills, nextTrade);
    if fills != [] {
      TradesTail(taker, takerId, fills, nextTrade);
      TradesOfTrades(taker, takerId, fills[1..], Succ(nextTrade));
    }
  }

  predicate TradesNumbered(trades: seq<TradeMsg>, first: U64, next: U64)
  {
    && next == Advance(first, |trades|)
    && forall i :: 0 <= i < |trades| ==> trades[i].tradeId == Advance(first, i)
  }

  predicate ReportsNumbered(reports: seq<ExecutionReport>, first: U64, next: U64)
  {
    && next == Advance(first, |reports|)
    && forall i :: 0 <= i < |reports| ==> reports[i].execId == Advance(first, i)
  }

  /** The two counters number the trades and the reports of an output in emission order. */
  ghost predicate Numbered(s: State, out: Output)
  {
    && TradesNumbered(TradesOf(out.md), s.nextTrade, out.state.nextTrade)
    && ReportsNumbered(ReportsOf(out.oe), s.nextExec, out.state.nextExec)
  }

  lemma TradesNumberedAppend(a: seq<TradeMsg>, b: seq<TradeMsg>, first: U64, mid: U64, next: U64)
    requires TradesNumbered(a, first, mid) && TradesNumbered(b, mid, next)
    ensures TradesNumbered(a + b, first, next)
  {
    AdvanceAdd(first, |a|, |b|);
    forall i | |a| <= i < |a + b|
      ensures (a + b)[i].tradeId == Advance(first, i)
    {
      assert (a + b)[i] == b[i - |a|];
      AdvanceAdd(first, |a|, i - |a|);
    }
  }

  lemma ReportsNumberedAppend(a: seq<ExecutionReport>, b: seq<ExecutionReport>, first: U64, mid: U64, next: U64)
    requires ReportsNumbered(a, first, mid) && ReportsNumbered(b, mid, next)
    ensures ReportsNumbered(a + b, first, next)
  {
    AdvanceAdd(first, |a|, |b|);
    forall i | |a| <= i < |a + b|
      ensures (a + b)[i].execId == Advance(first, i)
    {
      assert (a + b)[i] == b[i - |a|];
      AdvanceAdd(first, |a|, i - |a|);
    }
  }

  lemma NumberedThen(s: State, a: Output, b: Output)
    requires Numbered(s, a) && Numbered(a.state, b)
    ensures Numbered(s, Then(a, b))
  {
    TradesOfAppend(a.md, b.md);
    ReportsOfAppend(a.oe, b.oe);
    TradesNumberedAppend(TradesOf(a.md), TradesOf(b.md), s.nextTrade, a.state.nextTrade, b.state.nextTrade);
    ReportsNumberedAppend(ReportsOf(a.oe), ReportsOf(b.oe), s.nextExec, a.state.nextExec, b.state.nextExec);
  }

  lemma NumberedSilent(s: State, s': State, md: seq<MdEvent>, oe: seq<OeEvent>)
    requires s'.nextTrade == s.nextTrade && s'.nextExec == s.nextExec
    requires forall i :: 0 <= i < |md| ==> !md[i].Trade?
    requires oe == [] || (|oe| == 1 && oe[0].Reject?)
    ensures Numbered(s, Output(s', md, oe))
  {
    NoTradesOf(md);
    assert oe != [] ==> oe[1..] == [];
  }

  lemma AcceptOeNumbered(s: State, r: NewOrderSingle)
    requires Known(s, r.symbol)
    ensures ReportsNumbered(ReportsOf(AcceptOe(s, r)), s.nextExec, Advance(s.nextExec, |AcceptOe(s, r)|))
  {
    var oe := AcceptOe(s, r);
    if |oe| == 2 {
      assert oe == [oe[0]] + [oe[1]];
      ReportsOfAppend([oe[0]], [oe[1]]);
    }
  }

  lemma AcceptMdNumbered(s: State, r: NewOrderSingle)
    requires Known(s, r.symbol)
    ensures TradesNumbered(TradesOf(AcceptMd(s, r)), s.nextTrade, Advance(s.nextTrade, |MatchFor(s, r).fills|))
  {
    var fills := MatchFor(s, r).fills;
    var trades := TradesFor(MakeOrder(r), s.nextId, fills, s.nextTrade);
    TradesOfAppend(trades, AfterTrades(s, r));
    NoTradesOf(AfterTrades(s, r));
    TradesOfTrades(MakeOrder(r), s.nextId, fills, s.nextTrade);
  }

  lemma AcceptNumbered(s: State, r: NewOrderSingle)
    requires Known(s, r.symbol)
    ensures Numbered(s, Accept(s, r))
  {
    AcceptMdNumbered(s, r);
    AcceptOeNumbered(s, r);
  }

  lemma ReplaceNumbered(s: State, o: ReplaceOrder)
    ensures Numbered(s, ReplaceStep(s, o))
  {
    var slot := Lookup(s, Key(o.clientId, o.origClOrdId));
    if slot.None? || Key(o.clientId, o.clOrdId) in s.index {
      NumberedSilent(s, s, [], ReplaceStep(s, o).oe);
    } else {
      var (s1, md) := Withdraw(s, slot.value);
      NumberedSilent(s, s1, md, []);
      if NewOrderStep(s1, Replacement(o)).Ok? {
        AcceptNumbered(s1, Replacement(o));
      } else {
        NumberedSilent(s1, s1, [], ReplaceTail(s1, o).oe);
      }
      NumberedThen(s, Output(s1, md, []), ReplaceTail(s1, o));
    }
  }

  lemma CancelNumbered(s: State, c: CancelOrder)
    ensures Numbered(s, CancelStep(s, c))
  {
    var out := CancelStep(s, c);
    if Lookup(s, Key(c.clientId, c.origClOrdId)).None? {
      NumberedSilent(s, s, [], out.oe);
    } else {
      NoTradesOf(out.md);
      assert out.oe[1..] == [];
    }
  }

  lemma StepNumbered(s: State, r: Request)
    ensures Numbered(s, Step(s, r))
  {
    match r
    case New(order) =>
      if NewOrderStep(s, order).Ok? {
        AcceptNumbered(s, order);
      } else {
        NumberedSilent(s, s, [], []);
      }
    case Replace(o) => ReplaceNumbered(s, o);
    case Cancel(c) => CancelNumbered(s, c);
    case Flush => NumberedSilent(s, FlushStep(s), [], []);
  }

  /** Over any run trade ids and exec ids are consecutive in emission order, wrapping at 2^64. */
  lemma {:induction false} RunNumbered(s: State, rs: seq<Request>)
    ensures Numbered(s, Run(s, rs))
    decreases |rs|
  {
    if rs == [] {
      NumberedSilent(s, s, [], []);
    } else {
      StepNumbered(s, rs[0]);
      RunNumbered(Step(s, rs[0]).state, rs[1..]);
      NumberedThen(s, Step(s, rs[0]), Run(Step(s, rs[0]).state, rs[1..]));
    }
  }

  /** From the start: the k-th trade and the k-th report carry number k, modulo 2^64. */
  lemma NumberedFromOne(symbols: set<Symbol>, rs: seq<Request>, k: nat)
    ensures var out := Run(Initial(symbols), rs);
            && (k < |TradesOf(out.md)| ==> TradesOf(out.md)[k].tradeId == Wrap(k + 1))
            && (k < |ReportsOf(out.oe)| ==> ReportsOf(out.oe)[k].execId == Wrap(k + 1))
  {
    RunNumbered(Initial(symbols), rs);
    AdvanceIsWrap(1, k);
  }

  // ---------- one accepted order ----------

  /** Trade prices move away from the best: no later maker has a better price than an earlier one. */
  lemma PricesWorsen(side: Side, q: seq<Resting>, taker: Order, i: nat, j: nat)
    requires Live(q) && Sorted(side, q) && i <= j < |Match(q, taker).fills|
    ensures !Better(side, Match(q, taker).fills[j].maker.order.price, Match(q, taker).fills[i].maker.order.price)
  {
    hide Match;
    MatchIsMatch(q, taker);
    assert i < j ==> Precedes(side, q[i], q[j]);
  }

  lemma AfterTradesHead(s: State, r: NewOrderSingle)
    requires Known(s, r.symbol) && MatchFor(s, r).fills != []
    ensures var m := MatchFor(s, r);
            && AfterTrades(s, r) != []
            && AfterTrades(s, r)[0] == Summary(SummaryMsg(r.securityId, r.side,
                m.fills[|m.fills| - 1].maker.order.price,
                                                          r.orderQty - m.taker.leavesQty), r.symbol, s.nextId)
  {
  }

  lemma AcceptMdAt(s: State, r: NewOrderSingle, i: nat)
    requires Known(s, r.symbol) && i < |MatchFor(s, r).fills| + |AfterTrades(s, r)|
    ensures var fills := MatchFor(s, r).fills;
            && |AcceptMd(s, r)| == |fills| + |AfterTrades(s, r)|
            && AcceptMd(s, r)[i] == (if i < |fills| then TradeFor(MakeOrder(r), s.nextId, fills[i],
                Advance(s.nextTrade, i))
                                    else AfterTrades(s, r)[i - |fills|])
  {
  }

  predicate Worsening(side: Side, md: seq<MdEvent>, n: nat)
  {
    && n <= |md|
    && (forall i :: 0 <= i < n ==> md[i].Trade?)
    && (forall i, j :: 0 <= i <= j < n ==> !Better(side, md[j].trade.price, md[i].trade.price))
  }

  /** The trades of an accepted order come first and their prices move away from the best. */
  lemma AcceptWorsening(s: State, r: NewOrderSingle)
    requires Coherent(s) && Known(s, r.symbol)
    ensures Worsening(Opposite(r.side), AcceptMd(s, r), |MatchFor(s, r).fills|)
  {
    var opp, fills := Loc(r.symbol, Opposite(r.side)), MatchFor(s, r).fills;
    CoherentLive(s, opp);
    forall i, j | 0 <= i <= j < |fills|
      ensures AcceptMd(s, r)[i].Trade? && !Better(opp.side, AcceptMd(s, r)[j].trade.price, AcceptMd(s,
          r)[i].trade.price)
    {
      AcceptMdAt(s, r, i);
      AcceptMdAt(s, r, j);
      PricesWorsen(opp.side, s.queues[opp], MakeOrder(r), i, j);
    }
  }

  /** The summary that follows states the last, hence worst, price and the sum of the traded quantities. */
  lemma AcceptSummarised(s: State, r: NewOrderSingle)
    requires Known(s, r.symbol) && MatchFor(s, r).fills != []
    ensures var md, n := AcceptMd(s, r), |MatchFor(s, r).fills|;
            && n < |md| && md[n].Summary? && md[n - 1].Trade?
            && md[n].summary.lastPx == md[n - 1].trade.price
            && md[n].summary.fillQty == TotalTraded(md)
  {
    hide Match, AcceptMd, AfterTrades, TotalTraded;
    var n := |MatchFor(s, r).fills|;
    AfterTradesHead(s, r);
    AcceptMdAt(s, r, n);
    AcceptMdAt(s, r, n - 1);
    AcceptMdTrades(s, r, 0);
    MatchLeaves(s.queues[Loc(r.symbol, Opposite(r.side))], MakeOrder(r));
  }

  lemma AcceptOeAt(s: State, r: NewOrderSingle)
    requires Known(s, r.symbol) && MatchFor(s, r).fills != []
    ensures var m := MatchFor(s, r);
            && |AcceptOe(s, r)| == 2
            && AcceptOe(s, r)[1] == ReportFor(m.taker, s.nextId, Succ(s.nextExec), ExecType.Trade,
                                              if m.taker.leavesQty == 0 then OrdStatus.Filled
                                                  else OrdStatus.PartiallyFilled,
                                              None, Some(r.orderQty - m.taker.leavesQty),
                                              Some(m.fills[|m.fills| - 1].maker.order.price))
  {
  }

  /** The trade report of an accepted order agrees with its market data. */
  lemma AcceptReported(s: State, r: NewOrderSingle)
    requires Known(s, r.symbol) && MatchFor(s, r).fills != []
    ensures var md, oe, n := AcceptMd(s, r), AcceptOe(s, r), |MatchFor(s, r).fills|;
            && |oe| == 2 && oe[1].Report? && 0 < n <= |md| && md[n - 1].Trade?
            && oe[1].report.lastQty == Some(TotalTraded(md))
            && oe[1].report.lastPx == oe[1].report.avgPx == Some(md[n - 1].trade.price)
            && oe[1].report.leavesQty + TotalTraded(md) == r.orderQty
            && (oe[1].report.ordStatus == OrdStatus.Filled <==> oe[1].report.leavesQty == 0)
  {
    hide Match, AcceptMd, AcceptOe, TotalTraded;
    AcceptOeAt(s, r);
    AcceptMdAt(s, r, |MatchFor(s, r).fills| - 1);
    AcceptMdTrades(s, r, 0);
    MatchLeaves(s.queues[Loc(r.symbol, Opposite(r.side))], MakeOrder(r));
  }

  predicate AllAt(fills: seq<Fill>, price: U64)
  {
    forall i :: 0 <= i < |fills| ==> fills[i].maker.order.price == price
  }

  lemma AllAtCons(f: Fill, fills: seq<Fill>, price: U64)
    ensures AllAt([f] + fills, price) <==> f.maker.order.price == price && AllAt(fills, price)
  {
    var all := [f] + fills;
    assert all[0] == f && forall i :: 0 <= i < |fills| ==> all[i + 1] == fills[i];
  }

  function Notional(fills: seq<Fill>): nat
  {
    if fills == [] then 0 else fills[0].maker.order.price * fills[0].qty + Notional(fills[1..])
  }

  lemma Signs(side: Side, p: int, px: int, q: int)
    requires q > 0 && (if side == Buy then px <= p else px >= p)
    ensures if side == Buy then p * q >= px * q else p * q <= px * q
    ensures p * q == px * q <==> p == px
  {
  }

  /** One more fill on the same side of px: n is the notional and f the quantity of those after it. */
  lemma AddsAgainst(side: Side, p: nat, q: nat, px: nat, n: nat, f: nat)
    requires q > 0 && (if side == Buy then px <= p && n >= px * f else px >= p && n <= px * f)
    ensures if side == Buy then p * q + n >= px * (q + f) else p * q + n <= px * (q + f)
    ensures p * q + n == px * (q + f) <==> p == px && n == px * f
  {
    Signs(side, p, px, q);
    assert px * (q + f) == px * q + px * f;
  }

  lemma {:induction false} NotionalAgainst(side: Side, fills: seq<Fill>, px: U64)
    requires forall i :: 0 <= i < |fills| ==> fills[i].qty > 0 && !Better(side, px, fills[i].maker.order.price)
    ensures if side == Buy then Notional(fills) >= px * FilledQty(fills) else Notional(fills) <= px * FilledQty(fills)
    ensures Notional(fills) == px * FilledQty(fills) <==> AllAt(fills, px)
    decreases |fills|
  {
    if fills != [] {
      var f, rest := fills[0], fills[1..];
      NotionalAgainst(side, rest, px);
      assert [f] + rest == fills;
      AllAtCons(f, rest, px);
      NotionalStep(side, f, rest, px);
    }
  }

  lemma NotionalStep(side: Side, f: Fill, rest: seq<Fill>, px: U64)
    requires f.qty > 0 && !Better(side, px, f.maker.order.price)
    requires if side == Buy then Notional(rest) >= px * FilledQty(rest) else Notional(rest) <= px * FilledQty(rest)
    ensures var fills := [f] + rest;
            && (if side == Buy then Notional(fills) >= px * FilledQty(fills)
                else Notional(fills) <= px * FilledQty(fills))
            && (Notional(fills) == px * FilledQty(fills) <==>
                f.maker.order.price == px && Notional(rest) == px * FilledQty(rest))
  {
    var fills := [f] + rest;
    assert fills[1..] == rest;
    assert Notional(fills) == f.maker.order.price * f.qty + Notional(rest);
    assert FilledQty(fills) == f.qty + FilledQty(rest);
    hide Notional, FilledQty;
    AddsAgainst(side, f.maker.order.price, f.qty, px, Notional(rest), FilledQty(rest));
  }

  /** The reported average times the filled quantity is the traded notional exactly when all fills have one price. */
  lemma AvgPxAgainstFills(s: State, r: NewOrderSingle)
    requires Coherent(s) && Known(s, r.symbol) && MatchFor(s, r).fills != []
    ensures var fills := MatchFor(s, r).fills;
            AcceptOe(s, r)[1].report.avgPx.Some?
            && (AcceptOe(s, r)[1].report.avgPx.value * FilledQty(fills) == Notional(fills) <==>
                forall i :: 0 <= i < |fills| ==> fills[i].maker.order.price == fills[0].maker.order.price)
  {
    var opp := Loc(r.symbol, Opposite(r.side));
    var fills := MatchFor(s, r).fills;
    var n := |fills| - 1;
    CoherentLive(s, opp);
    MatchIsMatch(s.queues[opp], MakeOrder(r));
    forall i | 0 <= i <= n
      ensures fills[i].qty > 0 && !Better(opp.side, fills[n].maker.order.price, fills[i].maker.order.price)
    {
      PricesWorsen(opp.side, s.queues[opp], MakeOrder(r), i, n);
    }
    NotionalAgainst(opp.side, fills, fills[n].maker.order.price);
  }

  /** The request stays at one price: the best level can serve it whole, or nothing beyond is within its limit. */
  predicate StaysAt(q: seq<Resting>, taker: Order, price: U64)
  {
    || taker.leavesQty <= LevelQty(q, price)
    || forall i :: 0 <= i < |q| && WithinLimit(taker, q[i].order.price) ==> q[i].order.price == price
  }

  /** Behind a head of a worse price no order stands at the price. */
  lemma NoneAt(side: Side, q: seq<Resting>, price: U64)
    requires Sorted(side, q) && q != [] && Better(side, price, q[0].order.price)
    ensures LevelQty(q, price) == 0
  {
    forall j | 0 <= j < |q|
      ensures q[j].order.price != price
    {
      assert j > 0 ==> Precedes(side, q[0], q[j]);
    }
    LevelQtyNone(q, price);
  }

  /** If the head does not cross, nothing behind it does. */
  lemma NoneCrosses(side: Side, q: seq<Resting>, taker: Order)
    requires Sorted(side, q) && side == Opposite(taker.side) && q != [] && !WithinLimit(taker, q[0].order.price)
    ensures forall i :: 0 <= i < |q| ==> !WithinLimit(taker, q[i].order.price)
  {
    forall i | 0 <= i < |q|
      ensures !WithinLimit(taker, q[i].order.price)
    {
      assert i > 0 ==> Precedes(side, q[0], q[i]);
    }
  }

  lemma TailSorted(side: Side, q: seq<Resting>)
    requires Sorted(side, q) && Live(q) && q != []
    ensures Sorted(side, q[1..]) && Live(q[1..])
  {
    forall i, j | 0 <= i < j < |q[1..]|
      ensures Precedes(side, q[1..][i], q[1..][j])
    {
      assert Precedes(side, q[i + 1], q[j + 1]);
    }
  }

  /** All fills of a match are at the best price exactly when the taker stays there. */
  lemma {:induction false} OnePrice(side: Side, q: seq<Resting>, taker: Order, price: U64)
    requires Live(q) && Sorted(side, q) && side == Opposite(taker.side)
    requires q != [] ==> !Better(side, q[0].order.price, price)
    ensures AllAt(Match(q, taker).fills, price) <==> StaysAt(q, taker, price)
    decreases |q|
  {
    if q == [] || taker.leavesQty == 0 {
    } else if !WithinLimit(taker, q[0].order.price) {
      NoneCrosses(side, q, taker);
    } else if q[0].order.price != price {
      NoneAt(side, q, price);
      assert Match(q, taker).fills[0].maker == q[0];
    } else {
      var qty, rest := Min(taker.leavesQty, q[0].order.leavesQty), q[1..];
      var after := Match(HitHead(q, qty), Take(taker, qty));
      assert Match(q, taker).fills == [Fill(q[0], qty)] + after.fills;
      if qty == q[0].order.leavesQty {
        TailSorted(side, q);
        assert rest != [] ==> Precedes(side, q[0], q[1]);
        OnePrice(side, rest, Take(taker, qty), price);
        RestStays(q, taker, price);
        AllAtCons(Fill(q[0], qty), after.fills, price);
      }
    }
  }

  /** A head of that price, filled whole, changes nothing of the condition. */
  lemma RestStays(q: seq<Resting>, taker: Order, price: U64)
    requires q != [] && q[0].order.price == price && q[0].order.leavesQty <= taker.leavesQty
    ensures StaysAt(q[1..], Take(taker, q[0].order.leavesQty), price) <==> StaysAt(q, taker, price)
  {
    var rest, taker' := q[1..], Take(taker, q[0].order.leavesQty);
    assert forall i :: 0 < i < |q| ==> rest[i - 1] == q[i];
    assert forall p: U64 :: WithinLimit(taker', p) <==> WithinLimit(taker, p);
    if forall i :: 0 <= i < |rest| && WithinLimit(taker', rest[i].order.price) ==> rest[i].order.price == price {
      forall i | 0 <= i < |q| && WithinLimit(taker, q[i].order.price)
        ensures q[i].order.price == price
      {
        assert i > 0 ==> WithinLimit(taker', rest[i - 1].order.price);
      }
    }
    if forall i :: 0 <= i < |q| && WithinLimit(taker, q[i].order.price) ==> q[i].order.price == price {
      forall i | 0 <= i < |rest| && WithinLimit(taker', rest[i].order.price)
        ensures rest[i].order.price == price
      {
        assert WithinLimit(taker, q[i + 1].order.price);
      }
    }
  }

  /** Does the request, met by this opposite queue, trade at all? */
  predicate Trades(q: seq<Resting>, taker: Order)
  {
    q != [] && taker.leavesQty > 0 && WithinLimit(taker, q[0].order.price)
  }

  /**
   avg_px is a copy of last_px. For an order that trades, avg_px times the filled quantity is the traded notional
   exactly when the best opposite level holds its whole quantity or nothing beyond that level is within its limit.
   */
  lemma AvgPxIsAverage(s: State, r: NewOrderSingle)
    requires Coherent(s) && Known(s, r.symbol)
    ensures var q, taker, fills := s.queues[Loc(r.symbol, Opposite(r.side))], MakeOrder(r), MatchFor(s, r).fills;
            && (Trades(q, taker) <==> fills != [])
            && (fills != [] ==>
                  && |AcceptOe(s, r)| == 2 && AcceptOe(s, r)[1].report.avgPx.Some?
                  && (AcceptOe(s, r)[1].report.avgPx.value * FilledQty(fills) == Notional(fills)
                      <==> StaysAt(q, taker, q[0].order.price)))
  {
    var opp, taker, fills := Loc(r.symbol, Opposite(r.side)), MakeOrder(r), MatchFor(s, r).fills;
    var q := s.queues[opp];
    CoherentLive(s, opp);
    if Trades(q, taker) {
      AvgPxAgainstFills(s, r);
      assert fills[0].maker == q[0];
      OnePrice(opp.side, q, taker, q[0].order.price);
    }
  }

  // ---------- replace ----------

  /** Equal but for the numbering of reports. */
  predicate SameBooks(a: State, b: State)
  {
    a == b.(nextExec := a.nextExec)
  }

  lemma AcceptIgnoresExec(s: State, t: State, r: NewOrderSingle)
    requires SameBooks(s, t) && Known(s, r.symbol) && Known(t, r.symbol)
    ensures SameBooks(Settle(s, r), Settle(t, r)) && AcceptMd(s, r) == AcceptMd(t, r)
  {
    hide Match, BestLevel, BestPrice;
    assert MatchFor(s, r) == MatchFor(t, r);
    assert Settle(s, r).queues == Settle(t, r).queues;
  }

  lemma NewOrderIgnoresExec(s: State, t: State, r: NewOrderSingle)
    requires SameBooks(s, t)
    ensures match (NewOrderStep(s, r), NewOrderStep(t, r))
            case (Ok(a), Ok(b)) => SameBooks(a.state, b.state) && a.md == b.md
            case (Err(a), Err(b)) => a == b
            case _ => false
  {
    hide Match, Settle, AcceptMd;
    if NewOrderStep(s, r).Ok? {
      AcceptIgnoresExec(s, t, r);
    }
  }

  /** The new order asks for what the replace asks for. */
  predicate SameTerms(n: NewOrderSingle, o: ReplaceOrder)
  {
    && n.clientId == o.clientId && n.clOrdId == o.clOrdId && n.securityId == o.securityId
    && n.symbol == o.symbol && n.exchange == o.exchange && n.side == o.side
    && n.ordType == o.ordType && n.timeInForce == o.timeInForce
    && n.orderQty == o.orderQty && n.price == o.price
  }

  /**
   A replace of a resting order under a free key is a cancel of it followed by a new order with the same terms: same
   books, index and market data, also when the new symbol is unknown. Only the lifecycle stream differs.
   */
  lemma ReplaceIsCancelThenNew(s: State, o: ReplaceOrder, clOrdId: U64, n: NewOrderSingle)
    requires Lookup(s, Key(o.clientId, o.origClOrdId)).Some? && Key(o.clientId, o.clOrdId) !in s.index
    requires SameTerms(n, o)
    ensures var both := Run(s, [Cancel(CancelOrder(o.clientId, clOrdId, o.origClOrdId)), New(n)]);
            && SameBooks(ReplaceStep(s, o).state, both.state)
            && ReplaceStep(s, o).md == both.md
  {
    assert n == Replacement(o);
    var cancel := Cancel(CancelOrder(o.clientId, clOrdId, o.origClOrdId));
    var slot := Lookup(s, Key(o.clientId, o.origClOrdId)).value;
    var (s1, md1) := Withdraw(s, slot);
    var s2 := Step(s, cancel).state;
    NewOrderIgnoresExec(s1, s2, n);
    RunSnoc(s, [cancel], New(n));
    assert [cancel] + [New(n)] == [cancel, New(n)];
    assert Run(s, [cancel]) == Step(s, cancel) by {
      assert [cancel][1..] == [];
      assert Step(s, cancel).md + [] == Step(s, cancel).md && Step(s, cancel).oe + [] == Step(s, cancel).oe;
    }
  }

  predicate Rejected(out: Output)
  {
    exists i :: 0 <= i < |out.oe| && out.oe[i].Reject?
  }

  /** A replace of a live order, under a free key, for an unknown symbol. */
  predicate LosesOriginal(s: State, r: Request)
  {
    && r.Replace?
    && Key(r.replace.clientId, r.replace.origClOrdId) in s.index
    && Key(r.replace.clientId, r.replace.clOrdId) !in s.index
    && !Known(s, r.replace.symbol)
  }

  /** Such a replace is rejected after the original is gone. */
  lemma LosesAndRejects(s: State, r: Request)
    requires Inv(s) && LosesOriginal(s, r)
    ensures Rejected(Step(s, r)) && Key(r.replace.clientId, r.replace.origClOrdId) !in Step(s, r).state.index
  {
    var o := r.replace;
    LookupMiss(s, Key(o.clientId, o.origClOrdId));
    var slot := Lookup(s, Key(o.clientId, o.origClOrdId)).value;
    var s1 := Withdraw(s, slot).0;
    assert Key(o.clientId, o.clOrdId) !in s1.index && !Known(s1, o.symbol);
    assert NewOrderStep(s1, Replacement(o)) == Err(UnknownSymbol);
    assert Step(s, r).oe == [] + [RejectFor(o.clientId, o.clOrdId, o.origClOrdId, UnknownSymbol)];
    assert Step(s, r).oe[0].Reject?;
  }

  /** Every other request that is rejected leaves the engine as it was. */
  lemma OthersUnchanged(s: State, r: Request)
    requires Inv(s) && Rejected(Step(s, r)) && !LosesOriginal(s, r)
    ensures Step(s, r).state == s
  {
    hide Coherent, Uncrossed, Match, Settle, AcceptMd, UpdateFor, BestPrice;
    match r
    case Replace(o) =>
      LookupMiss(s, Key(o.clientId, o.origClOrdId));
    case Cancel(c) =>
    case New(order) =>
    case Flush =>
  }

  /**
   A reject means that nothing changed, except for one family of replaces, all of which are rejected after a change.
   */
  lemma RejectLeavesUnchanged(s: State, r: Request)
    requires Inv(s)
    ensures (Rejected(Step(s, r)) ==> Step(s, r).state == s) <==> !LosesOriginal(s, r)
  {
    if LosesOriginal(s, r) {
      LosesAndRejects(s, r);
    } else if Rejected(Step(s, r)) {
      OthersUnchanged(s, r);
    }
  }

  /** A replace under its own id is a duplicate of itself. */
  lemma ReplaceOwnId(s: State, o: ReplaceOrder)
    requires Inv(s) && o.clOrdId == o.origClOrdId && Key(o.clientId, o.origClOrdId) in s.index
    ensures ReplaceStep(s, o) == Output(s, [], [RejectFor(o.clientId, o.clOrdId, o.origClOrdId, DuplicateOrder)])
  {
    LookupMiss(s, Key(o.clientId, o.origClOrdId));
  }

}
