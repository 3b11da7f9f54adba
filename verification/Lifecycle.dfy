/** The lifecycle stream of one order instance over a whole run, and how stale its last report may be. */
module Lifecycle {
  import opened Wrappers
  import opened Types
  import opened PriceTimeQueue
  import opened FlatEngine
  import opened FlatInvariant
  import opened Ledger
  import opened Priority

  // ---------- the streams of one instance ----------

  /** The reports about one instance, in order. */
  function About(oe: seq<OeEvent>, id: nat): seq<ExecutionReport>
  {
    if oe == [] then []
    else (if oe[0].Report? && oe[0].instance == id then [oe[0].report] else []) + About(oe[1..], id)
  }

  lemma {:induction false} AboutAppend(a: seq<OeEvent>, b: seq<OeEvent>, id: nat)
    ensures About(a + b, id) == About(a, id) + About(b, id)
    decreases |a|
  {
    if a == [] {
      assert a + b == b;
    } else {
      var head := if a[0].Report? && a[0].instance == id then [a[0].report] else [];
      assert (a + b)[0] == a[0] && (a + b)[1..] == a[1..] + b;
      AboutAppend(a[1..], b, id);
      assert head + (About(a[1..], id) + About(b, id)) == (head + About(a[1..], id)) + About(b, id);
    }
  }

  lemma {:induction false} AboutNothing(oe: seq<OeEvent>, id: nat)
    requires forall i :: 0 <= i < |oe| ==> !oe[i].Report?
    ensures About(oe, id) == []
    decreases |oe|
  {
    if oe != [] {
      assert !oe[0].Report?;
      AboutNothing(oe[1..], id);
    }
  }

  lemma AboutOne(e: OeEvent, id: nat)
    ensures About([e], id) == if e.Report? && e.instance == id then [e.report] else []
  {
    assert [e][1..] == [];
  }

  /** What an instance traded as the incoming order, and what as the resting one. */
  function AsTaker(md: seq<MdEvent>, id: nat): nat
  {
    if md == [] then 0
    else (if md[0].Trade? && md[0].taker == id then md[0].trade.quantity else 0) + AsTaker(md[1..], id)
  }

  function AsMaker(md: seq<MdEvent>, id: nat): nat
  {
    if md == [] then 0
    else (if md[0].Trade? && md[0].maker == id then md[0].trade.quantity else 0) + AsMaker(md[1..], id)
  }

  lemma {:induction false} BothRoles(md: seq<MdEvent>, id: nat)
    ensures Traded(md, id) == AsTaker(md, id) + AsMaker(md, id)
    decreases |md|
  {
    if md != [] {
      BothRoles(md[1..], id);
    }
  }

  lemma {:induction false} AsTakerAppend(a: seq<MdEvent>, b: seq<MdEvent>, id: nat)
    ensures AsTaker(a + b, id) == AsTaker(a, id) + AsTaker(b, id)
    decreases |a|
  {
    if a == [] {
      assert a + b == b;
    } else {
      assert (a + b)[0] == a[0] && (a + b)[1..] == a[1..] + b;
      AsTakerAppend(a[1..], b, id);
    }
  }

  predicate QuietMd(md: seq<MdEvent>)
  {
    forall i :: 0 <= i < |md| ==> !md[i].Trade?
  }

  predicate QuietOe(oe: seq<OeEvent>)
  {
    forall i :: 0 <= i < |oe| ==> !oe[i].Report?
  }

  lemma {:induction false} QuietTaker(md: seq<MdEvent>, id: nat)
    requires QuietMd(md)
    ensures AsTaker(md, id) == 0
    decreases |md|
  {
    if md != [] {
      assert !md[0].Trade?;
      QuietTaker(md[1..], id);
    }
  }

  /** No trade of nothing. */
  predicate Positive(md: seq<MdEvent>)
  {
    forall i :: 0 <= i < |md| && md[i].Trade? ==> md[i].trade.quantity > 0
  }

  lemma PositiveAppend(a: seq<MdEvent>, b: seq<MdEvent>)
    requires Positive(a) && QuietMd(b)
    ensures Positive(a + b)
  {
  }

  /** An instance traded nothing as a maker exactly when no trade names it as one. */
  lemma {:induction false} NeverHit(md: seq<MdEvent>, id: nat)
    requires Positive(md)
    ensures AsMaker(md, id) == 0 <==> forall p: nat :: !Hits(md, p, id)
    decreases |md|
  {
    if md != [] {
      var rest := md[1..];
      forall i | 0 <= i < |rest| && rest[i].Trade?
        ensures rest[i].trade.quantity > 0
      {
        assert md[i + 1] == rest[i];
      }
      NeverHit(rest, id);
      assert forall p: nat :: Hits(rest, p, id) <==> Hits(md, p + 1, id);
      if forall p: nat :: !Hits(md, p, id) {
        assert !Hits(md, 0, id);
        forall p: nat
          ensures !Hits(rest, p, id)
        {
          assert !Hits(md, p + 1, id);
        }
      }
      if AsMaker(md, id) == 0 {
        forall p: nat
          ensures !Hits(md, p, id)
        {
          assert p > 0 ==> Hits(md, p, id) == Hits(rest, p - 1, id);
          assert md[0].Trade? ==> md[0].trade.quantity > 0;
        }
      }
    }
  }

  // ---------- the shape ----------

  /** One acknowledgement, then at most one trade report, then at most one cancellation. */
  predicate WellOrdered(rs: seq<ExecutionReport>)
  {
    || rs == []
    || (rs[0].execType == ExecType.NewOrder
        && (|| |rs| == 1
            || (|rs| == 2 && rs[1].execType in {ExecType.Trade, ExecType.Canceled})
            || (|rs| == 3 && rs[1].execType == ExecType.Trade && rs[2].execType == ExecType.Canceled)))
  }

  predicate Open(rs: seq<ExecutionReport>)
  {
    rs != [] && rs[|rs| - 1].execType != ExecType.Canceled
  }

  /** The last report accounts for what the instance traded on arrival, and for nothing else. */
  predicate Balances(md: seq<MdEvent>, rs: seq<ExecutionReport>, id: nat)
  {
    Open(rs) ==> rs[|rs| - 1].leavesQty + AsTaker(md, id) == rs[|rs| - 1].orderQty
  }

  predicate InstanceTold(nextId: nat, md: seq<MdEvent>, oe: seq<OeEvent>, id: nat)
  {
    && WellOrdered(About(oe, id))
    && (About(oe, id) == [] <==> nextId <= id)
    && (nextId <= id ==> AsTaker(md, id) == 0)
    && Balances(md, About(oe, id), id)
  }

  predicate RestingTold(oe: seq<OeEvent>, x: Resting)
  {
    var rs := About(oe, x.id);
    Open(rs) && rs[|rs| - 1].orderQty == x.order.orderQty
  }

  /** The streams so far tell of every instance what they should. */
  ghost predicate Chronicle(s: State, md: seq<MdEvent>, oe: seq<OeEvent>)
  {
    && Positive(md)
    && (forall id: nat {:trigger InstanceTold(s.nextId, md, oe, id)} :: InstanceTold(s.nextId, md, oe, id))
    && (forall loc, i {:trigger RestingTold(oe, s.queues[loc][i])} ::
          loc in s.queues && 0 <= i < |s.queues[loc]| ==> RestingTold(oe, s.queues[loc][i]))
  }

  // ---------- steps that report nothing ----------

  lemma QuietChronicle(s: State, s': State, md: seq<MdEvent>, oe: seq<OeEvent>, md': seq<MdEvent>, oe': seq<OeEvent>)
    requires Chronicle(s, md, oe) && s'.nextId == s.nextId && StillResting(s, s') && QuietMd(md') && QuietOe(oe')
    ensures Chronicle(s', md + md', oe + oe')
  {
    forall id: nat
      ensures About(oe + oe', id) == About(oe, id) && AsTaker(md + md', id) == AsTaker(md, id)
    {
      AboutAppend(oe, oe', id);
      AboutNothing(oe', id);
      assert About(oe, id) + [] == About(oe, id);
      AsTakerAppend(md, md', id);
      QuietTaker(md', id);
    }
    forall id: nat
      ensures InstanceTold(s'.nextId, md + md', oe + oe', id)
    {
      assert InstanceTold(s.nextId, md, oe, id);
    }
    forall loc, i | loc in s'.queues && 0 <= i < |s'.queues[loc]|
      ensures RestingTold(oe + oe', s'.queues[loc][i])
    {
      assert s'.queues[loc][i] in s'.queues[loc];
      var j :| 0 <= j < |s.queues[loc]| && s.queues[loc][j] == s'.queues[loc][i];
      assert RestingTold(oe, s.queues[loc][j]);
    }
  }

  lemma WithdrawChronicle(s: State, slot: Slot, md: seq<MdEvent>, oe: seq<OeEvent>)
    requires Chronicle(s, md, oe) && slot.loc in s.queues && slot.pos < |s.queues[slot.loc]|
    ensures Chronicle(Withdraw(s, slot).0, md + Withdraw(s, slot).1, oe)
  {
    QuietChronicle(s, Withdraw(s, slot).0, md, oe, Withdraw(s, slot).1, []);
    assert oe + [] == oe;
  }

  // ---------- cancel ----------

  /** A cancellation after the reports of an open instance closes it, and says nothing of another. */
  lemma CancelTold(s: State, oe: seq<OeEvent>, md: seq<MdEvent>, x: Resting, e: OeEvent, id: nat)
    requires InstanceTold(s.nextId, md, oe, id) && RestingTold(oe, x)
    requires e.Report? && e.instance == x.id && e.report.execType == ExecType.Canceled
    ensures InstanceTold(s.nextId, md, oe + [e], id)
    ensures id != x.id ==> About(oe + [e], id) == About(oe, id)
  {
    hide AsTaker;
    AboutAppend(oe, [e], id);
    AboutOne(e, id);
    assert About(oe, id) + [] == About(oe, id);
  }

  /** A cancelled instance no longer rests, so its cancellation is the last that is said of it. */
  lemma CancelChronicle(s: State, c: CancelOrder, md: seq<MdEvent>, oe: seq<OeEvent>)
    requires Inv(s) && Chronicle(s, md, oe)
    ensures Chronicle(CancelStep(s, c).state, md + CancelStep(s, c).md, oe + CancelStep(s, c).oe)
  {
    hide Coherent, Uncrossed, UpdateFor, InstanceTold;
    var found, out := Lookup(s, Key(c.clientId, c.origClOrdId)), CancelStep(s, c);
    if found.None? {
      QuietChronicle(s, s, md, oe, [], out.oe);
    } else {
      var slot := found.value;
      var x, s1 := s.queues[slot.loc][slot.pos], Withdraw(s, slot).0;
      WithdrawChronicle(s, slot, md, oe);
      assert RestingTold(oe, x);
      forall id: nat
        ensures InstanceTold(out.state.nextId, md + out.md, oe + out.oe, id)
        ensures id != x.id ==> About(oe + out.oe, id) == About(oe, id)
      {
        CancelTold(s1, oe, md + out.md, x, out.oe[0], id);
      }
      forall loc, i | loc in s1.queues && 0 <= i < |s1.queues[loc]|
        ensures RestingTold(oe + out.oe, s1.queues[loc][i])
      {
        assert RestingTold(oe, s1.queues[loc][i]);
        RemainsOther(s, slot.loc, slot.pos, loc, i);
      }
    }
  }

  // ---------- new order ----------

  lemma {:induction false} TradesTaker(taker: Order, takerId: nat, fills: seq<Fill>, nextTrade: U64, id: nat)
    requires forall i :: 0 <= i < |fills| ==> fills[i].qty > 0
    ensures var md := TradesFor(taker, takerId, fills, nextTrade);
            Positive(md) && AsTaker(md, id) == if id == takerId then FilledQty(fills) else 0
    decreases |fills|
  {
    if fills != [] {
      TradesTail(taker, takerId, fills, nextTrade);
      TradesTaker(taker, takerId, fills[1..], Succ(nextTrade), id);
      var md := TradesFor(taker, takerId, fills, nextTrade);
      forall i | 0 <= i < |md| && md[i].Trade?
        ensures md[i].trade.quantity > 0
      {
        assert md[i].trade.quantity == fills[i].qty;
      }
    }
  }

  /** Every fill of a match is of something, and together they are what the incoming order lost. */
  lemma MatchFills(s: State, r: NewOrderSingle)
    requires Inv(s) && Known(s, r.symbol)
    ensures var m := MatchFor(s, r);
            && (forall i :: 0 <= i < |m.fills| ==> m.fills[i].qty > 0)
            && m.taker.leavesQty + FilledQty(m.fills) == r.orderQty
  {
    hide Match;
    var opp := Loc(r.symbol, Opposite(r.side));
    CoherentLive(s, opp);
    MatchIsMatch(s.queues[opp], MakeOrder(r));
  }

  lemma AfterTradesQuiet(s: State, r: NewOrderSingle)
    requires Known(s, r.symbol)
    ensures QuietMd(AfterTrades(s, r))
  {
    hide Match;
  }

  /** Only the incoming instance trades as a taker. */
  lemma AcceptTaker(s: State, r: NewOrderSingle, id: nat)
    requires Inv(s) && Known(s, r.symbol)
    ensures Positive(AcceptMd(s, r))
    ensures AsTaker(AcceptMd(s, r), id) == if id == s.nextId then r.orderQty - MatchFor(s, r).taker.leavesQty else 0
  {
    hide MatchFor, AfterTrades, TradesFor, AsTaker, Positive, QuietMd, Inv, FilledQty;
    var fills := MatchFor(s, r).fills;
    var trades, after := TradesFor(MakeOrder(r), s.nextId, fills, s.nextTrade), AfterTrades(s, r);
    MatchFills(s, r);
    TradesTaker(MakeOrder(r), s.nextId, fills, s.nextTrade, id);
    AsTakerAppend(trades, after, id);
    AfterTradesQuiet(s, r);
    QuietTaker(after, id);
    PositiveAppend(trades, after);
  }

  /** Its acknowledgement, and its trade report if it traded; nobody else's report. */
  lemma AcceptAbout(s: State, r: NewOrderSingle, id: nat)
    requires Known(s, r.symbol)
    ensures var rs, m := About(AcceptOe(s, r), id), MatchFor(s, r);
            if id != s.nextId then rs == []
            else
              && WellOrdered(rs) && Open(rs)
              && rs[|rs| - 1].orderQty == r.orderQty
              && rs[|rs| - 1].leavesQty == if m.fills == [] then r.orderQty else m.taker.leavesQty
  {
    hide Match;
    var oe := AcceptOe(s, r);
    AboutOne(oe[0], id);
    if |oe| == 2 {
      AboutOne(oe[1], id);
      AboutAppend([oe[0]], [oe[1]], id);
      assert oe == [oe[0]] + [oe[1]];
    } else {
      assert oe == [oe[0]];
    }
  }

  /** After an acceptance every resting order rested before, or is what remains of the incoming one. */
  lemma AcceptedRests(s: State, r: NewOrderSingle, loc: Loc, i: nat)
    requires Inv(s) && Known(s, r.symbol) && loc in Accept(s, r).state.queues && i < |Accept(s, r).state.queues[loc]|
    ensures var x := Accept(s, r).state.queues[loc][i];
            if x.id < s.nextId then loc in s.queues && Rested(s.queues[loc], x)
            else loc == Loc(r.symbol, r.side) && x == Resting(s.nextId, MatchFor(s, r).taker)
  {
    hide Match, AcceptMd, AcceptOe;
    var own, opp, m := Loc(r.symbol, r.side), Loc(r.symbol, Opposite(r.side)), MatchFor(s, r);
    var s1, s2 := Consume(s, opp, m), Settle(s, r);
    SettleDescends(s, r);
    ConsumeCoherent(s, opp, MakeOrder(r));
    CoherentLive(s1, loc);
    if Rests(s, r) && loc == own {
      var x := Resting(s.nextId, m.taker);
      var at := InsertSplits(r.side, s1.queues[own], x);
      assert i != at ==> s2.queues[loc][i] == s1.queues[own][if i < at then i else i - 1];
    }
  }

  lemma AcceptTold(s: State, r: NewOrderSingle, md: seq<MdEvent>, oe: seq<OeEvent>, id: nat)
    requires Inv(s) && Known(s, r.symbol) && InstanceTold(s.nextId, md, oe, id)
    ensures InstanceTold(s.nextId + 1, md + AcceptMd(s, r), oe + AcceptOe(s, r), id)
    ensures About(oe + AcceptOe(s, r), id) == if id == s.nextId then About(AcceptOe(s, r), id) else About(oe, id)
  {
    hide AcceptMd, AcceptOe, MatchFor, About, AsTaker, Inv, Positive;
    AboutAppend(oe, AcceptOe(s, r), id);
    AcceptAbout(s, r, id);
    AsTakerAppend(md, AcceptMd(s, r), id);
    AcceptTaker(s, r, id);
    NothingTraded(s, r);
    assert About(oe, id) + [] == About(oe, id) && [] + About(AcceptOe(s, r), id) == About(AcceptOe(s, r), id);
  }

  lemma AcceptChronicle(s: State, r: NewOrderSingle, md: seq<MdEvent>, oe: seq<OeEvent>)
    requires Inv(s) && Known(s, r.symbol) && Chronicle(s, md, oe)
    ensures Chronicle(Accept(s, r).state, md + Accept(s, r).md, oe + Accept(s, r).oe)
  {
    hide Match, AcceptMd, AcceptOe, Settle, InstanceTold, About, Inv;
    var out := Accept(s, r);
    AcceptTaker(s, r, s.nextId);
    forall id: nat
      ensures InstanceTold(out.state.nextId, md + out.md, oe + out.oe, id)
      ensures About(oe + out.oe, id) == if id == s.nextId then About(out.oe, id) else About(oe, id)
    {
      assert InstanceTold(s.nextId, md, oe, id);
      AcceptTold(s, r, md, oe, id);
    }
    forall loc, i | loc in out.state.queues && 0 <= i < |out.state.queues[loc]|
      ensures RestingTold(oe + out.oe, out.state.queues[loc][i])
    {
      var x := out.state.queues[loc][i];
      AcceptedRests(s, r, loc, i);
      AcceptAbout(s, r, x.id);
      if x.id < s.nextId {
        var j :| 0 <= j < |s.queues[loc]| && SameOrder(x, s.queues[loc][j]);
        assert RestingTold(oe, s.queues[loc][j]);
      }
    }
    assert Positive(md + out.md);
  }

  /** Without a fill the incoming order keeps its whole quantity. */
  lemma NothingTraded(s: State, r: NewOrderSingle)
    requires Known(s, r.symbol) && Inv(s)
    ensures MatchFor(s, r).fills == [] ==> MatchFor(s, r).taker.leavesQty == r.orderQty
  {
    CoherentLive(s, Loc(r.symbol, Opposite(r.side)));
    MatchIsMatch(s.queues[Loc(r.symbol, Opposite(r.side))], MakeOrder(r));
  }

  lemma NewOrderChronicle(s: State, r: NewOrderSingle, md: seq<MdEvent>, oe: seq<OeEvent>)
    requires Inv(s) && Chronicle(s, md, oe)
    ensures match NewOrderStep(s, r)
            case Ok(out) => Chronicle(out.state, md + out.md, oe + out.oe)
            case Err(_) => true
  {
    hide Accept, Chronicle;
    if NewOrderStep(s, r).Ok? {
      AcceptChronicle(s, r, md, oe);
    }
  }

  // ---------- runs ----------

  lemma ReplaceTailChronicle(s: State, o: ReplaceOrder, md: seq<MdEvent>, oe: seq<OeEvent>)
    requires Inv(s) && Chronicle(s, md, oe)
    ensures Chronicle(ReplaceTail(s, o).state, md + ReplaceTail(s, o).md, oe + ReplaceTail(s, o).oe)
  {
    hide Chronicle, NewOrderStep;
    NewOrderChronicle(s, Replacement(o), md, oe);
    if NewOrderStep(s, Replacement(o)).Err? {
      QuietChronicle(s, s, md, oe, [], ReplaceTail(s, o).oe);
    }
  }

  lemma ReplaceChronicle(s: State, o: ReplaceOrder, md: seq<MdEvent>, oe: seq<OeEvent>)
    requires Inv(s) && Chronicle(s, md, oe)
    ensures Chronicle(ReplaceStep(s, o).state, md + ReplaceStep(s, o).md, oe + ReplaceStep(s, o).oe)
  {
    hide Chronicle, ReplaceTail;
    var found := Lookup(s, Key(o.clientId, o.origClOrdId));
    if found.None? || Key(o.clientId, o.clOrdId) in s.index {
      QuietChronicle(s, s, md, oe, [], ReplaceStep(s, o).oe);
    } else {
      var (s1, md1) := Withdraw(s, found.value);
      var tail := ReplaceTail(s1, o);
      WithdrawInv(s, found.value);
      WithdrawChronicle(s, found.value, md, oe);
      ReplaceTailChronicle(s1, o, md + md1, oe);
      assert (md + md1) + tail.md == md + (md1 + tail.md);
      assert oe + ([] + tail.oe) == oe + tail.oe;
    }
  }

  lemma StepChronicle(s: State, r: Request, md: seq<MdEvent>, oe: seq<OeEvent>)
    requires Inv(s) && Chronicle(s, md, oe)
    ensures Chronicle(Step(s, r).state, md + Step(s, r).md, oe + Step(s, r).oe)
  {
    hide Chronicle, NewOrderStep, ReplaceStep, CancelStep;
    match r
    case New(order) =>
      NewOrderChronicle(s, order, md, oe);
      QuietChronicle(s, s, md, oe, [], []);
    case Replace(o) => ReplaceChronicle(s, o, md, oe);
    case Cancel(c) => CancelChronicle(s, c, md, oe);
    case Flush => QuietChronicle(s, FlushStep(s), md, oe, [], []);
  }

  lemma {:induction false} RunChronicle(s: State, rs: seq<Request>, md: seq<MdEvent>, oe: seq<OeEvent>)
    requires Inv(s) && Chronicle(s, md, oe)
    ensures Chronicle(Run(s, rs).state, md + Run(s, rs).md, oe + Run(s, rs).oe)
    decreases |rs|
  {
    hide Chronicle, Step, Inv;
    if rs == [] {
      assert md + [] == md && oe + [] == oe;
    } else {
      var first := Step(s, rs[0]);
      var rest := Run(first.state, rs[1..]);
      StepInv(s, rs[0]);
      StepChronicle(s, rs[0], md, oe);
      RunChronicle(first.state, rs[1..], md + first.md, oe + first.oe);
      assert (md + first.md) + rest.md == md + (first.md + rest.md);
      assert (oe + first.oe) + rest.oe == oe + (first.oe + rest.oe);
    }
  }

  lemma StartChronicle(symbols: set<Symbol>, rs: seq<Request>)
    ensures var out := Run(Initial(symbols), rs); Chronicle(out.state, out.md, out.oe)
  {
    hide Run;
    var s0, out := Initial(symbols), Run(Initial(symbols), rs);
    InitialInv(symbols);
    assert Chronicle(s0, [], []);
    RunChronicle(s0, rs, [], []);
    assert [] + out.md == out.md && [] + out.oe == out.oe;
  }

  /**
   From the start of any run: an instance is told of exactly when it was accepted, and then by one acknowledgement, at
   most one trade report after it, at most one cancellation after that, and nothing more.
   */
  lemma LifeOfInstance(symbols: set<Symbol>, rs: seq<Request>, id: nat)
    ensures var out := Run(Initial(symbols), rs);
            WellOrdered(About(out.oe, id)) && (About(out.oe, id) == [] <==> out.state.nextId <= id)
  {
    var out := Run(Initial(symbols), rs);
    StartChronicle(symbols, rs);
    assert InstanceTold(out.state.nextId, out.md, out.oe, id);
  }

  /**
   A maker's fill emits no report, so the leaves last reported for a resting order exceed its true leaves by what it
   traded while resting: they are true exactly when no trade of the run hit it.
   */
  lemma LastReported(symbols: set<Symbol>, rs: seq<Request>, loc: Loc, i: nat)
    requires var s := Run(Initial(symbols), rs).state; loc in s.queues && i < |s.queues[loc]|
    ensures var out := Run(Initial(symbols), rs);
            var x := out.state.queues[loc][i];
            var told := About(out.oe, x.id);
            && Open(told)
            && told[|told| - 1].leavesQty == x.order.leavesQty + AsMaker(out.md, x.id)
            && (told[|told| - 1].leavesQty == x.order.leavesQty <==> forall p: nat :: !Hits(out.md, p, x.id))
  {
    hide Run;
    var s0, out := Initial(symbols), Run(Initial(symbols), rs);
    var x := out.state.queues[loc][i];
    StartChronicle(symbols, rs);
    assert InstanceTold(out.state.nextId, out.md, out.oe, x.id) && RestingTold(out.oe, x);
    InitialInv(symbols);
    RunAccounted(s0, rs, []);
    assert [] + out.md == out.md;
    assert OrderAccounted(out.md, x);
    BothRoles(out.md, x.id);
    NeverHit(out.md, x.id);
  }

}
