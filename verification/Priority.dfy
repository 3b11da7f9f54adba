/** Price-time priority across whole runs. */
module Priority {
  import opened Wrappers
  import opened Types
  import opened PriceTimeQueue
  import opened FlatEngine
  import opened FlatInvariant
  import opened Ledger

  /** The same order at two moments: only its leaves may have shrunk. */
  predicate SameOrder(now: Resting, then_: Resting)
  {
    && now.id == then_.id
    && now.order == then_.order.(leavesQty := now.order.leavesQty)
    && now.order.leavesQty <= then_.order.leavesQty
  }

  /** x already rested on this queue. */
  ghost predicate Rested(q: seq<Resting>, x: Resting)
  {
    exists j :: 0 <= j < |q| && SameOrder(x, q[j])
  }

  /** Every order of s' that is not newer than s rested in s, in the same place and on the same terms. */
  ghost predicate Descends(s: State, s': State)
  {
    forall loc, k :: loc in s'.queues && 0 <= k < |s'.queues[loc]| && s'.queues[loc][k].id < s.nextId ==>
                       loc in s.queues && Rested(s.queues[loc], s'.queues[loc][k])
  }

  lemma RestedTrans(q: seq<Resting>, q': seq<Resting>, x: Resting, j: nat)
    requires j < |q'| && SameOrder(x, q'[j]) && Rested(q, q'[j])
    ensures Rested(q, x)
  {
    var i :| 0 <= i < |q| && SameOrder(q'[j], q[i]);
    assert SameOrder(x, q[i]);
  }

  lemma DescendsTrans(s: State, t: State, u: State)
    requires Descends(s, t) && Descends(t, u) && s.nextId <= t.nextId
    ensures Descends(s, u)
  {
    forall loc, k | loc in u.queues && 0 <= k < |u.queues[loc]| && u.queues[loc][k].id < s.nextId
      ensures loc in s.queues && Rested(s.queues[loc], u.queues[loc][k])
    {
      assert Rested(t.queues[loc], u.queues[loc][k]);
      var j :| 0 <= j < |t.queues[loc]| && SameOrder(u.queues[loc][k], t.queues[loc][j]);
      RestedTrans(s.queues[loc], t.queues[loc], u.queues[loc][k], j);
    }
  }

  lemma DescendsKeeping(s: State, s': State)
    requires StillResting(s, s')
    ensures Descends(s, s')
  {
    forall loc, k | loc in s'.queues && 0 <= k < |s'.queues[loc]|
      ensures loc in s.queues && Rested(s.queues[loc], s'.queues[loc][k])
    {
      assert s'.queues[loc][k] in s'.queues[loc];
      var j :| 0 <= j < |s.queues[loc]| && s.queues[loc][j] == s'.queues[loc][k];
      assert SameOrder(s'.queues[loc][k], s.queues[loc][j]);
    }
  }

  lemma SurvivorRested(q: seq<Resting>, taker: Order, k: nat)
    requires Live(q) && Distinct(q) && k < |Match(q, taker).queue|
    ensures Rested(q, Match(q, taker).queue[k])
  {
    SurvivorFills(q, taker, k);
    assert SameOrder(Match(q, taker).queue[k], q[|q| - |Match(q, taker).queue| + k]);
  }

  lemma ConsumeDescends(s: State, opp: Loc, taker: Order)
    requires Coherent(s) && opp in s.queues
    ensures Descends(s, Consume(s, opp, Match(s.queues[opp], taker)))
  {
    var s' := Consume(s, opp, Match(s.queues[opp], taker));
    CoherentLive(s, opp);
    forall loc, k | loc in s'.queues && 0 <= k < |s'.queues[loc]|
      ensures loc in s.queues && Rested(s.queues[loc], s'.queues[loc][k])
    {
      if loc == opp {
        SurvivorRested(s.queues[opp], taker, k);
      } else {
        assert SameOrder(s'.queues[loc][k], s.queues[loc][k]);
      }
    }
  }

  lemma PlaceDescends(s: State, x: Resting)
    requires LocOf(x.order) in s.queues && x.id == s.nextId
    ensures Descends(s, Place(s, x))
  {
    var s', own := Place(s, x), LocOf(x.order);
    forall loc, k | loc in s'.queues && 0 <= k < |s'.queues[loc]| && s'.queues[loc][k].id < s.nextId
      ensures loc in s.queues && Rested(s.queues[loc], s'.queues[loc][k])
    {
      var j: nat := k;
      if loc == own {
        var at := InsertSplits(own.side, s.queues[own], x);
        j := if k < at then k else k - 1;
      }
      assert SameOrder(s'.queues[loc][k], s.queues[loc][j]);
    }
  }

  lemma SettleDescends(s: State, r: NewOrderSingle)
    requires Inv(s) && Known(s, r.symbol)
    ensures Descends(s, Settle(s, r))
  {
    var opp := Loc(r.symbol, Opposite(r.side));
    var s1 := Consume(s, opp, MatchFor(s, r));
    ConsumeDescends(s, opp, MakeOrder(r));
    if Rests(s, r) {
      PlaceDescends(s1, Resting(s.nextId, MatchFor(s, r).taker));
      DescendsTrans(s, s1, Settle(s, r));
    }
  }

  lemma NewOrderDescends(s: State, r: NewOrderSingle)
    requires Inv(s)
    ensures match NewOrderStep(s, r)
            case Ok(out) => Descends(s, out.state) && s.nextId <= out.state.nextId
            case Err(_) => true
  {
    if NewOrderStep(s, r).Ok? {
      SettleDescends(s, r);
      DescendsKeeping(Settle(s, r), Accept(s, r).state);
      DescendsTrans(s, Settle(s, r), Accept(s, r).state);
    }
  }

  lemma ReplaceTailDescends(s: State, o: ReplaceOrder)
    requires Inv(s)
    ensures Descends(s, ReplaceTail(s, o).state) && s.nextId <= ReplaceTail(s, o).state.nextId
  {
    DescendsKeeping(s, s);
    NewOrderDescends(s, Replacement(o));
  }

  lemma WithdrawDescends(s: State, slot: Slot)
    requires slot.loc in s.queues && slot.pos < |s.queues[slot.loc]|
    ensures Descends(s, Withdraw(s, slot).0) && Withdraw(s, slot).0.nextId == s.nextId
  {
    DescendsKeeping(s, Withdraw(s, slot).0);
  }

  lemma ReplaceDescends(s: State, o: ReplaceOrder)
    requires Inv(s)
    ensures Descends(s, ReplaceStep(s, o).state) && s.nextId <= ReplaceStep(s, o).state.nextId
  {
    var slot := Lookup(s, Key(o.clientId, o.origClOrdId));
    if slot.None? || Key(o.clientId, o.clOrdId) in s.index {
      DescendsKeeping(s, s);
    } else {
      var s1 := Withdraw(s, slot.value).0;
      WithdrawInv(s, slot.value);
      WithdrawDescends(s, slot.value);
      ReplaceTailDescends(s1, o);
      DescendsTrans(s, s1, ReplaceTail(s1, o).state);
    }
  }

  lemma CancelDescends(s: State, c: CancelOrder)
    ensures Descends(s, CancelStep(s, c).state) && CancelStep(s, c).state.nextId == s.nextId
  {
    DescendsKeeping(s, CancelStep(s, c).state);
  }

  lemma FlushDescends(s: State)
    ensures Descends(s, FlushStep(s)) && FlushStep(s).nextId == s.nextId
  {
    DescendsKeeping(s, FlushStep(s));
  }

  lemma StepDescends(s: State, r: Request)
    requires Inv(s)
    ensures Descends(s, Step(s, r).state) && s.nextId <= Step(s, r).state.nextId
  {
    match r
    case New(order) =>
      DescendsKeeping(s, s);
      NewOrderDescends(s, order);
    case Replace(o) => ReplaceDescends(s, o);
    case Cancel(c) => CancelDescends(s, c);
    case Flush => FlushDescends(s);
  }

  lemma {:induction false} RunDescends(s: State, rs: seq<Request>)
    requires Inv(s)
    ensures Descends(s, Run(s, rs).state) && s.nextId <= Run(s, rs).state.nextId
    decreases |rs|
  {
    if rs == [] {
      DescendsKeeping(s, s);
    } else {
      var s1 := Step(s, rs[0]).state;
      StepInv(s, rs[0]);
      StepDescends(s, rs[0]);
      RunDescends(s1, rs[1..]);
      DescendsTrans(s, s1, Run(s1, rs[1..]).state);
    }
  }

  // ---------- within one request ----------

  predicate Hits(md: seq<MdEvent>, p: nat, id: nat)
  {
    p < |md| && md[p].Trade? && md[p].maker == id
  }

  lemma FillsInOrder(q: seq<Resting>, taker: Order, p: nat)
    requires Live(q) && p < |Match(q, taker).fills|
    ensures p < |q| && Match(q, taker).fills[p].maker == q[p]
    ensures forall i :: 0 <= i < p ==> Match(q, taker).fills[i] == Fill(q[i], q[i].order.leavesQty)
  {
    MatchIsMatch(q, taker);
    forall i | 0 <= i < p
      ensures Match(q, taker).fills[i] == Fill(q[i], q[i].order.leavesQty)
    {
      assert Released(Match(q, taker).fills[i]);
    }
  }

  lemma TradesPrefix(taker: Order, takerId: nat, fills: seq<Fill>, nextTrade: U64, p: nat)
    requires p <= |fills|
    ensures TradesFor(taker, takerId, fills, nextTrade)[..p] == TradesFor(taker, takerId, fills[..p], nextTrade)
  {
  }

  /** The first p trades filled the first p orders of the queue to the end, as their owners' accounts show. */
  lemma PrefixTraded(q: seq<Resting>, taker: Order, takerId: nat, nextTrade: U64, p: nat, i: nat)
    requires Live(q) && i < p < |Match(q, taker).fills|
    requires Distinct(q)
    requires i < |q| ==> q[i].id != takerId
    ensures i < |q|
    ensures Traded(TradesFor(taker, takerId, Match(q, taker).fills, nextTrade)[..p], q[i].id) == q[i].order.leavesQty
  {
    var fills := Match(q, taker).fills;
    FillsInOrder(q, taker, p);
    TradesPrefix(taker, takerId, fills, nextTrade, p);
    TradesMean(taker, takerId, fills[..p], nextTrade, q[i].id);
    forall j, k | 0 <= j < k < p
      ensures fills[..p][j].maker.id != fills[..p][k].maker.id
    {
      assert fills[j].maker == q[j] && fills[k].maker == q[k];
      DistinctAt(q, j, k);
    }
    FilledOfOne(fills[..p], i);
  }

  lemma TradeIsEarly(s: State, r: NewOrderSingle, p: nat)
    requires Known(s, r.symbol) && p < |AcceptMd(s, r)| && AcceptMd(s, r)[p].Trade?
    ensures var trades := TradesFor(MakeOrder(r), s.nextId, MatchFor(s, r).fills, s.nextTrade);
            && p < |trades| == |MatchFor(s, r).fills|
            && AcceptMd(s, r)[p] == trades[p] && AcceptMd(s, r)[..p] == trades[..p]
  {
  }

  /** In a match the p-th trade hits the p-th order of the queue, after every order before it was filled to the end. */
  lemma MatchServes(q: seq<Resting>, taker: Order, takerId: nat, nextTrade: U64, p: nat)
    requires Live(q) && p < |Match(q, taker).fills|
    requires Distinct(q)
    requires forall j :: 0 <= j < |q| ==> q[j].id != takerId
    ensures p < |q| && TradesFor(taker, takerId, Match(q, taker).fills, nextTrade)[p].maker == q[p].id
    ensures forall i :: 0 <= i < p ==>
              Traded(TradesFor(taker, takerId, Match(q, taker).fills, nextTrade)[..p], q[i].id) == q[i].order.leavesQty
  {
    FillsInOrder(q, taker, p);
    forall i | 0 <= i < p
      ensures Traded(TradesFor(taker, takerId, Match(q, taker).fills, nextTrade)[..p], q[i].id) == q[i].order.leavesQty
    {
      PrefixTraded(q, taker, takerId, nextTrade, p, i);
    }
  }

  lemma AcceptServes(s: State, r: NewOrderSingle, p: nat, id: nat)
    requires Coherent(s) && Known(s, r.symbol) && Hits(AcceptMd(s, r), p, id)
    ensures var q := s.queues[Loc(r.symbol, Opposite(r.side))];
            && p < |q| && q[p].id == id
            && forall i :: 0 <= i < p ==> Traded(AcceptMd(s, r)[..p], q[i].id) == q[i].order.leavesQty
  {
    var opp := Loc(r.symbol, Opposite(r.side));
    CoherentLive(s, opp);
    TradeIsEarly(s, r, p);
    MatchServes(s.queues[opp], MakeOrder(r), s.nextId, s.nextTrade, p);
  }

  /** Is this the order that the request itself takes out before it matches? */
  predicate TakesOut(r: Request, key: Key)
  {
    r.Replace? && key == Key(r.replace.clientId, r.replace.origClOrdId)
  }

  /** Whatever rests ahead of instance id was filled to the end by these messages, or is what the request takes out. */
  ghost predicate ServedInOrder(s: State, r: Request, md: seq<MdEvent>, id: nat)
  {
    forall loc, i, j :: loc in s.queues && 0 <= i < |s.queues[loc]| && 0 <= j < |s.queues[loc]|
                        && s.queues[loc][j].id == id && Precedes(loc.side, s.queues[loc][i], s.queues[loc][j]) ==>
                          || Traded(md, s.queues[loc][i].id) == s.queues[loc][i].order.leavesQty
                          || TakesOut(r, KeyOf(s.queues[loc][i].order))
  }

  lemma SortedPosition(side: Side, q: seq<Resting>, i: nat, j: nat)
    requires Sorted(side, q) && i < |q| && j < |q| && Precedes(side, q[i], q[j])
    ensures i < j
  {
    assert j < i ==> Precedes(side, q[j], q[i]);
  }

  lemma NewServes(s: State, r: NewOrderSingle, p: nat, id: nat)
    requires Inv(s) && Known(s, r.symbol) && Hits(AcceptMd(s, r), p, id)
    ensures ServedInOrder(s, New(r), AcceptMd(s, r)[..p], id)
  {
    var opp := Loc(r.symbol, Opposite(r.side));
    AcceptServes(s, r, p, id);
    forall loc, i, j | loc in s.queues && 0 <= i < |s.queues[loc]| && 0 <= j < |s.queues[loc]|
                       && s.queues[loc][j].id == id && Precedes(loc.side, s.queues[loc][i], s.queues[loc][j])
      ensures Traded(AcceptMd(s, r)[..p], s.queues[loc][i].id) == s.queues[loc][i].order.leavesQty
    {
      SameInstance(s, loc, j, opp, p);
      CoherentLive(s, loc);
      SortedPosition(loc.side, s.queues[loc], i, j);
    }
  }

  /** Where an order of the remaining queue stood before position pos was removed. */
  function Before(pos: nat, k: nat): nat
  {
    if pos <= k then k + 1 else k
  }

  function After(pos: nat, k: nat): nat
    requires k != pos
  {
    if pos < k then k - 1 else k
  }

  /** A withdrawal before the match changes the order of service only for the order withdrawn. */
  lemma WithdrawServes(s: State, loc: Loc, pos: nat, r: Request, r': Request, quiet: seq<MdEvent>, md: seq<MdEvent>,
      id: nat)
    requires loc in s.queues && pos < |s.queues[loc]| && s.queues[loc][pos].id != id
    requires TakesOut(r, KeyOf(s.queues[loc][pos].order)) && !r'.Replace?
    requires ServedInOrder(Remove(s, loc, pos), r', md, id)
    requires forall i :: 0 <= i < |quiet| ==> !quiet[i].Trade?
    ensures ServedInOrder(s, r, quiet + md, id)
  {
    var s1 := Remove(s, loc, pos);
    forall l, i, j | l in s.queues && 0 <= i < |s.queues[l]| && 0 <= j < |s.queues[l]|
                     && s.queues[l][j].id == id && Precedes(l.side, s.queues[l][i], s.queues[l][j])
                     && !TakesOut(r, KeyOf(s.queues[l][i].order))
      ensures Traded(quiet + md, s.queues[l][i].id) == s.queues[l][i].order.leavesQty
    {
      var i' := if l == loc then After(pos, i) else i;
      var j' := if l == loc then After(pos, j) else j;
      assert s1.queues[l][i'] == s.queues[l][i] && s1.queues[l][j'] == s.queues[l][j];
      TradedAppend(quiet, md, s.queues[l][i].id);
      NoTrades(quiet, s.queues[l][i].id);
    }
  }

  /** What remains after a withdrawal is not the order withdrawn. */
  lemma RemainsOther(s: State, loc: Loc, pos: nat, l: Loc, k: nat)
    requires Coherent(s) && loc in s.queues && pos < |s.queues[loc]|
    requires l in s.queues && k < |Remove(s, loc, pos).queues[l]|
    ensures Remove(s, loc, pos).queues[l][k].id != s.queues[loc][pos].id
    ensures Remove(s, loc, pos).queues[l][k] in s.queues[l]
  {
    var j: nat := if l == loc then Before(pos, k) else k;
    var x := s.queues[l][j];
    assert Remove(s, loc, pos).queues[l][k] == x;
    assert QueueOk(s.index, s.nextId, l, s.queues[l]) && QueueOk(s.index, s.nextId, loc, s.queues[loc]);
    assert Belongs(s.index, s.nextId, l, x) && Belongs(s.index, s.nextId, loc, s.queues[loc][pos]);
    assert ApartIn(s.index, KeyOf(x.order), KeyOf(s.queues[loc][pos].order));
    if l == loc {
      DistinctAt(s.queues[loc], j, pos);
    }
  }

  ghost predicate LivesIn(s: State, id: nat)
  {
    exists loc, x :: loc in s.queues && x in s.queues[loc] && x.id == id
  }

  lemma HitsLater(quiet: seq<MdEvent>, md: seq<MdEvent>, p: nat, id: nat)
    requires Hits(quiet + md, p, id) && forall i :: 0 <= i < |quiet| ==> !quiet[i].Trade?
    ensures |quiet| <= p && Hits(md, p - |quiet|, id) && (quiet + md)[..p] == quiet + md[..p - |quiet|]
  {
  }

  lemma ReplaceHits(s: State, o: ReplaceOrder, p: nat, id: nat) returns (slot: Slot, p': nat)
    requires Hits(ReplaceStep(s, o).md, p, id)
    ensures Lookup(s, Key(o.clientId, o.origClOrdId)) == Some(slot)
    ensures var (s1, md1) := Withdraw(s, slot);
            && Known(s1, o.symbol) && Hits(AcceptMd(s1, Replacement(o)), p', id)
            && ReplaceStep(s, o).md[..p] == md1 + AcceptMd(s1, Replacement(o))[..p']
  {
    slot := Lookup(s, Key(o.clientId, o.origClOrdId)).value;
    var (s1, md1) := Withdraw(s, slot);
    HitsLater(md1, ReplaceTail(s1, o).md, p, id);
    p' := p - |md1|;
  }

  lemma ReplaceServes(s: State, o: ReplaceOrder, p: nat, id: nat)
    requires Inv(s) && Hits(ReplaceStep(s, o).md, p, id)
    ensures ServedInOrder(s, Replace(o), ReplaceStep(s, o).md[..p], id)
    ensures LivesIn(s, id)
  {
    var slot, p' := ReplaceHits(s, o, p, id);
    var (s1, md1) := Withdraw(s, slot);
    WithdrawInv(s, slot);
    NewServes(s1, Replacement(o), p', id);
    AcceptServes(s1, Replacement(o), p', id);
    RemainsOther(s, slot.loc, slot.pos, Loc(o.symbol, Opposite(o.side)), p');
    WithdrawServes(s, slot.loc, slot.pos, Replace(o), New(Replacement(o)), md1,
                   AcceptMd(s1, Replacement(o))[..p'], id);
  }

  /** Within one request: the order hit was resting, and everything ahead of it was served first. */
  lemma StepServes(s: State, r: Request, p: nat, id: nat)
    requires Inv(s) && Hits(Step(s, r).md, p, id)
    ensures ServedInOrder(s, r, Step(s, r).md[..p], id)
    ensures LivesIn(s, id)
  {
    match r
    case New(order) =>
      NewServes(s, order, p, id);
      AcceptServes(s, order, p, id);
      assert s.queues[Loc(order.symbol, Opposite(order.side))][p] in s.queues[Loc(order.symbol, Opposite(order.side))];
    case Replace(o) => ReplaceServes(s, o, p, id);
    case Cancel(c) =>
    case Flush =>
  }

  /**
   Let a precede b on one side of a book. Whatever requests follow, when a later request r trades with b, then
   whatever still rested of a when r arrived was traded in full before that trade, or r itself took a out.
   */
  lemma PriceTimePriority(s: State, loc: Loc, i: nat, j: nat, rs: seq<Request>, r: Request, p: nat, l: Loc, k: nat)
    requires Inv(s) && loc in s.queues && i < |s.queues[loc]| && j < |s.queues[loc]|
    requires Precedes(loc.side, s.queues[loc][i], s.queues[loc][j])
    requires Hits(Step(Run(s, rs).state, r).md, p, s.queues[loc][j].id)
    requires l in Run(s, rs).state.queues && k < |Run(s, rs).state.queues[l]|
    requires Run(s, rs).state.queues[l][k].id == s.queues[loc][i].id
    ensures var s1 := Run(s, rs).state;
            || Traded(Step(s1, r).md[..p], s.queues[loc][i].id) == s1.queues[l][k].order.leavesQty
            || TakesOut(r, KeyOf(s1.queues[l][k].order))
  {
    var s1 := Run(s, rs).state;
    var a, b := s.queues[loc][i], s.queues[loc][j];
    RunInv(s, rs);
    RunDescends(s, rs);
    StepServes(s1, r, p, b.id);
    var lb, xb :| lb in s1.queues && xb in s1.queues[lb] && xb.id == b.id;
    var kb :| 0 <= kb < |s1.queues[lb]| && s1.queues[lb][kb] == xb;
    DescendantStays(s, s1, loc, j, lb, kb);
    DescendantStays(s, s1, loc, i, l, k);
    assert Precedes(loc.side, s1.queues[loc][k], s1.queues[loc][kb]);
  }

  /** An order keeps its place and its terms as long as it rests. */
  lemma DescendantStays(s: State, s1: State, loc: Loc, i: nat, l: Loc, k: nat)
    requires Coherent(s) && Descends(s, s1) && loc in s.queues && i < |s.queues[loc]|
    requires l in s1.queues && k < |s1.queues[l]| && s1.queues[l][k].id == s.queues[loc][i].id
    ensures l == loc && SameOrder(s1.queues[l][k], s.queues[loc][i])
  {
    assert QueueOk(s.index, s.nextId, loc, s.queues[loc]);
    assert Belongs(s.index, s.nextId, loc, s.queues[loc][i]);
    assert Rested(s.queues[l], s1.queues[l][k]);
    var j: nat :| j < |s.queues[l]| && SameOrder(s1.queues[l][k], s.queues[l][j]);
    SameInstance(s, l, j, loc, i);
  }

}
