/**
 A market-data subscriber that keeps only the last book update per book and side, and clears itself on a flush.
 */
module Replica {
  import opened Wrappers
  import opened Types
  import opened PriceTimeQueue
  import opened FlatEngine
  import opened FlatInvariant

  /** The subscriber's memory: the last reported top of each non-empty side. */
  type Tops = map<Loc, Snapshot>

  function Hear(v: Tops, e: MdEvent): Tops
  {
    match e
    case Update(u, symbol) =>
      if u.price.Some? && u.quantity.Some? then v[Loc(symbol, u.side) := Snapshot(u.price.value, u.quantity.value)]
      else v - {Loc(symbol, u.side)}
    case _ => v
  }

  function HearAll(v: Tops, md: seq<MdEvent>): Tops
    decreases |md|
  {
    if md == [] then v else HearAll(Hear(v, md[0]), md[1..])
  }

  function Follow(v: Tops, s: State, rs: seq<Request>): Tops
    decreases |rs|
  {
    if rs == [] then v
    else Follow(if rs[0].Flush? then map[] else HearAll(v, Step(s, rs[0]).md), Step(s, rs[0]).state, rs[1..])
  }

  /** The true tops, from the orders themselves. */
  function TrueTops(s: State): Tops
  {
    map loc | loc in s.queues && s.queues[loc] != [] :: BestLevel(s.queues[loc]).value
  }

  lemma {:induction false} HearAppend(v: Tops, a: seq<MdEvent>, b: seq<MdEvent>)
    ensures HearAll(v, a + b) == HearAll(HearAll(v, a), b)
    decreases |a|
  {
    if a == [] {
      assert a + b == b;
    } else {
      assert (a + b)[1..] == a[1..] + b;
      HearAppend(Hear(v, a[0]), a[1..], b);
    }
  }

  lemma {:induction false} HearNoUpdate(v: Tops, md: seq<MdEvent>)
    requires forall i :: 0 <= i < |md| ==> !md[i].Update?
    ensures HearAll(v, md) == v
    decreases |md|
  {
    if md != [] {
      assert !md[0].Update?;
      HearNoUpdate(v, md[1..]);
    }
  }

  lemma HearOne(v: Tops, e: MdEvent)
    ensures HearAll(v, [e]) == Hear(v, e)
  {
    assert [e][1..] == [];
  }

  /** When one side changed, hearing its update restores exactness. */
  lemma HearUpdate(s: State, s': State, loc: Loc, securityId: U64)
    requires loc in s.queues && s'.queues.Keys == s.queues.Keys
    requires forall l :: l in s.queues && l != loc ==> s'.queues[l] == s.queues[l]
    ensures HearAll(TrueTops(s), [UpdateFor(s'.queues[loc], loc, securityId)]) == TrueTops(s')
  {
    HearOne(TrueTops(s), UpdateFor(s'.queues[loc], loc, securityId));
  }

  /** When no side's top changed, silence is exact. */
  lemma SameTops(s: State, s': State)
    requires s'.queues.Keys == s.queues.Keys
    requires forall l :: l in s.queues ==> BestLevel(s'.queues[l]) == BestLevel(s.queues[l])
    ensures TrueTops(s') == TrueTops(s)
  {
    forall l | l in s.queues
      ensures (s.queues[l] == []) == (s'.queues[l] == [])
    {
      assert BestLevel(s'.queues[l]) == BestLevel(s.queues[l]);
    }
  }

  lemma RemoveBehindTop(q: seq<Resting>, i: nat)
    requires i < |q| && q[i].order.price != q[0].order.price
    ensures BestLevel(RemoveAt(q, i)) == BestLevel(q)
  {
    var p := q[0].order.price;
    assert q == q[..i] + ([q[i]] + q[i + 1..]);
    LevelQtyAppend(q[..i], [q[i]] + q[i + 1..], p);
    LevelQtyAppend(q[..i], q[i + 1..], p);
    assert ([q[i]] + q[i + 1..])[1..] == q[i + 1..];
    assert RemoveAt(q, i)[0] == q[0];
  }

  lemma InsertBehindTop(side: Side, q: seq<Resting>, x: Resting)
    requires BestPrice(Insert(side, q, x)) != Some(x.order.price)
    ensures BestLevel(Insert(side, q, x)) == BestLevel(q)
  {
    var i := InsertSplits(side, q, x);
    var p := q[0].order.price;
    assert q == q[..i] + q[i..];
    LevelQtyAppend(q[..i], q[i..], p);
    LevelQtyAppend(q[..i], [x] + q[i..], p);
    assert q[..i] + [x] + q[i..] == q[..i] + ([x] + q[i..]);
    assert ([x] + q[i..])[1..] == q[i..];
  }

  lemma WithdrawTops(s: State, slot: Slot)
    requires slot.loc in s.queues && slot.pos < |s.queues[slot.loc]|
    ensures var (s', md) := Withdraw(s, slot);
            HearAll(TrueTops(s), md) == TrueTops(s')
  {
    var q := s.queues[slot.loc];
    var s' := Remove(s, slot.loc, slot.pos);
    if BestPrice(q) == Some(q[slot.pos].order.price) {
      HearUpdate(s, s', slot.loc, q[slot.pos].order.securityId);
    } else {
      RemoveBehindTop(q, slot.pos);
      SameTops(s, s');
    }
  }

  /** The summary changes nothing, the update of the consumed side is exact. */
  lemma ConsumedSide(s: State, s1: State, opp: Loc, summary: MdEvent, securityId: U64)
    requires opp in s.queues && opp in s1.queues && s1.queues == s.queues[opp := s1.queues[opp]] && summary.Summary?
    ensures HearAll(TrueTops(s), [summary, UpdateFor(s1.queues[opp], opp, securityId)]) == TrueTops(s1)
  {
    var update := UpdateFor(s1.queues[opp], opp, securityId);
    assert [summary, update][1..] == [update];
    HearUpdate(s, s1, opp, securityId);
  }

  /** The own side: an update exactly when the placed residual is the new best. */
  lemma OwnSide(s1: State, x: Resting, securityId: U64)
    requires LocOf(x.order) in s1.queues
    ensures var own, s2 := LocOf(x.order), Place(s1, x);
            HearAll(TrueTops(s1), if BestPrice(s2.queues[own]) == Some(x.order.price)
                                  then [UpdateFor(s2.queues[own], own, securityId)] else [])
            == TrueTops(s2)
  {
    var own, s2 := LocOf(x.order), Place(s1, x);
    if BestPrice(s2.queues[own]) == Some(x.order.price) {
      HearUpdate(s1, s2, own, securityId);
    } else {
      InsertBehindTop(own.side, s1.queues[own], x);
      SameTops(s1, s2);
    }
  }

  lemma AfterTradesTops(s: State, r: NewOrderSingle)
    requires Known(s, r.symbol)
    ensures HearAll(TrueTops(s), AfterTrades(s, r)) == TrueTops(Settle(s, r))
  {
    var own, opp := Loc(r.symbol, r.side), Loc(r.symbol, Opposite(r.side));
    var m := MatchFor(s, r);
    var s1, s2 := Consume(s, opp, m), Settle(s, r);
    assert s2.queues[opp] == s1.queues[opp];
    var consumed := if m.fills == [] then [] else AfterTrades(s, r)[..2];
    var placed := if Rests(s, r) && BestPrice(s2.queues[own]) == Some(r.price)
    then [UpdateFor(s2.queues[own], own, r.securityId)] else [];
    assert AfterTrades(s, r) == consumed + placed;
    HearAppend(TrueTops(s), consumed, placed);
    if m.fills == [] {
      SameTops(s, s1);
    } else {
      ConsumedSide(s, s1, opp, consumed[0], r.securityId);
      assert consumed == [consumed[0], UpdateFor(s1.queues[opp], opp, r.securityId)];
    }
    if Rests(s, r) {
      OwnSide(s1, Resting(s.nextId, m.taker), r.securityId);
    }
  }

  lemma AcceptTops(s: State, r: NewOrderSingle)
    requires Known(s, r.symbol)
    ensures HearAll(TrueTops(s), AcceptMd(s, r)) == TrueTops(Settle(s, r))
  {
    var trades := TradesFor(MakeOrder(r), s.nextId, MatchFor(s, r).fills, s.nextTrade);
    HearAppend(TrueTops(s), trades, AfterTrades(s, r));
    HearNoUpdate(TrueTops(s), trades);
    AfterTradesTops(s, r);
  }

  lemma NewOrderTops(s: State, r: NewOrderSingle)
    ensures match NewOrderStep(s, r)
            case Ok(out) => HearAll(TrueTops(s), out.md) == TrueTops(out.state)
            case Err(_) => true
  {
    if NewOrderStep(s, r).Ok? {
      AcceptTops(s, r);
      SameTops(Settle(s, r), Accept(s, r).state);
    }
  }

  lemma StepTops(s: State, r: Request)
    ensures TrueTops(Step(s, r).state)
         == if r.Flush? then map[] else HearAll(TrueTops(s), Step(s, r).md)
  {
    match r
    case New(order) => NewOrderTops(s, order);
    case Replace(o) =>
      var slot := Lookup(s, Key(o.clientId, o.origClOrdId));
      if slot.Some? && Key(o.clientId, o.clOrdId) !in s.index {
        WithdrawTops(s, slot.value);
        var (s1, md) := Withdraw(s, slot.value);
        NewOrderTops(s1, Replacement(o));
        if NewOrderStep(s1, Replacement(o)).Ok? {
          HearAppend(TrueTops(s), md, NewOrderStep(s1, Replacement(o)).value.md);
        }
      }
    case Cancel(c) =>
      var slot := Lookup(s, Key(c.clientId, c.origClOrdId));
      if slot.Some? {
        WithdrawTops(s, slot.value);
        SameTops(Withdraw(s, slot.value).0, Step(s, r).state);
      }
    case Flush =>
  }

  /** After every request of every run the subscriber holds exactly the true tops. */
  lemma {:induction false} ReplicaExact(s: State, rs: seq<Request>)
    ensures Follow(TrueTops(s), s, rs) == TrueTops(Run(s, rs).state)
    decreases |rs|
  {
    if rs != [] {
      StepTops(s, rs[0]);
      ReplicaExact(Step(s, rs[0]).state, rs[1..]);
    }
  }

  lemma StepKeys(s: State, r: Request)
    ensures Step(s, r).state.queues.Keys == s.queues.Keys
  {
    if r.Replace? {
      var slot := Lookup(s, Key(r.replace.clientId, r.replace.origClOrdId));
      if slot.Some? {
        assert Withdraw(s, slot.value).0.queues.Keys == s.queues.Keys;
      }
    }
  }

  /** Requests neither add nor drop books. */
  lemma {:induction false} RunKeys(s: State, rs: seq<Request>)
    ensures Run(s, rs).state.queues.Keys == s.queues.Keys
    decreases |rs|
  {
    if rs != [] {
      StepKeys(s, rs[0]);
      RunKeys(Step(s, rs[0]).state, rs[1..]);
    }
  }

  /** What the top of a side says about the orders behind it. */
  ghost predicate TopIsTrue(v: Tops, loc: Loc, q: seq<Resting>)
  {
    && (loc in v <==> q != [])
    && (loc in v ==>
        && v[loc].price == q[0].order.price
        && (forall i :: 0 <= i < |q| ==> !Better(loc.side, q[i].order.price, v[loc].price))
        && (v[loc].quantity == LevelQty(q, v[loc].price) <==> LevelQty(q, v[loc].price) < TWO64))
  }

  lemma TrueTopsAreTrue(s: State, loc: Loc)
    requires Inv(s) && loc in s.queues
    ensures TopIsTrue(TrueTops(s), loc, s.queues[loc])
  {
    CoherentLive(s, loc);
    var q := s.queues[loc];
    assert forall i :: 0 < i < |q| ==> Precedes(loc.side, q[0], q[i]);
  }

  /**
   From the start of any run: a side without a top is empty, the reported price is the best one, and the
   reported quantity is the level's true total exactly when that total fits in 64 bits.
   */
  lemma ReplicaTrue(symbols: set<Symbol>, rs: seq<Request>, loc: Loc)
    requires loc in SidesOf(symbols)
    ensures var s := Run(Initial(symbols), rs).state;
            loc in s.queues && TopIsTrue(Follow(map[], Initial(symbols), rs), loc, s.queues[loc])
  {
    assert TrueTops(Initial(symbols)) == map[];
    ReplicaExact(Initial(symbols), rs);
    InitialInv(symbols);
    RunInv(Initial(symbols), rs);
    RunKeys(Initial(symbols), rs);
    TrueTopsAreTrue(Run(Initial(symbols), rs).state, loc);
  }

}
