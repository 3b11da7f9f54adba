/**
 The invariant of the level walk: trades made so far, followed by the flat match of what is left, are the whole flat
 match.
 */
module MatchProgress {
  import opened Types
  import opened PriceTimeQueue
  import opened FlatEngine
  import opened FlatInvariant

  /** From s0, the fills so far led to s and left the taker as t. */
  ghost predicate Progress(s0: State, s: State, loc: Loc, taker: Order, t: Order, fills: seq<Fill>)
  {
    var onTrack :=
      && loc in s0.queues && loc in s.queues
      && t.leavesQty <= taker.leavesQty && t == taker.(leavesQty := t.leavesQty)
      && s == Consume(s0, loc, Matched(fills, s.queues[loc], t))
      && var m := Match(s.queues[loc], t);
      Match(s0.queues[loc], taker) == Matched(fills + m.fills, m.queue, m.taker);
    onTrack
  }

  lemma ProgressStart(s: State, loc: Loc, taker: Order)
    requires loc in s.queues
    ensures Progress(s, s, loc, taker, taker, [])
  {
    var m := Match(s.queues[loc], taker);
    assert [] + m.fills == m.fills;
    assert s.queues[loc := s.queues[loc]] == s.queues;
    assert s.index - ReleasedKeys([]) == s.index;
  }

  lemma ReleasedKeysSnoc(fills: seq<Fill>, f: Fill)
    ensures ReleasedKeys(fills + [f]) == ReleasedKeys(fills) + (if Released(f) then {KeyOf(f.maker.order)} else {})
  {
    var all := fills + [f];
    forall k | k in ReleasedKeys(fills)
      ensures k in ReleasedKeys(all)
    {
      var i :| 0 <= i < |fills| && Released(fills[i]) && KeyOf(fills[i].maker.order) == k;
      assert all[i] == fills[i];
    }
    assert Released(f) ==> all[|fills|] == f && KeyOf(f.maker.order) in ReleasedKeys(all);
  }

  lemma ConsumeSnoc(s0: State, s: State, loc: Loc, fills: seq<Fill>, qty: U64, t: Order)
    requires loc in s0.queues && loc in s.queues && s.queues[loc] != [] && qty <= s.queues[loc][0].order.leavesQty
    requires s == Consume(s0, loc, Matched(fills, s.queues[loc], t))
    ensures var s' := TakeHead(s, loc, qty);
            s' == Consume(s0, loc, Matched(fills + [Fill(s.queues[loc][0], qty)], s'.queues[loc], t))
  {
    var s', f := TakeHead(s, loc, qty), Fill(s.queues[loc][0], qty);
    ReleasedKeysSnoc(fills, f);
    assert s'.index == s0.index - ReleasedKeys(fills + [f]);
    assert s'.queues == s0.queues[loc := s'.queues[loc]];
  }

  /** One trade with the head of the queue. */
  lemma ProgressStep(s0: State, s: State, loc: Loc, taker: Order, t: Order, fills: seq<Fill>)
    requires Progress(s0, s, loc, taker, t, fills)
    requires s.queues[loc] != [] && t.leavesQty > 0 && Crosses(t, s.queues[loc][0].order.price)
    ensures var qty := Min(t.leavesQty, s.queues[loc][0].order.leavesQty);
            Progress(s0, TakeHead(s, loc, qty), loc, taker, Take(t, qty), fills + [Fill(s.queues[loc][0], qty)])
  {
    var qty := Min(t.leavesQty, s.queues[loc][0].order.leavesQty);
    var f := Fill(s.queues[loc][0], qty);
    var m := Match(HitHead(s.queues[loc], qty), Take(t, qty));
    assert fills + ([f] + m.fills) == (fills + [f]) + m.fills;
    ConsumeSnoc(s0, s, loc, fills, qty, t);
  }

  /** The walk may stop when the flat machine would. */
  lemma ProgressEnd(s0: State, s: State, loc: Loc, taker: Order, t: Order, fills: seq<Fill>)
    requires Progress(s0, s, loc, taker, t, fills)
    requires s.queues[loc] == [] || t.leavesQty == 0 || !Crosses(t, s.queues[loc][0].order.price)
    ensures Match(s0.queues[loc], taker) == Matched(fills, s.queues[loc], t)
    ensures s == Consume(s0, loc, Match(s0.queues[loc], taker))
  {
    assert fills + [] == fills;
  }

  /** A trade does not mention what the taker has left. */
  lemma TradeIgnoresLeaves(taker: Order, t: Order, takerId: nat, f: Fill, tradeId: U64)
    requires t == taker.(leavesQty := t.leavesQty)
    ensures TradeFor(t, takerId, f, tradeId) == TradeFor(taker, takerId, f, tradeId)
  {
  }

  lemma TradesSnoc(taker: Order, t: Order, takerId: nat, fills: seq<Fill>, f: Fill, nextTrade: U64)
    requires t == taker.(leavesQty := t.leavesQty)
    ensures TradesFor(taker, takerId, fills + [f], nextTrade)
         == TradesFor(taker, takerId, fills, nextTrade) + [TradeFor(t, takerId, f, Advance(nextTrade, |fills|))]
  {
    TradeIgnoresLeaves(taker, t, takerId, f, Advance(nextTrade, |fills|));
    var a, b := TradesFor(taker, takerId, fills + [f], nextTrade), TradesFor(taker, takerId, fills, nextTrade);
    assert a[..|fills|] == b;
    assert a[|fills|] == TradeFor(taker, takerId, f, Advance(nextTrade, |fills|));
    assert a == a[..|fills|] + [a[|fills|]];
  }

}
