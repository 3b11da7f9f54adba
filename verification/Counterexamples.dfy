/**
 Concrete inputs on which a property one might expect of the code fails; the exact conditions are proved elsewhere.
 */
module Counterexamples {
  import opened Wrappers
  import opened Types
  import opened PriceTimeQueue
  import opened FlatEngine
  import opened Reports
  import FixText
  import B3Codec

  function Limit(clOrdId: U64, side: Side, qty: U64, price: U64): NewOrderSingle
  {
    NewOrderSingle(1, clOrdId, 0, "A", "X", side, OrdType.Limit, Day, qty, price)
  }

  /** A limit order that meets an empty opposite side rests whole. */
  lemma RestsWhole(s: State, r: NewOrderSingle)
    requires Known(s, r.symbol) && Key(r.clientId, r.clOrdId) !in s.index
    requires s.queues[Loc(r.symbol, Opposite(r.side))] == [] && r.orderQty > 0 && r.price > 0
    ensures var s', own, x := Step(s, New(r)).state, Loc(r.symbol, r.side), Resting(s.nextId, MakeOrder(r));
            && s'.queues == s.queues[own := Insert(r.side, s.queues[own], x)]
            && s'.index == s.index[Key(r.clientId, r.clOrdId) := Entry(own, s.nextId)]
            && s'.nextId == s.nextId + 1
  {
    var opp := Loc(r.symbol, Opposite(r.side));
    assert MatchFor(s, r) == Matched([], [], MakeOrder(r));
    assert s.queues[opp := []] == s.queues && s.index - ReleasedKeys([]) == s.index;
  }

  /** A replace naming an unknown symbol is rejected, yet the original order is gone. */
  lemma RejectedReplaceLosesOrder()
    ensures var s := Step(Initial({"A"}), New(Limit(1, Buy, 5, 10))).state;
            var o := ReplaceOrder(1, 2, 1, 0, "B", "X", Buy, OrdType.Limit, Day, 5, 10);
            && Key(1, 1) in s.index
            && Reports.Rejected(Step(s, Replace(o)))
            && Key(1, 1) !in Step(s, Replace(o)).state.index && Key(1, 2) !in Step(s, Replace(o)).state.index
  {
    var s0, r := Initial({"A"}), Limit(1, Buy, 5, 10);
    assert Buy in {Buy, Sell} && Sell in {Buy, Sell};
    assert Known(s0, "A");
    RestsWhole(s0, r);
    var s := Step(s0, New(r)).state;
    var loc, x := Loc("A", Buy), Resting(0, MakeOrder(r));
    assert s.queues[loc] == [x];
    var o := ReplaceOrder(1, 2, 1, 0, "B", "X", Buy, OrdType.Limit, Day, 5, 10);
    assert Find(s.queues[loc], Key(1, 1)) == 0;
    assert Lookup(s, Key(1, 1)) == Some(Slot(loc, 0));
    var out := Step(s, Replace(o));
    assert Loc("B", Buy) !in s.queues;
    assert out.oe == [] + [RejectFor(1, 2, 1, UnknownSymbol)];
    assert out.oe[0].Reject?;
  }

  /** Two fills at 10 and 20 are reported with an average price of 20. */
  lemma AveragePriceIsLast()
    ensures var s := Step(Step(Initial({"A"}), New(Limit(1, Sell, 1, 10))).state, New(Limit(2, Sell, 1, 20))).state;
            var r := Limit(3, Buy, 2, 20);
            && Known(s, "A") && |AcceptOe(s, r)| == 2
            && AcceptOe(s, r)[1].report.avgPx == Some(20) && AcceptOe(s, r)[1].report.lastQty == Some(2)
            && Notional(MatchFor(s, r).fills) == 30
  {
    var s0, r1, r2, r := Initial({"A"}), Limit(1, Sell, 1, 10), Limit(2, Sell, 1, 20), Limit(3, Buy, 2, 20);
    assert Buy in {Buy, Sell} && Sell in {Buy, Sell};
    assert Known(s0, "A");
    RestsWhole(s0, r1);
    var s1 := Step(s0, New(r1)).state;
    RestsWhole(s1, r2);
    var s := Step(s1, New(r2)).state;
    var a, b := Resting(0, MakeOrder(r1)), Resting(1, MakeOrder(r2));
    var q := s.queues[Loc("A", Sell)];
    assert s1.queues[Loc("A", Sell)] == [a];
    assert [a][1..] == [] && Insert(Sell, [], b) == [b];
    assert q == [a, b];
    TwoFills(a, b, MakeOrder(r));
  }

  lemma TwoFills(a: Resting, b: Resting, taker: Order)
    requires a.order.leavesQty == b.order.leavesQty == 1 && taker.leavesQty == 2
    requires a.order.price == 10 && b.order.price == 20 && taker.price == 20 && taker.side == Buy
    ensures var m := Match([a, b], taker);
            m.fills == [Fill(a, 1), Fill(b, 1)] && m.taker.leavesQty == 0 && Notional(m.fills) == 30
  {
    var t1, t2 := Take(taker, 1), Take(Take(taker, 1), 1);
    assert [a, b][1..] == [b] && [b][1..] == [];
    assert Match([], t2) == Matched([], [], t2);
    assert Match([b], t1) == Matched([Fill(b, 1)], [], t2);
    assert Match([a, b], taker).fills == [Fill(a, 1)] + [Fill(b, 1)];
    var fills := [Fill(a, 1), Fill(b, 1)];
    assert fills[1..] == [Fill(b, 1)] && [Fill(b, 1)][1..] == [];
    assert Notional([]) == 0;
    assert Notional([Fill(b, 1)]) == 20;
    assert Notional(fills) == 30;
  }

  /** Two orders of 2^63 at one price leave a level that is reported as empty of quantity. */
  lemma TotalWraps()
    ensures var half: U64 := 0x8000_0000_0000_0000;
            var s := Step(Step(Initial({"A"}), New(Limit(1, Sell, half, 10))).state, New(Limit(2, Sell, half,
                10))).state;
            && Loc("A", Sell) in s.queues
            && LevelQty(s.queues[Loc("A", Sell)], 10) == TWO64
            && BestLevel(s.queues[Loc("A", Sell)]) == Some(Snapshot(10, 0))
  {
    var half: U64 := 0x8000_0000_0000_0000;
    var s0, r1, r2 := Initial({"A"}), Limit(1, Sell, half, 10), Limit(2, Sell, half, 10);
    assert Buy in {Buy, Sell} && Sell in {Buy, Sell};
    assert Known(s0, "A");
    RestsWhole(s0, r1);
    var s1 := Step(s0, New(r1)).state;
    RestsWhole(s1, r2);
    var a, b := Resting(0, MakeOrder(r1)), Resting(1, MakeOrder(r2));
    assert s1.queues[Loc("A", Sell)] == [a];
    assert [a][1..] == [] && Insert(Sell, [], b) == [b];
    assert Step(s1, New(r2)).state.queues[Loc("A", Sell)] == [a, b];
    assert [a, b][1..] == [b] && LevelQty([b], 10) == half + LevelQty([b][1..], 10) && [b][1..] == [];
  }

  /** An unknown-symbol reject arrives as an unknown-order reject. */
  lemma ReasonIsLost()
    ensures var e := B3Codec.FixCancelReject(1, 2, 3, UnknownSymbol, "", 0);
            B3Codec.DecodeEvent(B3Codec.EventMessage(e)) == Ok(e.(reason := UnknownOrder))
  {
    var e := B3Codec.FixCancelReject(1, 2, 3, UnknownSymbol, "", 0);
    B3Codec.CancelRejectRead(B3Codec.EventMessage(e), e);
  }

  /** A value that holds the delimiter is not read back. */
  lemma DelimiterInValue()
    ensures var m := FixText.Msg("D", [FixText.Field(58, "a|b")]);
            FixText.Decoded(FixText.Encoded(m, '|'), '|') != Ok(m)
  {
    var m := FixText.Msg("D", [FixText.Field(58, "a|b")]);
    assert m.fields[0].value[1] == '|';
    assert !FixText.FieldEncodable(m.fields[0], '|');
    FixText.RoundTripExactly(m, '|');
  }

}
