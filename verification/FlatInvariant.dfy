/**
 What every request keeps: queues in price-time order, every resting order live and indexed under its own key,
 every index entry resting, instance numbers never shared, and no book crossed.

 Here and in the modules that build on this one, a predicate of several conjuncts binds its body to a name: the
 verifier then proves it as one condition where it is asked for, not as one obligation per conjunct, which keeps the
 methods over the heap small enough to verify.
 */
module FlatInvariant {
  import opened Wrappers
  import opened Types
  import opened PriceTimeQueue
  import opened FlatEngine

  predicate Belongs(index: map<Key, Entry>, nextId: nat, loc: Loc, x: Resting)
  {
    && LocOf(x.order) == loc
    && 0 < x.order.price
    && 0 < x.order.leavesQty <= x.order.orderQty
    && x.id < nextId
    && KeyOf(x.order) in index
    && index[KeyOf(x.order)] == Entry(loc, x.id)
  }

  predicate QueueOk(index: map<Key, Entry>, nextId: nat, loc: Loc, q: seq<Resting>)
  {
    && Sorted(loc.side, q)
    && (forall i :: 0 <= i < |q| ==> Belongs(index, nextId, loc, q[i]))
    && Distinct(q)
  }

  predicate Indexed(s: State, k: Key)
    requires k in s.index
  {
    && s.index[k].loc in s.queues
    && s.index[k].id < s.nextId
    && Find(s.queues[s.index[k].loc], k) < |s.queues[s.index[k].loc]|
  }

  /** The books, the index and the instance numbers agree. */
  ghost predicate Coherent(s: State)
  {
    var agree :=
      && QueuesOk(s)
      && AllIndexed(s)
      && IdsApart(s);
    agree
  }

  ghost predicate QueuesOk(s: State)
  {
    forall loc {:trigger QueueOk(s.index, s.nextId, loc, s.queues[loc])} ::
      loc in s.queues ==> QueueOk(s.index, s.nextId, loc, s.queues[loc])
  }

  ghost predicate AllIndexed(s: State)
  {
    forall k {:trigger Indexed(s, k)} :: k in s.index ==> Indexed(s, k)
  }

  predicate ApartIn(index: map<Key, Entry>, k: Key, l: Key)
  {
    k in index && l in index && k != l ==> index[k].id != index[l].id
  }

  ghost predicate IdsApart(s: State)
  {
    forall k, l {:trigger ApartIn(s.index, k, l)} :: ApartIn(s.index, k, l)
  }

  predicate UncrossedAt(bids: seq<Resting>, asks: seq<Resting>)
  {
    bids == [] || asks == [] || bids[0].order.price < asks[0].order.price
  }

  ghost predicate Uncrossed(s: State)
  {
    forall symbol {:trigger Known(s, symbol)} :: Known(s, symbol) ==> UncrossedAt(s.queues[Loc(symbol, Buy)],
          s.queues[Loc(symbol, Sell)])
  }

  ghost predicate Inv(s: State)
  {
    var holds :=
      Coherent(s) && Uncrossed(s);
    holds
  }

  // ---------- lookup ----------

  lemma {:induction false} FindExact(q: seq<Resting>, i: nat)
    requires i < |q|
    requires forall j :: 0 <= j < i ==> KeyOf(q[j].order) != KeyOf(q[i].order)
    ensures Find(q, KeyOf(q[i].order)) == i
  {
    if i > 0 {
      assert KeyOf(q[0].order) != KeyOf(q[i].order);
      assert q[1..][i - 1] == q[i];
      forall j | 0 <= j < i - 1
        ensures KeyOf(q[1..][j].order) != KeyOf(q[i].order)
      {
        assert q[1..][j] == q[j + 1];
      }
      FindExact(q[1..], i - 1);
    }
  }

  lemma FindPresent(q: seq<Resting>, i: nat)
    requires i < |q|
    ensures Find(q, KeyOf(q[i].order)) < |q|
  {
    var f := Find(q, KeyOf(q[i].order));
  }

  /** In a coherent state a live order is found at its own position, and a key misses exactly when it is not indexed. */
  lemma LookupExact(s: State, loc: Loc, i: nat)
    requires Coherent(s) && loc in s.queues && i < |s.queues[loc]|
    ensures Lookup(s, KeyOf(s.queues[loc][i].order)) == Some(Slot(loc, i))
  {
    var q := s.queues[loc];
    assert QueueOk(s.index, s.nextId, loc, q);
    assert Belongs(s.index, s.nextId, loc, q[i]);
    forall j | 0 <= j < i
      ensures KeyOf(q[j].order) != KeyOf(q[i].order)
    {
      assert Belongs(s.index, s.nextId, loc, q[j]);
      DistinctAt(q, i, j);
    }
    FindExact(q, i);
  }

  lemma LookupMiss(s: State, key: Key)
    requires Coherent(s)
    ensures Lookup(s, key).None? <==> key !in s.index
  {
    if key in s.index {
      assert Indexed(s, key);
    }
  }

  // ---------- removing ----------

  /** A queue depends on the index only through the keys of its own orders. */
  lemma QueueOkReindex(index: map<Key, Entry>, index': map<Key, Entry>, nextId: nat, nextId': nat, loc: Loc,
      q: seq<Resting>)
    requires QueueOk(index, nextId, loc, q) && nextId <= nextId'
    requires forall k :: k in index && index[k].loc == loc ==> k in index' && index'[k] == index[k]
    ensures QueueOk(index', nextId', loc, q)
  {
    forall i | 0 <= i < |q|
      ensures Belongs(index', nextId', loc, q[i])
    {
      assert Belongs(index, nextId, loc, q[i]);
    }
  }

  lemma QueueOkRemove(index: map<Key, Entry>, nextId: nat, loc: Loc, q: seq<Resting>, i: nat)
    requires QueueOk(index, nextId, loc, q) && i < |q|
    ensures QueueOk(index - {KeyOf(q[i].order)}, nextId, loc, RemoveAt(q, i))
  {
    var q' := RemoveAt(q, i);
    assert Belongs(index, nextId, loc, q[i]);
    forall j | 0 <= j < |q'|
      ensures Belongs(index - {KeyOf(q[i].order)}, nextId, loc, q'[j])
      ensures q'[j] == q[if j < i then j else j + 1]
    {
      var o := if j < i then j else j + 1;
      assert Belongs(index, nextId, loc, q[o]);
      DistinctAt(q, i, o);
    }
    forall j, k | 0 <= j < k < |q'|
      ensures Precedes(loc.side, q'[j], q'[k]) && Apart(q'[j], q'[k])
    {
      var o, p := if j < i then j else j + 1, if k < i then k else k + 1;
      assert Precedes(loc.side, q[o], q[p]) && Apart(q[o], q[p]);
    }
  }

  lemma RemoveCoherent(s: State, loc: Loc, i: nat)
    requires Coherent(s) && loc in s.queues && i < |s.queues[loc]|
    ensures Coherent(Remove(s, loc, i))
  {
    var s', q := Remove(s, loc, i), s.queues[loc];
    assert QueueOk(s.index, s.nextId, loc, q);
    assert Belongs(s.index, s.nextId, loc, q[i]);
    forall l | l in s'.queues
      ensures QueueOk(s'.index, s'.nextId, l, s'.queues[l])
    {
      if l == loc {
        QueueOkRemove(s.index, s.nextId, loc, q, i);
      } else {
        QueueOkReindex(s.index, s'.index, s.nextId, s'.nextId, l, s.queues[l]);
      }
    }
    RemoveIndexed(s, loc, i);
    forall k, l
      ensures ApartIn(s'.index, k, l)
    {
      assert ApartIn(s.index, k, l);
    }
  }

  lemma RemoveIndexed(s: State, loc: Loc, i: nat)
    requires AllIndexed(s) && loc in s.queues && i < |s.queues[loc]|
    ensures AllIndexed(Remove(s, loc, i))
  {
    var s', q := Remove(s, loc, i), s.queues[loc];
    forall k | k in s'.index
      ensures Indexed(s', k)
    {
      assert Indexed(s, k);
      if s.index[k].loc == loc {
        var f := Find(q, k);
        var f' := if f < i then f else f - 1;
        assert s'.queues[loc][f'] == q[f];
        FindPresent(s'.queues[loc], f');
      }
    }
  }

  /** Taking from the front or the middle of a sorted queue never improves its best price. */
  lemma RemoveUncrossed(s: State, loc: Loc, i: nat)
    requires Inv(s) && loc in s.queues && i < |s.queues[loc]|
    ensures Uncrossed(Remove(s, loc, i))
  {
    var s', q := Remove(s, loc, i), s.queues[loc];
    assert QueueOk(s.index, s.nextId, loc, q);
    forall symbol | Known(s', symbol)
      ensures UncrossedAt(s'.queues[Loc(symbol, Buy)], s'.queues[Loc(symbol, Sell)])
    {
      assert Known(s, symbol);
      if loc.symbol == symbol && |q| > 1 && i == 0 {
        assert Precedes(loc.side, q[0], q[1]);
      }
    }
  }

  lemma WithdrawInv(s: State, slot: Slot)
    requires Inv(s) && slot.loc in s.queues && slot.pos < |s.queues[slot.loc]|
    ensures Inv(Withdraw(s, slot).0)
  {
    RemoveCoherent(s, slot.loc, slot.pos);
    RemoveUncrossed(s, slot.loc, slot.pos);
  }

  // ---------- matching ----------

  /** One trade: the head of a queue is hit, and leaves the book and the index when nothing remains of it. */
  function TakeHead(s: State, loc: Loc, qty: U64): State
    requires loc in s.queues && s.queues[loc] != [] && qty <= s.queues[loc][0].order.leavesQty
  {
    var x := s.queues[loc][0];
    s.(queues := s.queues[loc := HitHead(s.queues[loc], qty)],
       index := if qty == x.order.leavesQty then s.index - {KeyOf(x.order)} else s.index,
       nextTrade := Succ(s.nextTrade))
  }

  lemma QueueOkHit(index: map<Key, Entry>, nextId: nat, loc: Loc, q: seq<Resting>, qty: U64)
    requires QueueOk(index, nextId, loc, q) && q != [] && qty < q[0].order.leavesQty
    ensures QueueOk(index, nextId, loc, HitHead(q, qty))
    ensures forall j :: 0 <= j < |q| ==> KeyOf(HitHead(q, qty)[j].order) == KeyOf(q[j].order)
  {
    var q' := HitHead(q, qty);
    forall j | 0 <= j < |q'|
      ensures Belongs(index, nextId, loc, q'[j]) && q'[j].id == q[j].id
      ensures q'[j].order.price == q[j].order.price && KeyOf(q'[j].order) == KeyOf(q[j].order)
    {
      assert Belongs(index, nextId, loc, q[j]);
    }
    forall i, j | 0 <= i < j < |q'|
      ensures Precedes(loc.side, q'[i], q'[j]) && Apart(q'[i], q'[j])
    {
      assert Precedes(loc.side, q[i], q[j]) && Apart(q[i], q[j]);
    }
  }

  lemma TakeHeadCoherent(s: State, loc: Loc, qty: U64)
    requires Coherent(s) && loc in s.queues && s.queues[loc] != [] && 0 < qty <= s.queues[loc][0].order.leavesQty
    ensures Coherent(TakeHead(s, loc, qty))
  {
    var s', q := TakeHead(s, loc, qty), s.queues[loc];
    if qty == q[0].order.leavesQty {
      RemoveCoherent(s, loc, 0);
      assert RemoveAt(q, 0) == q[1..];
      assert s' == Remove(s, loc, 0).(nextTrade := s'.nextTrade);
      assert forall k :: k in s'.index ==> Indexed(Remove(s, loc, 0), k);
    } else {
      assert QueueOk(s.index, s.nextId, loc, q);
      QueueOkHit(s.index, s.nextId, loc, q, qty);
      forall k | k in s'.index
        ensures Indexed(s', k)
      {
        assert Indexed(s, k);
        if s.index[k].loc == loc {
          FindPresent(s'.queues[loc], Find(q, k));
        }
      }
    }
  }

  lemma ReleasedKeysCons(f: Fill, fills: seq<Fill>)
    ensures ReleasedKeys([f] + fills) == (if Released(f) then {KeyOf(f.maker.order)} else {}) + ReleasedKeys(fills)
  {
    var all := [f] + fills;
    forall k | k in ReleasedKeys(fills)
      ensures k in ReleasedKeys(all)
    {
      var i :| 0 <= i < |fills| && Released(fills[i]) && KeyOf(fills[i].maker.order) == k;
      assert all[i + 1] == fills[i];
    }
    forall k | k in ReleasedKeys(all)
      ensures k in (if Released(f) then {KeyOf(f.maker.order)} else {}) + ReleasedKeys(fills)
    {
      var i :| 0 <= i < |all| && Released(all[i]) && KeyOf(all[i].maker.order) == k;
      if i > 0 {
        assert all[i] == fills[i - 1];
      }
    }
    assert Released(f) ==> all[0] == f;
  }

  /** Consuming a whole match is consuming its first trade and then the rest. */
  lemma ConsumeFirst(s: State, loc: Loc, qty: U64, m: Matched)
    requires loc in s.queues && s.queues[loc] != [] && qty <= s.queues[loc][0].order.leavesQty
    ensures Consume(s, loc, m.(fills := [Fill(s.queues[loc][0], qty)] + m.fills))
         == Consume(TakeHead(s, loc, qty), loc, m)
  {
    var f := Fill(s.queues[loc][0], qty);
    ReleasedKeysCons(f, m.fills);
    AdvanceSucc(s.nextTrade, |m.fills|);
    var s', keys := TakeHead(s, loc, qty), ReleasedKeys(m.fills);
    assert s.queues[loc := m.queue] == s'.queues[loc := m.queue];
    assert s.index - ReleasedKeys([f] + m.fills) == s'.index - keys;
  }

  lemma {:induction false} ConsumeCoherent(s: State, loc: Loc, taker: Order)
    requires Coherent(s) && loc in s.queues
    ensures Coherent(Consume(s, loc, Match(s.queues[loc], taker)))
    decreases |s.queues[loc]|, taker.leavesQty
  {
    var q := s.queues[loc];
    if q == [] || taker.leavesQty == 0 || !Crosses(taker, q[0].order.price) {
      assert ReleasedKeys([]) == {} && s.index - {} == s.index && s.queues[loc := q] == s.queues;
    } else {
      assert QueueOk(s.index, s.nextId, loc, q);
      assert Belongs(s.index, s.nextId, loc, q[0]);
      var qty := Min(taker.leavesQty, q[0].order.leavesQty);
      ConsumeFirst(s, loc, qty, Match(HitHead(q, qty), Take(taker, qty)));
      TakeHeadCoherent(s, loc, qty);
      ConsumeCoherent(TakeHead(s, loc, qty), loc, Take(taker, qty));
    }
  }

  /** What matching needs to know of a queue. */
  lemma CoherentLive(s: State, loc: Loc)
    requires Coherent(s) && loc in s.queues
    ensures Live(s.queues[loc]) && Sorted(loc.side, s.queues[loc])
    ensures forall i :: 0 <= i < |s.queues[loc]| ==> s.queues[loc][i].id < s.nextId
    ensures Distinct(s.queues[loc])
  {
    var q := s.queues[loc];
    assert QueueOk(s.index, s.nextId, loc, q);
    forall i | 0 <= i < |q|
      ensures q[i].order.leavesQty > 0 && q[i].id < s.nextId
    {
      assert Belongs(s.index, s.nextId, loc, q[i]);
    }
  }

  // ---------- placing ----------

  lemma QueueOkInsert(index: map<Key, Entry>, nextId: nat, x: Resting, q: seq<Resting>)
    requires QueueOk(index, nextId, LocOf(x.order), q)
    requires x.id == nextId && KeyOf(x.order) !in index
    requires 0 < x.order.price && 0 < x.order.leavesQty <= x.order.orderQty
    ensures QueueOk(index[KeyOf(x.order) := Entry(LocOf(x.order), x.id)], nextId + 1, LocOf(x.order),
                    Insert(x.order.side, q, x))
  {
    var loc := LocOf(x.order);
    var index' := index[KeyOf(x.order) := Entry(loc, x.id)];
    var q' := Insert(loc.side, q, x);
    var at := InsertSplits(loc.side, q, x);
    forall j | 0 <= j < |q|
      ensures q[j].id < x.id && Belongs(index', nextId + 1, loc, q[j])
    {
      assert Belongs(index, nextId, loc, q[j]);
    }
    InsertSorted(loc.side, q, x);
    forall j | 0 <= j < |q'|
      ensures q'[j] == if j < at then q[j] else if j == at then x else q[j - 1]
    {
    }
  }

  lemma PlaceIndexed(s: State, x: Resting)
    requires AllIndexed(s) && LocOf(x.order) in s.queues && x.id == s.nextId
    ensures AllIndexed(Place(s, x).(nextId := s.nextId + 1))
  {
    var s', loc := Place(s, x).(nextId := s.nextId + 1), LocOf(x.order);
    var q, q' := s.queues[loc], s'.queues[loc];
    var at := InsertSplits(loc.side, q, x);
    forall k | k in s'.index
      ensures Indexed(s', k)
    {
      if k == KeyOf(x.order) {
        assert q'[at] == x;
        FindPresent(q', at);
      } else {
        assert Indexed(s, k);
        if s.index[k].loc == loc {
          var f := Find(q, k);
          var f' := if f < at then f else f + 1;
          assert q'[f'] == q[f];
          FindPresent(q', f');
        }
      }
    }
  }

  lemma PlaceCoherent(s: State, x: Resting)
    requires Coherent(s) && LocOf(x.order) in s.queues
    requires x.id == s.nextId && KeyOf(x.order) !in s.index
    requires 0 < x.order.price && 0 < x.order.leavesQty <= x.order.orderQty
    ensures Coherent(Place(s, x).(nextId := s.nextId + 1))
  {
    var s', loc := Place(s, x).(nextId := s.nextId + 1), LocOf(x.order);
    forall l | l in s'.queues
      ensures QueueOk(s'.index, s'.nextId, l, s'.queues[l])
    {
      if l == loc {
        QueueOkInsert(s.index, s.nextId, x, s.queues[loc]);
      } else {
        QueueOkReindex(s.index, s'.index, s.nextId, s'.nextId, l, s.queues[l]);
      }
    }
    PlaceIndexed(s, x);
    forall k, l
      ensures ApartIn(s'.index, k, l)
    {
      assert ApartIn(s.index, k, l);
      assert k in s.index ==> Indexed(s, k);
      assert l in s.index ==> Indexed(s, l);
    }
  }

  // ---------- every request ----------

  lemma SettleCoherent(s: State, r: NewOrderSingle)
    requires Coherent(s) && Known(s, r.symbol) && Key(r.clientId, r.clOrdId) !in s.index
    ensures Coherent(Settle(s, r).(nextId := s.nextId + 1))
  {
    var opp := Loc(r.symbol, Opposite(r.side));
    ConsumeCoherent(s, opp, MakeOrder(r));
    var s1 := Consume(s, opp, MatchFor(s, r));
    if Rests(s, r) {
      PlaceCoherent(s1, Resting(s.nextId, MatchFor(s, r).taker));
    } else {
      LaterIds(s1, s.nextId + 1);
    }
  }

  lemma LaterIds(s: State, nextId: nat)
    requires Coherent(s) && s.nextId <= nextId
    ensures Coherent(s.(nextId := nextId))
  {
    var s' := s.(nextId := nextId);
    forall l | l in s'.queues
      ensures QueueOk(s'.index, s'.nextId, l, s'.queues[l])
    {
      QueueOkReindex(s.index, s'.index, s.nextId, s'.nextId, l, s.queues[l]);
    }
    forall k | k in s'.index
      ensures Indexed(s', k)
    {
      assert Indexed(s, k);
    }
  }

  /** The counters of the two streams play no part in the invariant. */
  lemma CountersFree(s: State, s': State)
    requires Inv(s) && s' == s.(nextExec := s'.nextExec, nextTrade := s'.nextTrade)
    ensures Inv(s')
  {
    forall l | l in s'.queues
      ensures QueueOk(s'.index, s'.nextId, l, s'.queues[l])
    {
    }
    forall k | k in s'.index
      ensures Indexed(s', k)
    {
      assert Indexed(s, k);
    }
    forall symbol | Known(s', symbol)
      ensures UncrossedAt(s'.queues[Loc(symbol, Buy)], s'.queues[Loc(symbol, Sell)])
    {
      assert Known(s, symbol);
    }
  }

  lemma HeadNotBetter(side: Side, q: seq<Resting>, taker: Order)
    requires Live(q) && Sorted(side, q)
    ensures var q' := Match(q, taker).queue;
            q' != [] ==> q != [] && !Better(side, q'[0].order.price, q[0].order.price)
  {
    MatchIsMatch(q, taker);
    var q' := Match(q, taker).queue;
    if q' != [] {
      var k := |q| - |q'|;
      assert q'[0].order.price == q[k].order.price;
      assert k > 0 ==> Precedes(side, q[0], q[k]);
    }
  }

  predicate SidesUncrossed(side: Side, own: seq<Resting>, opp: seq<Resting>)
  {
    if side == Buy then UncrossedAt(own, opp) else UncrossedAt(opp, own)
  }

  /** What rests after a match cannot cross what is left on the other side. */
  lemma RestUncrossed(own: seq<Resting>, opp: seq<Resting>, taker: Order, x: Resting)
    requires Live(opp) && Sorted(Opposite(taker.side), opp)
    requires SidesUncrossed(taker.side, own, opp)
    requires x.order == Match(opp, taker).taker && x.order.leavesQty > 0 && x.order.price != 0
    ensures SidesUncrossed(taker.side, Insert(taker.side, own, x), Match(opp, taker).queue)
  {
    MatchIsMatch(opp, taker);
    HeadNotBetter(Opposite(taker.side), opp, taker);
    var own' := Insert(taker.side, own, x);
    assert own'[0] == x || (own != [] && own'[0] == own[0]);
  }

  lemma SettleUncrossedHere(s: State, r: NewOrderSingle)
    requires Inv(s) && Known(s, r.symbol)
    ensures SidesUncrossed(r.side, Settle(s, r).queues[Loc(r.symbol, r.side)],
                           Settle(s, r).queues[Loc(r.symbol, Opposite(r.side))])
  {
    assert r.side == Buy || r.side == Sell;
    var own, opp := s.queues[Loc(r.symbol, r.side)], s.queues[Loc(r.symbol, Opposite(r.side))];
    CoherentLive(s, Loc(r.symbol, Opposite(r.side)));
    assert UncrossedAt(s.queues[Loc(r.symbol, Buy)], s.queues[Loc(r.symbol, Sell)]);
    assert SidesUncrossed(r.side, own, opp);
    if Rests(s, r) {
      RestUncrossed(own, opp, MakeOrder(r), Resting(s.nextId, MatchFor(s, r).taker));
    } else {
      HeadNotBetter(Opposite(r.side), opp, MakeOrder(r));
    }
  }

  lemma SettleUncrossed(s: State, r: NewOrderSingle)
    requires Inv(s) && Known(s, r.symbol)
    ensures Uncrossed(Settle(s, r))
  {
    var s' := Settle(s, r);
    SettleUncrossedHere(s, r);
    forall symbol | Known(s', symbol)
      ensures UncrossedAt(s'.queues[Loc(symbol, Buy)], s'.queues[Loc(symbol, Sell)])
    {
      assert Known(s, symbol);
    }
  }

  lemma AcceptInv(s: State, r: NewOrderSingle)
    requires Inv(s) && Known(s, r.symbol) && Key(r.clientId, r.clOrdId) !in s.index
    ensures Inv(Accept(s, r).state)
  {
    SettleCoherent(s, r);
    SettleUncrossed(s, r);
    var s1 := Settle(s, r);
    var s2 := s1.(nextId := s.nextId + 1);
    assert Uncrossed(s2) by {
      forall symbol | Known(s2, symbol)
        ensures UncrossedAt(s2.queues[Loc(symbol, Buy)], s2.queues[Loc(symbol, Sell)])
      {
        assert Known(s1, symbol);
      }
    }
    CountersFree(s2, Accept(s, r).state);
  }

  lemma NewOrderInv(s: State, r: NewOrderSingle)
    requires Inv(s)
    ensures NewOrderStep(s, r).Ok? ==> Inv(NewOrderStep(s, r).value.state)
  {
    if NewOrderStep(s, r).Ok? {
      AcceptInv(s, r);
    }
  }

  lemma FlushInv(s: State)
    requires Inv(s)
    ensures Inv(FlushStep(s))
  {
    var s' := FlushStep(s);
    forall l | l in s'.queues
      ensures QueueOk(s'.index, s'.nextId, l, s'.queues[l])
    {
      assert QueueOk(s.index, s.nextId, l, s.queues[l]);
    }
  }

  /** One request keeps the invariant. */
  lemma StepInv(s: State, r: Request)
    requires Inv(s)
    ensures Inv(Step(s, r).state)
  {
    match r
    case New(order) => NewOrderInv(s, order);
    case Replace(o) =>
      var slot := Lookup(s, Key(o.clientId, o.origClOrdId));
      if slot.Some? {
        WithdrawInv(s, slot.value);
        NewOrderInv(Withdraw(s, slot.value).0, Replacement(o));
      }
    case Cancel(c) =>
      var slot := Lookup(s, Key(c.clientId, c.origClOrdId));
      if slot.Some? {
        WithdrawInv(s, slot.value);
        CountersFree(Withdraw(s, slot.value).0, Step(s, r).state);
      }
    case Flush => FlushInv(s);
  }

  lemma {:induction false} RunInv(s: State, rs: seq<Request>)
    requires Inv(s)
    ensures Inv(Run(s, rs).state)
    decreases |rs|
  {
    if rs != [] {
      StepInv(s, rs[0]);
      RunInv(Step(s, rs[0]).state, rs[1..]);
    }
  }

  lemma InitialInv(symbols: set<Symbol>)
    ensures Inv(Initial(symbols))
  {
    var s := Initial(symbols);
    forall l | l in s.queues
      ensures QueueOk(s.index, s.nextId, l, s.queues[l])
    {
      assert l.symbol in symbols;
    }
  }

}
