/**
 The vocabulary of the order-entry and market-data domains: 64-bit quantities, requests,
 lifecycle events and market-data messages.
 */
module Types {
  import opened Wrappers

  const TWO64: int := 0x1_0000_0000_0000_0000

  /**
   std::uint64_t; arithmetic on it is written out, so every subtraction that could underflow is a proof obligation.
   */
  type U64 = n: int | 0 <= n < 0x1_0000_0000_0000_0000

  /** Reduction modulo 2^64: what an unsigned 64-bit addition or subtraction stores. */
  function Wrap(n: int): (r: U64)
  {
    n % TWO64
  }

  lemma WrapAdd(a: int, b: int)
    ensures Wrap(Wrap(a) + b) == Wrap(a + b)
  {
    var k := a / TWO64;
    assert a == k * TWO64 + Wrap(a);
    WrapShift(Wrap(a) + b, k);
    assert Wrap(a) + b + k * TWO64 == a + b;
  }

  lemma WrapShift(a: int, k: int)
    ensures Wrap(a + k * TWO64) == Wrap(a)
  {
    var q, r := a / TWO64, a % TWO64;
    assert a + k * TWO64 == (q + k) * TWO64 + r;
    WrapUnique(a + k * TWO64, q + k, r);
  }

  lemma WrapUnique(a: int, q: int, r: int)
    requires a == q * TWO64 + r && 0 <= r < TWO64
    ensures Wrap(a) == r
  {
  }

  /** The increment of a 64-bit counter. */
  function Succ(n: U64): U64
  {
    if n + 1 == TWO64 then 0 else n + 1
  }

  /** k increments. */
  function Advance(n: U64, k: nat): U64
  {
    if k == 0 then n else Succ(Advance(n, k - 1))
  }

  lemma {:induction false} AdvanceAdd(n: U64, j: nat, k: nat)
    ensures Advance(Advance(n, j), k) == Advance(n, j + k)
  {
    if k > 0 {
      AdvanceAdd(n, j, k - 1);
    }
  }

  lemma AdvanceSucc(n: U64, k: nat)
    ensures Advance(Succ(n), k) == Advance(n, k + 1)
  {
    assert Advance(n, 1) == Succ(n);
    AdvanceAdd(n, 1, k);
  }

  lemma SuccIsWrap(n: U64)
    ensures Succ(n) == Wrap(n + 1)
  {
  }

  lemma SuccOfWrap(m: int)
    ensures Succ(Wrap(m)) == Wrap(m + 1)
  {
    hide Wrap, Succ;
    SuccIsWrap(Wrap(m));
    WrapAdd(m, 1);
  }

  lemma {:induction false} AdvanceIsWrap(n: U64, k: nat)
    ensures Advance(n, k) == Wrap(n + k)
  {
    if k > 0 {
      hide Wrap, Succ;
      AdvanceIsWrap(n, k - 1);
      SuccOfWrap(n + k - 1);
    }
  }

  function Min(a: U64, b: U64): U64
  {
    if b < a then b else a
  }

  type Symbol = string

  datatype Side = Buy | Sell

  function Opposite(side: Side): Side
  {
    if side == Buy then Sell else Buy
  }

  datatype OrdType = Market | Limit

  datatype TimeInForce = Day | Ioc

  datatype ExecType = NewOrder | Replaced | Canceled | Trade | Rejected | Expired

  datatype OrdStatus = NewOrder | PartiallyFilled | Filled | Canceled | Replaced | Rejected | Expired

  datatype RejectReason = UnknownOrder | DuplicateOrder | UnknownSymbol | UnsupportedRequest

  /** Identity of a live order across all symbols. */
  datatype Key = Key(clientId: U64, clOrdId: U64)

  /** One side of one book. */
  datatype Loc = Loc(symbol: Symbol, side: Side)

  // ---------- requests ----------

  datatype NewOrderSingle = NewOrderSingle(
    clientId: U64, clOrdId: U64, securityId: U64, symbol: Symbol, exchange: string,
    side: Side, ordType: OrdType, timeInForce: TimeInForce, orderQty: U64, price: U64)

  datatype ReplaceOrder = ReplaceOrder(
    clientId: U64, clOrdId: U64, origClOrdId: U64, securityId: U64, symbol: Symbol, exchange: string,
    side: Side, ordType: OrdType, timeInForce: TimeInForce, orderQty: U64, price: U64)

  datatype CancelOrder = CancelOrder(clientId: U64, clOrdId: U64, origClOrdId: U64)

  datatype Request =
    | New(order: NewOrderSingle)
    | Replace(replace: ReplaceOrder)
    | Cancel(cancel: CancelOrder)
    | Flush

  // ---------- the engine's working order ----------

  datatype Order = Order(
    clientId: U64, clOrdId: U64, securityId: U64, symbol: Symbol, exchange: string,
    side: Side, ordType: OrdType, timeInForce: TimeInForce, price: U64, orderQty: U64, leavesQty: U64)

  function MakeOrder(r: NewOrderSingle): Order
  {
    Order(r.clientId, r.clOrdId, r.securityId, r.symbol, r.exchange, r.side, r.ordType, r.timeInForce,
          r.price, r.orderQty, r.orderQty)
  }

  function KeyOf(o: Order): Key
  {
    Key(o.clientId, o.clOrdId)
  }

  function LocOf(o: Order): Loc
  {
    Loc(o.symbol, o.side)
  }

  // ---------- lifecycle events ----------

  datatype ExecutionReport = ExecutionReport(
    clientId: U64, clOrdId: U64, origClOrdId: Option<U64>, orderId: U64, execId: U64, securityId: U64,
    symbol: Symbol, exchange: string, side: Side, ordType: OrdType, timeInForce: TimeInForce,
    execType: ExecType, ordStatus: OrdStatus, orderQty: U64, cumQty: U64, leavesQty: U64,
    lastQty: Option<U64>, lastPx: Option<U64>, avgPx: Option<U64>)

  datatype CancelReject = CancelReject(
    clientId: U64, clOrdId: U64, origClOrdId: U64, reason: RejectReason, text: string)

  /** An order-entry event; a report is tagged with the instance number of the order it is about. */
  datatype OeEvent =
    | Report(report: ExecutionReport, instance: nat)
    | Reject(reject: CancelReject)

  // ---------- market-data messages ----------

  datatype TradeMsg = TradeMsg(
    securityId: U64, tradeId: U64, price: U64, quantity: U64, buyer: U64, seller: U64)

  datatype SummaryMsg = SummaryMsg(securityId: U64, aggressorSide: Side, lastPx: U64, fillQty: U64)

  datatype UpdateAction = Change | DeleteOrder

  datatype UpdateMsg = UpdateMsg(
    securityId: U64, action: UpdateAction, side: Side, price: Option<U64>, quantity: Option<U64>)

  /**
   A market-data message together with what the wire format leaves out: the book it belongs to (the wire
   carries only a client-supplied security id) and, for trades, the two order instances.
   */
  datatype MdEvent =
    | Trade(trade: TradeMsg, symbol: Symbol, taker: nat, maker: nat)
    | Summary(summary: SummaryMsg, symbol: Symbol, taker: nat)
    | Update(update: UpdateMsg, symbol: Symbol)

}
