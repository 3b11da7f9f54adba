/** The typed B3 codec over FIX messages: requests one way, events the other. */
module B3Codec {
  import opened Wrappers
  import opened Types
  import opened FixText
  import opened B3Spec
  import Decimal

  type Symbol16 = s: string | |s| <= 16
  type Exchange8 = s: string | |s| <= 8

  const ACCOUNT: Tag := 1
  const AVG_PX: Tag := 6
  const CL_ORD_ID: Tag := 11
  const CUM_QTY: Tag := 14
  const EXEC_ID: Tag := 17
  const LAST_PX: Tag := 31
  const LAST_QTY: Tag := 32
  const ORDER_ID: Tag := 37
  const ORDER_QTY: Tag := 38
  const ORD_STATUS: Tag := 39
  const ORD_TYPE: Tag := 40
  const ORIG_CL_ORD_ID: Tag := 41
  const PRICE: Tag := 44
  const SECURITY_ID: Tag := 48
  const SIDE: Tag := 54
  const SYMBOL: Tag := 55
  const TEXT: Tag := 58
  const TIME_IN_FORCE: Tag := 59
  const TRANSACT_TIME: Tag := 60
  const CXL_REJ_REASON: Tag := 102
  const EXEC_TYPE: Tag := 150
  const LEAVES_QTY: Tag := 151
  const SECURITY_EXCHANGE: Tag := 207

  const NEW_ORDER_SINGLE: string := "D"
  const ORDER_CANCEL_REPLACE_REQUEST: string := "G"
  const ORDER_CANCEL_REQUEST: string := "F"
  const EXECUTION_REPORT: string := "8"
  const ORDER_CANCEL_REJECT: string := "9"

  // ---------- domain messages ----------

  datatype Terms = Terms(
    account: U64, clOrdId: U64, securityId: U64, symbol: Symbol16, exchange: Exchange8,
    side: Side, ordType: OrdType, timeInForce: TimeInForce, orderQty: U64, price: U64)

  datatype FixRequest =
    | NewOrderSingle(terms: Terms)
    | OrderCancelReplaceRequest(terms: Terms, origClOrdId: U64)
    | OrderCancelRequest(account: U64, clOrdId: U64, origClOrdId: U64)

  datatype FixEvent =
    | FixReport(
        account: U64, clOrdId: U64, orig: Option<U64>, orderId: U64, execId: U64, securityId: U64,
        symbol: Symbol16, exchange: Exchange8, side: Side, ordType: OrdType, timeInForce: TimeInForce,
        execType: ExecType, ordStatus: OrdStatus, orderQty: U64, cumQty: U64, leavesQty: U64,
        lastQty: Option<U64>, lastPx: Option<U64>, avgPx: Option<U64>, transactTime: U64,
        rejectReason: Option<RejectReason>, text: string)
    | FixCancelReject(account: U64, clOrdId: U64, origClOrdId: U64, reason: RejectReason, text: string,
        transactTime: U64)

  datatype DecodeError =
    | Missing(tag: Tag)
    | Empty(tag: Tag)
    | NotOneCharacter(tag: Tag)
    | NotANumber(tag: Tag)
    | TooLong(tag: Tag)
    | BadCode(error: CodeError)
    | UnsupportedMessage(msgType: string)

  // ---------- setting fields ----------

  /** Setting a field, whether it overwrites or appends, changes what is got for that tag only. */
  function Put(fields: seq<Field>, number: Tag, value: string): (r: seq<Field>)
    ensures r == SetIn(fields, number, value)
    ensures Unique(fields) ==> Unique(r)
    ensures forall tag {:trigger GetIn(r, tag)} :: GetIn(r, tag) == if tag == number then Some(value)
        else GetIn(fields, tag)
    ensures forall d {:trigger FieldsEncodable(r, d)} ::
              FieldsEncodable(fields, d) && FieldEncodable(Field(number, value), d) ==> FieldsEncodable(r, d)
  {
    PutFacts(fields, number, value);
    SetIn(fields, number, value)
  }

  lemma PutFacts(fields: seq<Field>, number: Tag, value: string)
    ensures Unique(fields) ==> Unique(SetIn(fields, number, value))
    ensures forall tag {:trigger GetIn(SetIn(fields, number, value), tag)} ::
              GetIn(SetIn(fields, number, value), tag) == if tag == number then Some(value) else GetIn(fields, tag)
    ensures forall d {:trigger FieldsEncodable(SetIn(fields, number, value), d)} ::
              FieldsEncodable(fields, d) && FieldEncodable(Field(number, value), d)
              ==> FieldsEncodable(SetIn(fields, number, value), d)
  {
    var fields' := SetIn(fields, number, value);
    if Unique(fields) {
      SetUnique(fields, number, value);
    }
    forall tag: Tag
      ensures GetIn(fields', tag) == if tag == number then Some(value) else GetIn(fields, tag)
    {
      GetOfSet(fields, number, value, tag);
    }
    forall d | FieldsEncodable(fields, d) && FieldEncodable(Field(number, value), d)
      ensures FieldsEncodable(fields', d)
    {
      forall i | 0 <= i < |fields'|
        ensures FieldEncodable(fields'[i], d)
      {
        assert i < |fields| ==> FieldEncodable(fields[i], d);
      }
    }
  }

  function PutOptional(fields: seq<Field>, number: Tag, value: Option<string>): (r: seq<Field>)
    ensures Unique(fields) ==> Unique(r)
    ensures forall tag {:trigger GetIn(r, tag)} ::
              GetIn(r, tag) == if tag == number && value.Some? then value else GetIn(fields, tag)
    ensures forall d {:trigger FieldsEncodable(r, d)} ::
              FieldsEncodable(fields, d) && (value.Some? ==> FieldEncodable(Field(number, value.value), d))
              ==> FieldsEncodable(r, d)
  {
    match value
    case None => fields
    case Some(v) => Put(fields, number, v)
  }

  // ---------- written messages ----------

  function Printed(n: Option<U64>): Option<string>
  {
    match n
    case None => None
    case Some(v) => Some(Decimal.Print(v))
  }

  /** The fields of an order's terms; a replace names the original after its own id. */
  function TermsFields(t: Terms, orig: Option<U64>): seq<Field>
  {
    var f := Put([], ACCOUNT, Decimal.Print(t.account));
    var f := Put(f, CL_ORD_ID, Decimal.Print(t.clOrdId));
    var f := PutOptional(f, ORIG_CL_ORD_ID, Printed(orig));
    var f := Put(f, SECURITY_ID, Decimal.Print(t.securityId));
    var f := Put(f, SYMBOL, t.symbol);
    var f := Put(f, SECURITY_EXCHANGE, t.exchange);
    var f := Put(f, SIDE, [NormalizeSide(t.side)]);
    var f := Put(f, ORD_TYPE, [NormalizeOrdType(t.ordType)]);
    var f := Put(f, TIME_IN_FORCE, [NormalizeTimeInForce(t.timeInForce)]);
    var f := Put(f, ORDER_QTY, Decimal.Print(t.orderQty));
    Put(f, PRICE, Decimal.Print(t.price))
  }

  function CancelFields(account: U64, clOrdId: U64, origClOrdId: U64): seq<Field>
  {
    var f := Put([], ACCOUNT, Decimal.Print(account));
    var f := Put(f, CL_ORD_ID, Decimal.Print(clOrdId));
    Put(f, ORIG_CL_ORD_ID, Decimal.Print(origClOrdId))
  }

  function ReasonCode(reason: Option<RejectReason>): Option<string>
  {
    match reason
    case None => None
    case Some(r) => Some(Decimal.Print(NormalizeRejectReason(r)))
  }

  function NonEmpty(text: string): Option<string>
  {
    if text == "" then None else Some(text)
  }

  function ReportFields(e: FixEvent): seq<Field>
    requires e.FixReport?
  {
    ReportQuantities(ReportIds(e), e)
  }

  function ReportIds(e: FixEvent): seq<Field>
    requires e.FixReport?
  {
    var f := Put([], ACCOUNT, Decimal.Print(e.account));
    var f := Put(f, CL_ORD_ID, Decimal.Print(e.clOrdId));
    var f := PutOptional(f, ORIG_CL_ORD_ID, Printed(e.orig));
    var f := Put(f, ORDER_ID, Decimal.Print(e.orderId));
    var f := Put(f, EXEC_ID, Decimal.Print(e.execId));
    var f := Put(f, SECURITY_ID, Decimal.Print(e.securityId));
    var f := Put(f, SYMBOL, e.symbol);
    var f := Put(f, SECURITY_EXCHANGE, e.exchange);
    var f := Put(f, SIDE, [NormalizeSide(e.side)]);
    var f := Put(f, ORD_TYPE, [NormalizeOrdType(e.ordType)]);
    var f := Put(f, TIME_IN_FORCE, [NormalizeTimeInForce(e.timeInForce)]);
    var f := Put(f, EXEC_TYPE, [NormalizeExecType(e.execType)]);
    Put(f, ORD_STATUS, [NormalizeOrdStatus(e.ordStatus)])
  }

  function ReportQuantities(fields: seq<Field>, e: FixEvent): seq<Field>
    requires e.FixReport?
  {
    var f := Put(fields, ORDER_QTY, Decimal.Print(e.orderQty));
    var f := Put(f, CUM_QTY, Decimal.Print(e.cumQty));
    var f := Put(f, LEAVES_QTY, Decimal.Print(e.leavesQty));
    var f := PutOptional(f, LAST_QTY, Printed(e.lastQty));
    var f := PutOptional(f, LAST_PX, Printed(e.lastPx));
    var f := PutOptional(f, AVG_PX, Printed(e.avgPx));
    var f := Put(f, TRANSACT_TIME, Decimal.Print(e.transactTime));
    var f := PutOptional(f, CXL_REJ_REASON, ReasonCode(e.rejectReason));
    PutOptional(f, TEXT, NonEmpty(e.text))
  }

  function CancelRejectFields(e: FixEvent): seq<Field>
    requires e.FixCancelReject?
  {
    var f := CancelFields(e.account, e.clOrdId, e.origClOrdId);
    var f := Put(f, CXL_REJ_REASON, Decimal.Print(NormalizeRejectReason(e.reason)));
    var f := Put(f, TRANSACT_TIME, Decimal.Print(e.transactTime));
    PutOptional(f, TEXT, NonEmpty(e.text))
  }

  function RequestMessage(r: FixRequest): Msg
  {
    match r
    case NewOrderSingle(t) => Msg(NEW_ORDER_SINGLE, TermsFields(t, None))
    case OrderCancelReplaceRequest(t, orig) => Msg(ORDER_CANCEL_REPLACE_REQUEST, TermsFields(t, Some(orig)))
    case OrderCancelRequest(account, clOrdId, orig) => Msg(ORDER_CANCEL_REQUEST, CancelFields(account, clOrdId, orig))
  }

  function EventMessage(e: FixEvent): Msg
  {
    if e.FixReport? then Msg(EXECUTION_REPORT, ReportFields(e)) else Msg(ORDER_CANCEL_REJECT, CancelRejectFields(e))
  }

  // ---------- reading ----------

  function RequiredText(m: Msg, tag: Tag): Result<string, DecodeError>
  {
    match GetIn(m.fields, tag)
    case None => Err(Missing(tag))
    case Some(value) => if value == "" then Err(Empty(tag)) else Ok(value)
  }

  function RequiredNumber(m: Msg, tag: Tag, limit: nat): Result<nat, DecodeError>
  {
    var value :- RequiredText(m, tag);
    match Decimal.Parse(value, limit)
    case None => Err(NotANumber(tag))
    case Some(n) => Ok(n)
  }

  function RequiredU64(m: Msg, tag: Tag): Result<U64, DecodeError>
  {
    var n :- RequiredNumber(m, tag, TWO64);
    Ok(n)
  }

  function RequiredChar(m: Msg, tag: Tag): Result<char, DecodeError>
  {
    var value :- RequiredText(m, tag);
    if |value| != 1 then Err(NotOneCharacter(tag)) else Ok(value[0])
  }

  function RequiredSymbol(m: Msg): Result<Symbol16, DecodeError>
  {
    var value :- RequiredText(m, SYMBOL);
    if |value| > 16 then Err(TooLong(SYMBOL)) else Ok(value)
  }

  function RequiredExchange(m: Msg): Result<Exchange8, DecodeError>
  {
    var value :- RequiredText(m, SECURITY_EXCHANGE);
    if |value| > 8 then Err(TooLong(SECURITY_EXCHANGE)) else Ok(value)
  }

  function OptionalU64(m: Msg, tag: Tag): Result<Option<U64>, DecodeError>
  {
    if GetIn(m.fields, tag) == None then Ok(None)
    else
      var n :- RequiredU64(m, tag);
      Ok(Some(n))
  }

  /** A code that the table does not know is an error of the field. */
  function Coded<T>(r: Result<T, CodeError>): Result<T, DecodeError>
  {
    match r
    case Ok(value) => Ok(value)
    case Err(error) => Err(BadCode(error))
  }

  function OptionalCode(m: Msg): Result<Option<nat>, DecodeError>
  {
    if GetIn(m.fields, CXL_REJ_REASON) == None then Ok(None)
    else
      var code :- RequiredNumber(m, CXL_REJ_REASON, 0x1_0000);
      Ok(Some(code))
  }

  function ReasonOf(code: Option<nat>): Result<Option<RejectReason>, DecodeError>
  {
    if code == None then Ok(None)
    else
      var reason :- Coded(ParseRejectReason(code.value));
      Ok(Some(reason))
  }

  function OptionalText(m: Msg): Result<string, DecodeError>
  {
    if GetIn(m.fields, TEXT) == None then Ok("") else RequiredText(m, TEXT)
  }

  function DecodeTerms(m: Msg): Result<Terms, DecodeError>
  {
    var sideValue :- RequiredChar(m, SIDE);
    var side :- Coded(ParseSide(sideValue));
    var ordTypeValue :- RequiredChar(m, ORD_TYPE);
    var ordType :- Coded(ParseOrdType(ordTypeValue));
    var timeInForceValue :- RequiredChar(m, TIME_IN_FORCE);
    var timeInForce :- Coded(ParseTimeInForce(timeInForceValue));
    var account :- RequiredU64(m, ACCOUNT);
    var clOrdId :- RequiredU64(m, CL_ORD_ID);
    var securityId :- RequiredU64(m, SECURITY_ID);
    var symbol :- RequiredSymbol(m);
    var exchange :- RequiredExchange(m);
    var orderQty :- RequiredU64(m, ORDER_QTY);
    var price :- RequiredU64(m, PRICE);
    Ok(Terms(account, clOrdId, securityId, symbol, exchange, side, ordType, timeInForce, orderQty, price))
  }

  function DecodeReplace(m: Msg): Result<FixRequest, DecodeError>
  {
    var terms :- DecodeTerms(m);
    var orig :- RequiredU64(m, ORIG_CL_ORD_ID);
    Ok(OrderCancelReplaceRequest(terms, orig))
  }

  function DecodeCancel(m: Msg): Result<FixRequest, DecodeError>
  {
    var account :- RequiredU64(m, ACCOUNT);
    var clOrdId :- RequiredU64(m, CL_ORD_ID);
    var orig :- RequiredU64(m, ORIG_CL_ORD_ID);
    Ok(OrderCancelRequest(account, clOrdId, orig))
  }

  datatype Codes = Codes(side: Side, ordType: OrdType, timeInForce: TimeInForce, execType: ExecType,
      ordStatus: OrdStatus)

  datatype Ids = Ids(account: U64, clOrdId: U64, orig: Option<U64>, orderId: U64, execId: U64, securityId: U64,
                     symbol: Symbol16, exchange: Exchange8)

  datatype Amounts = Amounts(orderQty: U64, cumQty: U64, leavesQty: U64, lastQty: Option<U64>, lastPx: Option<U64>,
                             avgPx: Option<U64>, transactTime: U64)

  function DecodeCodes(m: Msg): Result<Codes, DecodeError>
  {
    var sideValue :- RequiredChar(m, SIDE);
    var side :- Coded(ParseSide(sideValue));
    var ordTypeValue :- RequiredChar(m, ORD_TYPE);
    var ordType :- Coded(ParseOrdType(ordTypeValue));
    var timeInForceValue :- RequiredChar(m, TIME_IN_FORCE);
    var timeInForce :- Coded(ParseTimeInForce(timeInForceValue));
    var execTypeValue :- RequiredChar(m, EXEC_TYPE);
    var execType :- Coded(ParseExecType(execTypeValue));
    var ordStatusValue :- RequiredChar(m, ORD_STATUS);
    var ordStatus :- Coded(ParseOrdStatus(ordStatusValue));
    Ok(Codes(side, ordType, timeInForce, execType, ordStatus))
  }

  function DecodeIds(m: Msg): Result<Ids, DecodeError>
  {
    var account :- RequiredU64(m, ACCOUNT);
    var clOrdId :- RequiredU64(m, CL_ORD_ID);
    var orig :- OptionalU64(m, ORIG_CL_ORD_ID);
    var orderId :- RequiredU64(m, ORDER_ID);
    var execId :- RequiredU64(m, EXEC_ID);
    var securityId :- RequiredU64(m, SECURITY_ID);
    var symbol :- RequiredSymbol(m);
    var exchange :- RequiredExchange(m);
    Ok(Ids(account, clOrdId, orig, orderId, execId, securityId, symbol, exchange))
  }

  function DecodeAmounts(m: Msg): Result<Amounts, DecodeError>
  {
    var orderQty :- RequiredU64(m, ORDER_QTY);
    var cumQty :- RequiredU64(m, CUM_QTY);
    var leavesQty :- RequiredU64(m, LEAVES_QTY);
    var lastQty :- OptionalU64(m, LAST_QTY);
    var lastPx :- OptionalU64(m, LAST_PX);
    var avgPx :- OptionalU64(m, AVG_PX);
    var transactTime :- RequiredU64(m, TRANSACT_TIME);
    Ok(Amounts(orderQty, cumQty, leavesQty, lastQty, lastPx, avgPx, transactTime))
  }

  function DecodeReport(m: Msg): Result<FixEvent, DecodeError>
  {
    var c :- DecodeCodes(m);
    var code :- OptionalCode(m);
    var i :- DecodeIds(m);
    var a :- DecodeAmounts(m);
    var text :- OptionalText(m);
    var rejectReason :- ReasonOf(code);
    Ok(FixReport(i.account, i.clOrdId, i.orig, i.orderId, i.execId, i.securityId, i.symbol, i.exchange,
                 c.side, c.ordType, c.timeInForce, c.execType, c.ordStatus, a.orderQty, a.cumQty, a.leavesQty,
                 a.lastQty, a.lastPx, a.avgPx, a.transactTime, rejectReason, text))
  }

  function DecodeCancelReject(m: Msg): Result<FixEvent, DecodeError>
  {
    var code :- RequiredNumber(m, CXL_REJ_REASON, 0x1_0000);
    var reason :- Coded(ParseRejectReason(code));
    var account :- RequiredU64(m, ACCOUNT);
    var clOrdId :- RequiredU64(m, CL_ORD_ID);
    var orig :- RequiredU64(m, ORIG_CL_ORD_ID);
    var text :- OptionalText(m);
    var transactTime :- RequiredU64(m, TRANSACT_TIME);
    Ok(FixCancelReject(account, clOrdId, orig, reason, text, transactTime))
  }

  function DecodeRequest(m: Msg): Result<FixRequest, DecodeError>
  {
    if m.msgType == NEW_ORDER_SINGLE then
      var terms :- DecodeTerms(m);
      Ok(FixRequest.NewOrderSingle(terms))
    else if m.msgType == ORDER_CANCEL_REPLACE_REQUEST then DecodeReplace(m)
    else if m.msgType == ORDER_CANCEL_REQUEST then DecodeCancel(m)
    else Err(UnsupportedMessage(m.msgType))
  }

  function DecodeEvent(m: Msg): Result<FixEvent, DecodeError>
  {
    if m.msgType == EXECUTION_REPORT then DecodeReport(m)
    else if m.msgType == ORDER_CANCEL_REJECT then DecodeCancelReject(m)
    else Err(UnsupportedMessage(m.msgType))
  }

  // ---------- fields that hold a value ----------

  predicate Holds(m: Msg, tag: Tag, value: Option<string>)
  {
    GetIn(m.fields, tag) == value
  }

  lemma ReadsU64(m: Msg, tag: Tag, n: U64)
    requires Holds(m, tag, Some(Decimal.Print(n)))
    ensures RequiredU64(m, tag) == Ok(n)
  {
    Decimal.ParseOfPrint(n, TWO64);
  }

  lemma ReadsOptionalU64(m: Msg, tag: Tag, n: Option<U64>)
    requires Holds(m, tag, Printed(n))
    ensures OptionalU64(m, tag) == Ok(n)
  {
    if n.Some? {
      ReadsU64(m, tag, n.value);
    }
  }

  lemma ReadsChar(m: Msg, tag: Tag, c: char)
    requires Holds(m, tag, Some([c]))
    ensures RequiredChar(m, tag) == Ok(c)
  {
  }

  lemma ReadsCode(m: Msg, code: nat)
    requires code < 0x1_0000 && Holds(m, CXL_REJ_REASON, Some(Decimal.Print(code)))
    ensures RequiredNumber(m, CXL_REJ_REASON, 0x1_0000) == Ok(code)
  {
    Decimal.ParseOfPrint(code, 0x1_0000);
  }

  /** A symbol reads back as itself unless it is empty. */
  lemma ReadsSymbol(m: Msg, symbol: Symbol16)
    requires Holds(m, SYMBOL, Some(symbol))
    ensures RequiredSymbol(m) == if symbol == "" then Err(Empty(SYMBOL)) else Ok(symbol)
  {
  }

  lemma ReadsExchange(m: Msg, exchange: Exchange8)
    requires Holds(m, SECURITY_EXCHANGE, Some(exchange))
    ensures RequiredExchange(m) == if exchange == "" then Err(Empty(SECURITY_EXCHANGE)) else Ok(exchange)
  {
  }

  lemma NoFields()
    ensures forall tag {:trigger GetIn([], tag)} :: GetIn([], tag) == None
  {
  }

  // ---------- requests ----------

  /** Side, type and time in force, wherever they are written. */
  predicate HoldsCodes(m: Msg, side: Side, ordType: OrdType, timeInForce: TimeInForce)
  {
    && Holds(m, SIDE, Some([NormalizeSide(side)]))
    && Holds(m, ORD_TYPE, Some([NormalizeOrdType(ordType)]))
    && Holds(m, TIME_IN_FORCE, Some([NormalizeTimeInForce(timeInForce)]))
  }

  predicate HoldsTerms(m: Msg, t: Terms)
  {
    && HoldsCodes(m, t.side, t.ordType, t.timeInForce)
    && Holds(m, ACCOUNT, Some(Decimal.Print(t.account)))
    && Holds(m, CL_ORD_ID, Some(Decimal.Print(t.clOrdId)))
    && Holds(m, SECURITY_ID, Some(Decimal.Print(t.securityId)))
    && Holds(m, SYMBOL, Some(t.symbol))
    && Holds(m, SECURITY_EXCHANGE, Some(t.exchange))
    && Holds(m, ORDER_QTY, Some(Decimal.Print(t.orderQty)))
    && Holds(m, PRICE, Some(Decimal.Print(t.price)))
  }

  lemma TermsHeld(m: Msg, t: Terms, orig: Option<U64>)
    requires m.fields == TermsFields(t, orig)
    ensures HoldsTerms(m, t) && Holds(m, ORIG_CL_ORD_ID, Printed(orig))
  {
    hide SetIn, GetIn, Put, PutOptional, FieldsEncodable, Unique, Decimal.Print;
    NoFields();
  }

  predicate TermsSendable(t: Terms)
  {
    t.symbol != "" && t.exchange != ""
  }

  lemma TermsRead(m: Msg, t: Terms)
    requires HoldsTerms(m, t)
    ensures TermsSendable(t) ==> DecodeTerms(m) == Ok(t)
    ensures !TermsSendable(t) ==> DecodeTerms(m).Err?
  {
    hide RequiredU64, RequiredChar, RequiredSymbol, RequiredExchange, GetIn, Decimal.Print;
    ReadsChar(m, SIDE, NormalizeSide(t.side));
    ReadsChar(m, ORD_TYPE, NormalizeOrdType(t.ordType));
    ReadsChar(m, TIME_IN_FORCE, NormalizeTimeInForce(t.timeInForce));
    ReadsU64(m, ACCOUNT, t.account);
    ReadsU64(m, CL_ORD_ID, t.clOrdId);
    ReadsU64(m, SECURITY_ID, t.securityId);
    ReadsSymbol(m, t.symbol);
    ReadsExchange(m, t.exchange);
    ReadsU64(m, ORDER_QTY, t.orderQty);
    ReadsU64(m, PRICE, t.price);
  }

  predicate RequestSendable(r: FixRequest)
  {
    r.OrderCancelRequest? || TermsSendable(r.terms)
  }

  lemma CancelHeld(m: Msg, account: U64, clOrdId: U64, orig: U64)
    requires m.fields == CancelFields(account, clOrdId, orig)
    ensures Holds(m, ACCOUNT, Some(Decimal.Print(account)))
    ensures Holds(m, CL_ORD_ID, Some(Decimal.Print(clOrdId)))
    ensures Holds(m, ORIG_CL_ORD_ID, Some(Decimal.Print(orig)))
  {
    hide SetIn, GetIn, Put, PutOptional, FieldsEncodable, Unique, Decimal.Print;
  }

  lemma CancelRead(m: Msg, account: U64, clOrdId: U64, orig: U64)
    requires m.fields == CancelFields(account, clOrdId, orig)
    ensures DecodeCancel(m) == Ok(OrderCancelRequest(account, clOrdId, orig))
  {
    CancelHeld(m, account, clOrdId, orig);
    ReadsU64(m, ACCOUNT, account);
    ReadsU64(m, CL_ORD_ID, clOrdId);
    ReadsU64(m, ORIG_CL_ORD_ID, orig);
  }

  /** The acceptor reads every request as the initiator wrote it, except those with an empty symbol or exchange. */
  lemma RequestRoundTrip(r: FixRequest)
    ensures DecodeRequest(RequestMessage(r)) == Ok(r) <==> RequestSendable(r)
  {
    hide GetIn, TermsFields, CancelFields, DecodeTerms, DecodeCancel, RequiredU64, Decimal.Print, HoldsTerms;
    var m := RequestMessage(r);
    match r
    case NewOrderSingle(t) =>
      TermsHeld(m, t, None);
      TermsRead(m, t);
    case OrderCancelReplaceRequest(t, orig) =>
      TermsHeld(m, t, Some(orig));
      TermsRead(m, t);
      ReadsU64(m, ORIG_CL_ORD_ID, orig);
    case OrderCancelRequest(account, clOrdId, orig) => CancelRead(m, account, clOrdId, orig);
  }

  // ---------- events ----------

  predicate HoldsIds(m: Msg, e: FixEvent)
    requires e.FixReport?
  {
    && Holds(m, ACCOUNT, Some(Decimal.Print(e.account)))
    && Holds(m, CL_ORD_ID, Some(Decimal.Print(e.clOrdId)))
    && Holds(m, ORIG_CL_ORD_ID, Printed(e.orig))
    && Holds(m, ORDER_ID, Some(Decimal.Print(e.orderId)))
    && Holds(m, EXEC_ID, Some(Decimal.Print(e.execId)))
    && Holds(m, SECURITY_ID, Some(Decimal.Print(e.securityId)))
    && Holds(m, SYMBOL, Some(e.symbol))
    && Holds(m, SECURITY_EXCHANGE, Some(e.exchange))
    && HoldsCodes(m, e.side, e.ordType, e.timeInForce)
    && Holds(m, EXEC_TYPE, Some([NormalizeExecType(e.execType)]))
    && Holds(m, ORD_STATUS, Some([NormalizeOrdStatus(e.ordStatus)]))
  }

  predicate HoldsQuantities(m: Msg, e: FixEvent)
    requires e.FixReport?
  {
    && Holds(m, ORDER_QTY, Some(Decimal.Print(e.orderQty)))
    && Holds(m, CUM_QTY, Some(Decimal.Print(e.cumQty)))
    && Holds(m, LEAVES_QTY, Some(Decimal.Print(e.leavesQty)))
    && Holds(m, LAST_QTY, Printed(e.lastQty))
    && Holds(m, LAST_PX, Printed(e.lastPx))
    && Holds(m, AVG_PX, Printed(e.avgPx))
    && Holds(m, TRANSACT_TIME, Some(Decimal.Print(e.transactTime)))
    && Holds(m, CXL_REJ_REASON, ReasonCode(e.rejectReason))
    && Holds(m, TEXT, NonEmpty(e.text))
  }

  predicate QuantityTag(tag: Tag)
  {
    tag in {ORDER_QTY, CUM_QTY, LEAVES_QTY, LAST_QTY, LAST_PX, AVG_PX, TRANSACT_TIME, CXL_REJ_REASON, TEXT}
  }

  lemma IdsHeld(m: Msg, e: FixEvent)
    requires e.FixReport? && m.fields == ReportIds(e)
    ensures HoldsIds(m, e)
    ensures forall tag {:trigger GetIn(m.fields, tag)} :: QuantityTag(tag) ==> GetIn(m.fields, tag) == None
  {
    hide SetIn, GetIn, Put, PutOptional, FieldsEncodable, Unique, Decimal.Print;
    NoFields();
  }

  lemma QuantitiesHeld(fields: seq<Field>, m: Msg, e: FixEvent)
    requires e.FixReport? && m.fields == ReportQuantities(fields, e)
    requires forall tag {:trigger GetIn(fields, tag)} :: QuantityTag(tag) ==> GetIn(fields, tag) == None
    ensures HoldsQuantities(m, e)
    ensures forall tag {:trigger GetIn(m.fields, tag)} ::
              !QuantityTag(tag) ==> GetIn(m.fields, tag) == GetIn(fields, tag)
  {
    hide SetIn, GetIn, Put, PutOptional, FieldsEncodable, Unique, Decimal.Print;
  }

  lemma ReportHeld(m: Msg, e: FixEvent)
    requires e.FixReport? && m.fields == ReportFields(e)
    ensures HoldsIds(m, e) && HoldsQuantities(m, e)
  {
    hide GetIn, ReportIds, ReportQuantities, Decimal.Print;
    IdsHeld(Msg(m.msgType, ReportIds(e)), e);
    QuantitiesHeld(ReportIds(e), m, e);
  }

  predicate EventSendable(e: FixEvent)
  {
    if e.FixReport? then e.symbol != "" && e.exchange != "" && e.rejectReason != Some(UnknownSymbol)
    else e.reason != UnknownSymbol
  }

  lemma ReasonRead(m: Msg, reason: Option<RejectReason>)
    requires Holds(m, CXL_REJ_REASON, ReasonCode(reason))
    ensures OptionalCode(m).Ok?
    ensures ReasonOf(OptionalCode(m).value) == Ok(if reason == Some(UnknownSymbol) then Some(UnknownOrder) else reason)
  {
    if reason.Some? {
      ReadsCode(m, NormalizeRejectReason(reason.value));
      ReasonInverts(reason.value);
    }
  }

  lemma TextRead(m: Msg, text: string)
    requires Holds(m, TEXT, NonEmpty(text))
    ensures OptionalText(m) == Ok(text)
  {
  }

  lemma CodesHeld(m: Msg, e: FixEvent)
    requires e.FixReport? && HoldsIds(m, e)
    ensures Holds(m, SIDE, Some([NormalizeSide(e.side)]))
    ensures Holds(m, ORD_TYPE, Some([NormalizeOrdType(e.ordType)]))
    ensures Holds(m, TIME_IN_FORCE, Some([NormalizeTimeInForce(e.timeInForce)]))
    ensures Holds(m, EXEC_TYPE, Some([NormalizeExecType(e.execType)]))
    ensures Holds(m, ORD_STATUS, Some([NormalizeOrdStatus(e.ordStatus)]))
  {
    hide GetIn;
  }

  lemma CodesRead(m: Msg, e: FixEvent)
    requires e.FixReport? && HoldsIds(m, e)
    ensures DecodeCodes(m) == Ok(Codes(e.side, e.ordType, e.timeInForce, e.execType, e.ordStatus))
  {
    hide RequiredChar, HoldsCodes, Holds, GetIn, Decimal.Print, Printed;
    CodesHeld(m, e);
    ReadsChar(m, SIDE, NormalizeSide(e.side));
    ReadsChar(m, ORD_TYPE, NormalizeOrdType(e.ordType));
    ReadsChar(m, TIME_IN_FORCE, NormalizeTimeInForce(e.timeInForce));
    ReadsChar(m, EXEC_TYPE, NormalizeExecType(e.execType));
    ReadsChar(m, ORD_STATUS, NormalizeOrdStatus(e.ordStatus));
  }

  lemma IdsRead(m: Msg, e: FixEvent)
    requires e.FixReport? && HoldsIds(m, e)
    ensures if e.symbol == "" || e.exchange == "" then DecodeIds(m).Err?
            else DecodeIds(m) == Ok(Ids(e.account, e.clOrdId, e.orig, e.orderId, e.execId, e.securityId, e.symbol,
                e.exchange))
  {
    hide RequiredU64, OptionalU64, RequiredSymbol, RequiredExchange, GetIn;
    ReadsU64(m, ACCOUNT, e.account);
    ReadsU64(m, CL_ORD_ID, e.clOrdId);
    ReadsOptionalU64(m, ORIG_CL_ORD_ID, e.orig);
    ReadsU64(m, ORDER_ID, e.orderId);
    ReadsU64(m, EXEC_ID, e.execId);
    ReadsU64(m, SECURITY_ID, e.securityId);
    ReadsSymbol(m, e.symbol);
    ReadsExchange(m, e.exchange);
  }

  lemma AmountsRead(m: Msg, e: FixEvent)
    requires e.FixReport? && HoldsQuantities(m, e)
    ensures DecodeAmounts(m)
         == Ok(Amounts(e.orderQty, e.cumQty, e.leavesQty, e.lastQty, e.lastPx, e.avgPx, e.transactTime))
  {
    hide RequiredU64, OptionalU64, GetIn;
    ReadsU64(m, ORDER_QTY, e.orderQty);
    ReadsU64(m, CUM_QTY, e.cumQty);
    ReadsU64(m, LEAVES_QTY, e.leavesQty);
    ReadsOptionalU64(m, LAST_QTY, e.lastQty);
    ReadsOptionalU64(m, LAST_PX, e.lastPx);
    ReadsOptionalU64(m, AVG_PX, e.avgPx);
    ReadsU64(m, TRANSACT_TIME, e.transactTime);
  }

  /** Every field of a report is read back; a shared reject code comes back as the other reason. */
  lemma ReportRead(m: Msg, e: FixEvent)
    requires e.FixReport? && HoldsIds(m, e) && HoldsQuantities(m, e)
    ensures e.symbol != "" && e.exchange != "" ==>
              DecodeReport(m) == Ok(if e.rejectReason == Some(UnknownSymbol)
                  then e.(rejectReason := Some(UnknownOrder)) else e)
    ensures e.symbol == "" || e.exchange == "" ==> DecodeReport(m).Err?
  {
    hide DecodeCodes, DecodeIds, DecodeAmounts, OptionalCode, ReasonOf, OptionalText, GetIn, Decimal.Print;
    CodesRead(m, e);
    ReasonRead(m, e.rejectReason);
    IdsRead(m, e);
    AmountsRead(m, e);
    TextRead(m, e.text);
  }

  lemma CancelRejectHeld(m: Msg, e: FixEvent)
    requires e.FixCancelReject? && m.fields == CancelRejectFields(e)
    ensures Holds(m, ACCOUNT, Some(Decimal.Print(e.account)))
    ensures Holds(m, CL_ORD_ID, Some(Decimal.Print(e.clOrdId)))
    ensures Holds(m, ORIG_CL_ORD_ID, Some(Decimal.Print(e.origClOrdId)))
    ensures Holds(m, CXL_REJ_REASON, Some(Decimal.Print(NormalizeRejectReason(e.reason))))
    ensures Holds(m, TRANSACT_TIME, Some(Decimal.Print(e.transactTime)))
    ensures Holds(m, TEXT, NonEmpty(e.text))
  {
    hide SetIn, GetIn, Put, PutOptional, FieldsEncodable, Unique, Decimal.Print;
    NoFields();
  }

  lemma CancelRejectRead(m: Msg, e: FixEvent)
    requires e.FixCancelReject? && m.fields == CancelRejectFields(e)
    ensures DecodeCancelReject(m) == Ok(if e.reason == UnknownSymbol then e.(reason := UnknownOrder) else e)
  {
    hide RequiredU64, RequiredNumber, OptionalText, GetIn, CancelRejectFields, Decimal.Print;
    CancelRejectHeld(m, e);
    ReadsCode(m, NormalizeRejectReason(e.reason));
    ReasonInverts(e.reason);
    ReadsU64(m, ACCOUNT, e.account);
    ReadsU64(m, CL_ORD_ID, e.clOrdId);
    ReadsU64(m, ORIG_CL_ORD_ID, e.origClOrdId);
    TextRead(m, e.text);
    ReadsU64(m, TRANSACT_TIME, e.transactTime);
  }

  /** The initiator reads every event as the acceptor wrote it, except the shared reject code and empty strings. */
  lemma EventRoundTrip(e: FixEvent)
    ensures DecodeEvent(EventMessage(e)) == Ok(e) <==> EventSendable(e)
  {
    hide ReportFields, CancelRejectFields, DecodeReport, DecodeCancelReject, HoldsIds, HoldsQuantities;
    var m := EventMessage(e);
    if e.FixReport? {
      ReportHeld(m, e);
      ReportRead(m, e);
    } else {
      CancelRejectRead(m, e);
    }
  }

  /** Whatever message was read, the request could have been written: the readable requests are the sendable ones. */
  lemma ReadRequestsAreSendable(m: Msg)
    requires DecodeRequest(m).Ok?
    ensures RequestSendable(DecodeRequest(m).value)
    ensures DecodeRequest(RequestMessage(DecodeRequest(m).value)) == DecodeRequest(m)
  {
    hide GetIn, RequiredU64, RequiredChar, Coded, RequestMessage;
    RequestRoundTrip(DecodeRequest(m).value);
  }

  lemma ReadEventsAreSendable(m: Msg)
    requires DecodeEvent(m).Ok?
    ensures EventSendable(DecodeEvent(m).value)
    ensures DecodeEvent(EventMessage(DecodeEvent(m).value)) == DecodeEvent(m)
  {
    hide GetIn, RequiredU64, RequiredChar, OptionalU64, OptionalText, OptionalCode, DecodeCodes, DecodeAmounts,
          RequiredNumber, EventMessage;
    EventRoundTrip(DecodeEvent(m).value);
  }

  // ---------- through the text codec ----------

  /** Can a field holding this be written under the delimiter? */
  predicate Writes(tag: Tag, value: string, d: char)
  {
    FieldEncodable(Field(tag, value), d)
  }

  predicate WritesNumber(tag: Tag, n: nat, d: char)
  {
    Writes(tag, Decimal.Print(n), d)
  }

  predicate WritesOptional(tag: Tag, n: Option<U64>, d: char)
  {
    n.Some? ==> WritesNumber(tag, n.value, d)
  }

  predicate TermsWrite(t: Terms, d: char)
  {
    && WritesNumber(ACCOUNT, t.account, d) && WritesNumber(CL_ORD_ID, t.clOrdId, d)
    && WritesNumber(SECURITY_ID, t.securityId, d)
    && Writes(SYMBOL, t.symbol, d) && Writes(SECURITY_EXCHANGE, t.exchange, d)
    && Writes(SIDE, [NormalizeSide(t.side)], d) && Writes(ORD_TYPE, [NormalizeOrdType(t.ordType)], d)
    && Writes(TIME_IN_FORCE, [NormalizeTimeInForce(t.timeInForce)], d)
    && WritesNumber(ORDER_QTY, t.orderQty, d) && WritesNumber(PRICE, t.price, d)
  }

  predicate KeysWrite(account: U64, clOrdId: U64, orig: U64, d: char)
  {
    WritesNumber(ACCOUNT, account, d) && WritesNumber(CL_ORD_ID, clOrdId, d) && WritesNumber(ORIG_CL_ORD_ID, orig, d)
  }

  predicate IdsWrite(e: FixEvent, d: char)
    requires e.FixReport?
  {
    && WritesNumber(ACCOUNT, e.account, d) && WritesNumber(CL_ORD_ID, e.clOrdId, d)
    && WritesOptional(ORIG_CL_ORD_ID, e.orig, d)
    && WritesNumber(ORDER_ID, e.orderId, d) && WritesNumber(EXEC_ID, e.execId, d)
    && WritesNumber(SECURITY_ID, e.securityId, d)
    && Writes(SYMBOL, e.symbol, d) && Writes(SECURITY_EXCHANGE, e.exchange, d)
  }

  predicate CodesWrite(e: FixEvent, d: char)
    requires e.FixReport?
  {
    && Writes(SIDE, [NormalizeSide(e.side)], d) && Writes(ORD_TYPE, [NormalizeOrdType(e.ordType)], d)
    && Writes(TIME_IN_FORCE, [NormalizeTimeInForce(e.timeInForce)], d)
    && Writes(EXEC_TYPE, [NormalizeExecType(e.execType)], d)
    && Writes(ORD_STATUS, [NormalizeOrdStatus(e.ordStatus)], d)
  }

  predicate AmountsWrite(e: FixEvent, d: char)
    requires e.FixReport?
  {
    && WritesNumber(ORDER_QTY, e.orderQty, d) && WritesNumber(CUM_QTY, e.cumQty, d)
    && WritesNumber(LEAVES_QTY, e.leavesQty, d)
    && WritesOptional(LAST_QTY, e.lastQty, d) && WritesOptional(LAST_PX, e.lastPx, d)
    && WritesOptional(AVG_PX, e.avgPx, d) && WritesNumber(TRANSACT_TIME, e.transactTime, d)
  }

  predicate TextWrites(text: string, d: char)
  {
    text != "" ==> Writes(TEXT, text, d)
  }

  predicate ReasonWrites(reason: Option<RejectReason>, d: char)
  {
    reason.Some? ==> WritesNumber(CXL_REJ_REASON, NormalizeRejectReason(reason.value), d)
  }

  // What is written field by field is an encodable list.

  lemma TermsEncodable(t: Terms, orig: Option<U64>, d: char)
    requires TermsWrite(t, d) && WritesOptional(ORIG_CL_ORD_ID, orig, d)
    ensures FieldsEncodable(TermsFields(t, orig), d)
  {
    hide SetIn, GetIn, Put, PutOptional, FieldsEncodable, FieldEncodable, Unique, Decimal.Print;
    NothingEncodable(d);
  }

  lemma KeysEncodable(account: U64, clOrdId: U64, orig: U64, d: char)
    requires KeysWrite(account, clOrdId, orig, d)
    ensures FieldsEncodable(CancelFields(account, clOrdId, orig), d)
  {
    hide SetIn, GetIn, Put, PutOptional, FieldsEncodable, FieldEncodable, Unique, Decimal.Print;
    NothingEncodable(d);
  }

  lemma ReportEncodable(e: FixEvent, d: char)
    requires e.FixReport? && IdsWrite(e, d) && CodesWrite(e, d) && AmountsWrite(e, d)
    requires TextWrites(e.text, d) && ReasonWrites(e.rejectReason, d)
    ensures FieldsEncodable(ReportFields(e), d)
  {
    hide SetIn, GetIn, Put, PutOptional, FieldsEncodable, FieldEncodable, Unique, Decimal.Print;
    NothingEncodable(d);
  }

  lemma CancelRejectEncodable(e: FixEvent, d: char)
    requires e.FixCancelReject? && KeysWrite(e.account, e.clOrdId, e.origClOrdId, d)
    requires WritesNumber(TRANSACT_TIME, e.transactTime, d) && TextWrites(e.text, d) && ReasonWrites(Some(e.reason), d)
    ensures FieldsEncodable(CancelRejectFields(e), d)
  {
    hide SetIn, GetIn, Put, PutOptional, FieldsEncodable, FieldEncodable, Unique, Decimal.Print, CancelFields;
    KeysEncodable(e.account, e.clOrdId, e.origClOrdId, d);
  }

  lemma NothingEncodable(d: char)
    ensures FieldsEncodable([], d)
  {
  }

  // What was read out of encodable fields can be written.

  lemma ReadWrites(m: Msg, tag: Tag, d: char)
    requires FieldsEncodable(m.fields, d) && GetIn(m.fields, tag).Some?
    ensures Writes(tag, GetIn(m.fields, tag).value, d)
  {
    assert FieldEncodable(m.fields[FindTag(m.fields, tag)], d);
  }

  /** Any spelling of a number holds every character of its print. */
  lemma ReadNumberWrites(m: Msg, tag: Tag, limit: nat, d: char)
    requires FieldsEncodable(m.fields, d) && RequiredNumber(m, tag, limit).Ok?
    ensures WritesNumber(tag, RequiredNumber(m, tag, limit).value, d)
  {
    ReadWrites(m, tag, d);
    Decimal.PrintWithin(GetIn(m.fields, tag).value);
  }

  lemma ReadU64Writes(m: Msg, tag: Tag, d: char)
    requires FieldsEncodable(m.fields, d) && RequiredU64(m, tag).Ok?
    ensures WritesNumber(tag, RequiredU64(m, tag).value, d)
  {
    ReadNumberWrites(m, tag, TWO64, d);
  }

  lemma ReadOptionalWrites(m: Msg, tag: Tag, d: char)
    requires FieldsEncodable(m.fields, d) && OptionalU64(m, tag).Ok?
    ensures WritesOptional(tag, OptionalU64(m, tag).value, d)
  {
    if GetIn(m.fields, tag).Some? {
      ReadU64Writes(m, tag, d);
    }
  }

  lemma ReadCharWrites(m: Msg, tag: Tag, d: char)
    requires FieldsEncodable(m.fields, d) && RequiredChar(m, tag).Ok?
    ensures Writes(tag, [RequiredChar(m, tag).value], d)
  {
    ReadWrites(m, tag, d);
    assert GetIn(m.fields, tag).value == [RequiredChar(m, tag).value];
  }

  lemma ReadStringsWrite(m: Msg, d: char)
    requires FieldsEncodable(m.fields, d)
    ensures RequiredSymbol(m).Ok? ==> Writes(SYMBOL, RequiredSymbol(m).value, d)
    ensures RequiredExchange(m).Ok? ==> Writes(SECURITY_EXCHANGE, RequiredExchange(m).value, d)
    ensures OptionalText(m).Ok? ==> TextWrites(OptionalText(m).value, d)
  {
    if GetIn(m.fields, SYMBOL).Some? { ReadWrites(m, SYMBOL, d); }
    if GetIn(m.fields, SECURITY_EXCHANGE).Some? { ReadWrites(m, SECURITY_EXCHANGE, d); }
    if GetIn(m.fields, TEXT).Some? { ReadWrites(m, TEXT, d); }
  }

  lemma ReadReasonWrites(m: Msg, d: char)
    requires FieldsEncodable(m.fields, d)
    ensures OptionalCode(m).Ok? && ReasonOf(OptionalCode(m).value).Ok?
        ==> ReasonWrites(ReasonOf(OptionalCode(m).value).value, d)
  {
    if OptionalCode(m).Ok? && OptionalCode(m).value.Some? {
      ReadNumberWrites(m, CXL_REJ_REASON, 0x1_0000, d);
    }
  }

  lemma ReadTermsWrite(m: Msg, d: char)
    requires FieldsEncodable(m.fields, d) && DecodeTerms(m).Ok?
    ensures TermsWrite(DecodeTerms(m).value, d)
  {
    hide FieldsEncodable, RequiredU64, RequiredChar, RequiredSymbol, RequiredExchange, OptionalText, WritesNumber,
        Writes;
    var t := DecodeTerms(m).value;
    ReadStringsWrite(m, d);
    ReadU64Writes(m, ACCOUNT, d);
    ReadU64Writes(m, CL_ORD_ID, d);
    ReadU64Writes(m, SECURITY_ID, d);
    ReadU64Writes(m, ORDER_QTY, d);
    ReadU64Writes(m, PRICE, d);
    ReadCharWrites(m, SIDE, d);
    ReadCharWrites(m, ORD_TYPE, d);
    ReadCharWrites(m, TIME_IN_FORCE, d);
  }

  lemma ReadKeysWrite(m: Msg, d: char)
    requires FieldsEncodable(m.fields, d) && DecodeCancel(m).Ok?
    ensures var r := DecodeCancel(m).value;
            r.OrderCancelRequest? && KeysWrite(r.account, r.clOrdId, r.origClOrdId, d)
  {
    ReadU64Writes(m, ACCOUNT, d);
    ReadU64Writes(m, CL_ORD_ID, d);
    ReadU64Writes(m, ORIG_CL_ORD_ID, d);
  }

  // ---------- requests over text ----------

  lemma RequestUnique(r: FixRequest)
    ensures Unique(RequestMessage(r).fields)
  {
    hide SetIn, GetIn, Put, PutOptional, FieldsEncodable, FieldEncodable, Decimal.Print;
  }

  /** What reads as the request under some delimiter shows that the request can be written under it. */
  lemma ReadRequestEncodable(m: Msg, r: FixRequest, d: char)
    requires Encodable(m, d) && DecodeRequest(m) == Ok(r)
    ensures Encodable(RequestMessage(r), d)
  {
    hide TermsFields, CancelFields, FieldsEncodable, DecodeTerms, RequiredU64, TermsWrite, KeysWrite, WritesNumber;
    match r
    case NewOrderSingle(t) =>
      ReadTermsWrite(m, d);
      TermsEncodable(t, None, d);
    case OrderCancelReplaceRequest(t, orig) =>
      ReadTermsWrite(m, d);
      ReadU64Writes(m, ORIG_CL_ORD_ID, d);
      TermsEncodable(t, Some(orig), d);
    case OrderCancelRequest(account, clOrdId, orig) =>
      ReadKeysWrite(m, d);
      KeysEncodable(account, clOrdId, orig, d);
  }

  /** Sent as text under a delimiter and read on the other side, does the request arrive as itself? */
  predicate RequestArrives(r: FixRequest, d: char)
  {
    var received := Decoded(Encoded(RequestMessage(r), d), d);
    received.Ok? && DecodeRequest(received.value) == Ok(r)
  }

  /**
   A request passes both codecs exactly when the typed codec allows it and its message can be written under the
   delimiter.
   */
  lemma RequestOverText(r: FixRequest, d: char)
    ensures RequestArrives(r, d) <==> RequestSendable(r) && Encodable(RequestMessage(r), d)
  {
    hide RequestMessage, DecodeRequest, Encodable, Encoded, Decoded, Unique, RequestSendable;
    var m := RequestMessage(r);
    var received := Decoded(Encoded(m, d), d);
    RequestUnique(r);
    if RequestSendable(r) && Encodable(m, d) {
      DecodedOfEncoded(m, d);
      RequestRoundTrip(r);
    }
    if RequestArrives(r, d) {
      DecodedIsEncodable(Encoded(m, d), d);
      ReadRequestsAreSendable(received.value);
      ReadRequestEncodable(received.value, r, d);
    }
  }

  // ---------- events over text ----------

  lemma EventUnique(e: FixEvent)
    ensures Unique(EventMessage(e).fields)
  {
    hide SetIn, GetIn, Put, PutOptional, FieldsEncodable, FieldEncodable, Decimal.Print;
  }

  lemma ReadIdsWrite(m: Msg, e: FixEvent, d: char)
    requires FieldsEncodable(m.fields, d) && DecodeReport(m) == Ok(e)
    ensures e.FixReport? && IdsWrite(e, d)
  {
    hide FieldsEncodable, RequiredU64, OptionalU64, RequiredSymbol, RequiredExchange, OptionalText, WritesNumber,
        Writes, WritesOptional,
         DecodeCodes, DecodeAmounts, OptionalCode, ReasonOf;
    ReadStringsWrite(m, d);
    ReadU64Writes(m, ACCOUNT, d);
    ReadU64Writes(m, CL_ORD_ID, d);
    ReadOptionalWrites(m, ORIG_CL_ORD_ID, d);
    ReadU64Writes(m, ORDER_ID, d);
    ReadU64Writes(m, EXEC_ID, d);
    ReadU64Writes(m, SECURITY_ID, d);
  }

  lemma ReadCodesWrite(m: Msg, e: FixEvent, d: char)
    requires FieldsEncodable(m.fields, d) && DecodeReport(m) == Ok(e)
    ensures e.FixReport? && CodesWrite(e, d)
  {
    hide FieldsEncodable, RequiredChar, OptionalText, Writes, DecodeIds, DecodeAmounts, OptionalCode, ReasonOf;
    ReadCharWrites(m, SIDE, d);
    ReadCharWrites(m, ORD_TYPE, d);
    ReadCharWrites(m, TIME_IN_FORCE, d);
    ReadCharWrites(m, EXEC_TYPE, d);
    ReadCharWrites(m, ORD_STATUS, d);
  }

  lemma ReadAmountsWrite(m: Msg, e: FixEvent, d: char)
    requires FieldsEncodable(m.fields, d) && DecodeReport(m) == Ok(e)
    ensures e.FixReport? && AmountsWrite(e, d)
  {
    hide FieldsEncodable, RequiredU64, OptionalU64, OptionalText, WritesNumber, WritesOptional, DecodeCodes,
        DecodeIds, OptionalCode, ReasonOf;
    ReadU64Writes(m, ORDER_QTY, d);
    ReadU64Writes(m, CUM_QTY, d);
    ReadU64Writes(m, LEAVES_QTY, d);
    ReadOptionalWrites(m, LAST_QTY, d);
    ReadOptionalWrites(m, LAST_PX, d);
    ReadOptionalWrites(m, AVG_PX, d);
    ReadU64Writes(m, TRANSACT_TIME, d);
  }

  lemma ReadReportEncodable(m: Msg, e: FixEvent, d: char)
    requires FieldsEncodable(m.fields, d) && DecodeReport(m) == Ok(e)
    ensures e.FixReport? && FieldsEncodable(ReportFields(e), d)
  {
    hide FieldsEncodable, IdsWrite, CodesWrite, AmountsWrite, TextWrites, ReasonWrites, DecodeCodes, DecodeIds,
        DecodeAmounts,
         OptionalCode, ReasonOf, OptionalText, ReportFields;
    ReadIdsWrite(m, e, d);
    ReadCodesWrite(m, e, d);
    ReadAmountsWrite(m, e, d);
    ReadStringsWrite(m, d);
    ReadReasonWrites(m, d);
    ReportEncodable(e, d);
  }

  lemma ReadCancelRejectEncodable(m: Msg, e: FixEvent, d: char)
    requires FieldsEncodable(m.fields, d) && DecodeCancelReject(m) == Ok(e)
    ensures e.FixCancelReject? && FieldsEncodable(CancelRejectFields(e), d)
  {
    hide FieldsEncodable, RequiredU64, RequiredNumber, OptionalText, CancelRejectFields, WritesNumber, TextWrites;
    ReadU64Writes(m, ACCOUNT, d);
    ReadU64Writes(m, CL_ORD_ID, d);
    ReadU64Writes(m, ORIG_CL_ORD_ID, d);
    ReadU64Writes(m, TRANSACT_TIME, d);
    ReadStringsWrite(m, d);
    ReadNumberWrites(m, CXL_REJ_REASON, 0x1_0000, d);
    CancelRejectEncodable(e, d);
  }

  lemma ReadEventEncodable(m: Msg, e: FixEvent, d: char)
    requires Encodable(m, d) && DecodeEvent(m) == Ok(e)
    ensures Encodable(EventMessage(e), d)
  {
    hide ReportFields, CancelRejectFields, FieldsEncodable, DecodeReport, DecodeCancelReject;
    if m.msgType == EXECUTION_REPORT {
      ReadReportEncodable(m, e, d);
    } else {
      ReadCancelRejectEncodable(m, e, d);
    }
  }

  predicate EventArrives(e: FixEvent, d: char)
  {
    var received := Decoded(Encoded(EventMessage(e), d), d);
    received.Ok? && DecodeEvent(received.value) == Ok(e)
  }

  /**
   An event passes both codecs exactly when the typed codec allows it and its message can be written under the
   delimiter.
   */
  lemma EventOverText(e: FixEvent, d: char)
    ensures EventArrives(e, d) <==> EventSendable(e) && Encodable(EventMessage(e), d)
  {
    hide EventMessage, DecodeEvent, Encodable, Encoded, Decoded, Unique, EventSendable;
    var m := EventMessage(e);
    var received := Decoded(Encoded(m, d), d);
    EventUnique(e);
    if EventSendable(e) && Encodable(m, d) {
      DecodedOfEncoded(m, d);
      EventRoundTrip(e);
    }
    if EventArrives(e, d) {
      DecodedIsEncodable(Encoded(m, d), d);
      ReadEventsAreSendable(received.value);
      ReadEventEncodable(received.value, e, d);
    }
  }

  // ---------- plain delimiters ----------

  /** Neither the syntax nor any number or code uses the delimiter; SOH and '|' qualify. */
  predicate PlainDelimiter(d: char)
  {
    d != '=' && !('0' <= d <= '9') && !('A' <= d <= 'Z')
  }

  lemma PlainWrites(tag: Tag, value: string, d: char)
    requires PlainDelimiter(d)
    ensures tag != MSG_TYPE_TAG && d !in value ==> Writes(tag, value, d)
  {
    assert Decimal.AllDigits(Decimal.Print(tag));
  }

  lemma PlainFields(d: char)
    requires PlainDelimiter(d)
    ensures forall tag, n {:trigger WritesNumber(tag, n, d)} :: tag != MSG_TYPE_TAG ==> WritesNumber(tag, n, d)
    ensures forall tag, value {:trigger Writes(tag, value, d)} ::
              tag != MSG_TYPE_TAG && d !in value ==> Writes(tag, value, d)
  {
    forall tag, n | tag != MSG_TYPE_TAG
      ensures WritesNumber(tag, n, d)
    {
      assert Decimal.AllDigits(Decimal.Print(n));
      PlainWrites(tag, Decimal.Print(n), d);
    }
    forall tag, value | tag != MSG_TYPE_TAG && d !in value
      ensures Writes(tag, value, d)
    {
      PlainWrites(tag, value, d);
    }
  }

  predicate RequestStrings(r: FixRequest, d: char)
  {
    r.OrderCancelRequest? || (d !in r.terms.symbol && d !in r.terms.exchange)
  }

  predicate EventStrings(e: FixEvent, d: char)
  {
    d !in e.text && (e.FixReport? ==> d !in e.symbol && d !in e.exchange)
  }

  /** Under a plain delimiter a sendable request passes both codecs when its strings do not hold the delimiter. */
  lemma PlainRequestOverText(r: FixRequest, d: char)
    requires RequestSendable(r) && PlainDelimiter(d) && RequestStrings(r, d)
    ensures RequestArrives(r, d)
  {
    hide TermsFields, CancelFields, FieldsEncodable, WritesNumber, Writes, RequestArrives;
    PlainFields(d);
    match r {
      case NewOrderSingle(t) => TermsEncodable(t, None, d);
      case OrderCancelReplaceRequest(t, orig) => TermsEncodable(t, Some(orig), d);
      case OrderCancelRequest(account, clOrdId, orig) => KeysEncodable(account, clOrdId, orig, d);
    }
    RequestOverText(r, d);
  }

  lemma PlainEventOverText(e: FixEvent, d: char)
    requires EventSendable(e) && PlainDelimiter(d) && EventStrings(e, d)
    ensures EventArrives(e, d)
  {
    hide ReportFields, CancelRejectFields, FieldsEncodable, WritesNumber, Writes, EventArrives;
    PlainFields(d);
    if e.FixReport? {
      ReportEncodable(e, d);
    } else {
      CancelRejectEncodable(e, d);
    }
    EventOverText(e, d);
  }

  // ---------- building messages in place ----------

  method SetField(message: Message, number: Tag, value: string)
    requires message.Valid()
    modifies message
    ensures message.Valid() && message.fields == Put(old(message.fields), number, value)
  {
    message.Set(number, value);
  }

  method SetOptionalField(message: Message, number: Tag, value: Option<string>)
    requires message.Valid()
    modifies message
    ensures message.Valid() && message.fields == PutOptional(old(message.fields), number, value)
  {
    if value.Some? {
      message.Set(number, value.value);
    }
  }

  method SetTerms(message: Message, t: Terms, orig: Option<U64>)
    requires message.Valid() && message.fields == []
    modifies message
    ensures message.Valid() && message.fields == TermsFields(t, orig)
  {
    hide Put, PutOptional, Unique;
    SetField(message, ACCOUNT, Decimal.Print(t.account));
    SetField(message, CL_ORD_ID, Decimal.Print(t.clOrdId));
    SetOptionalField(message, ORIG_CL_ORD_ID, Printed(orig));
    SetField(message, SECURITY_ID, Decimal.Print(t.securityId));
    SetField(message, SYMBOL, t.symbol);
    SetField(message, SECURITY_EXCHANGE, t.exchange);
    SetField(message, SIDE, [NormalizeSide(t.side)]);
    SetField(message, ORD_TYPE, [NormalizeOrdType(t.ordType)]);
    SetField(message, TIME_IN_FORCE, [NormalizeTimeInForce(t.timeInForce)]);
    SetField(message, ORDER_QTY, Decimal.Print(t.orderQty));
    SetField(message, PRICE, Decimal.Print(t.price));
  }

  method SetCancel(message: Message, account: U64, clOrdId: U64, orig: U64)
    requires message.Valid() && message.fields == []
    modifies message
    ensures message.Valid() && message.fields == CancelFields(account, clOrdId, orig)
  {
    hide Put, PutOptional, Unique;
    SetField(message, ACCOUNT, Decimal.Print(account));
    SetField(message, CL_ORD_ID, Decimal.Print(clOrdId));
    SetField(message, ORIG_CL_ORD_ID, Decimal.Print(orig));
  }

  method SetReportIds(message: Message, e: FixEvent)
    requires e.FixReport? && message.Valid() && message.fields == []
    modifies message
    ensures message.Valid() && message.fields == ReportIds(e)
  {
    hide Put, PutOptional, Unique;
    SetField(message, ACCOUNT, Decimal.Print(e.account));
    SetField(message, CL_ORD_ID, Decimal.Print(e.clOrdId));
    SetOptionalField(message, ORIG_CL_ORD_ID, Printed(e.orig));
    SetField(message, ORDER_ID, Decimal.Print(e.orderId));
    SetField(message, EXEC_ID, Decimal.Print(e.execId));
    SetField(message, SECURITY_ID, Decimal.Print(e.securityId));
    SetField(message, SYMBOL, e.symbol);
    SetField(message, SECURITY_EXCHANGE, e.exchange);
    SetField(message, SIDE, [NormalizeSide(e.side)]);
    SetField(message, ORD_TYPE, [NormalizeOrdType(e.ordType)]);
    SetField(message, TIME_IN_FORCE, [NormalizeTimeInForce(e.timeInForce)]);
    SetField(message, EXEC_TYPE, [NormalizeExecType(e.execType)]);
    SetField(message, ORD_STATUS, [NormalizeOrdStatus(e.ordStatus)]);
  }

  method SetReportQuantities(message: Message, e: FixEvent)
    requires e.FixReport? && message.Valid()
    modifies message
    ensures message.Valid() && message.fields == ReportQuantities(old(message.fields), e)
  {
    hide Put, PutOptional, Unique;
    SetField(message, ORDER_QTY, Decimal.Print(e.orderQty));
    SetField(message, CUM_QTY, Decimal.Print(e.cumQty));
    SetField(message, LEAVES_QTY, Decimal.Print(e.leavesQty));
    SetOptionalField(message, LAST_QTY, Printed(e.lastQty));
    SetOptionalField(message, LAST_PX, Printed(e.lastPx));
    SetOptionalField(message, AVG_PX, Printed(e.avgPx));
    SetField(message, TRANSACT_TIME, Decimal.Print(e.transactTime));
    SetOptionalField(message, CXL_REJ_REASON, ReasonCode(e.rejectReason));
    SetOptionalField(message, TEXT, NonEmpty(e.text));
  }

  method SetCancelReject(message: Message, e: FixEvent)
    requires e.FixCancelReject? && message.Valid() && message.fields == []
    modifies message
    ensures message.Valid() && message.fields == CancelRejectFields(e)
  {
    hide Put, PutOptional, Unique;
    SetCancel(message, e.account, e.clOrdId, e.origClOrdId);
    SetField(message, CXL_REJ_REASON, Decimal.Print(NormalizeRejectReason(e.reason)));
    SetField(message, TRANSACT_TIME, Decimal.Print(e.transactTime));
    SetOptionalField(message, TEXT, NonEmpty(e.text));
  }

  method EncodeRequest(r: FixRequest) returns (message: Message)
    ensures fresh(message) && message.Valid() && message.Value() == RequestMessage(r)
  {
    match r
    case NewOrderSingle(t) =>
      message := new Message(NEW_ORDER_SINGLE);
      SetTerms(message, t, None);
    case OrderCancelReplaceRequest(t, orig) =>
      message := new Message(ORDER_CANCEL_REPLACE_REQUEST);
      SetTerms(message, t, Some(orig));
    case OrderCancelRequest(account, clOrdId, orig) =>
      message := new Message(ORDER_CANCEL_REQUEST);
      SetCancel(message, account, clOrdId, orig);
  }

  method EncodeEvent(e: FixEvent) returns (message: Message)
    ensures fresh(message) && message.Valid() && message.Value() == EventMessage(e)
  {
    if e.FixReport? {
      message := new Message(EXECUTION_REPORT);
      SetReportIds(message, e);
      SetReportQuantities(message, e);
    } else {
      message := new Message(ORDER_CANCEL_REJECT);
      SetCancelReject(message, e);
    }
  }

}
