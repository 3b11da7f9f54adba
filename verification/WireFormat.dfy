/** The exact text of each B3 message, and the exact messages that are read as each request and event. */
module WireFormat {
  import opened Wrappers
  import opened Types
  import opened FixText
  import opened B3Spec
  import opened B3Codec
  import Decimal

  // ---------- the text of a B3 message ----------

  /** The codes of the B3 tables. */
  lemma CodeTables()
    ensures NormalizeSide(Buy) == '1' && NormalizeSide(Sell) == '2'
    ensures NormalizeOrdType(Market) == '1' && NormalizeOrdType(Limit) == '2'
    ensures NormalizeTimeInForce(Day) == '0' && NormalizeTimeInForce(Ioc) == '3'
    ensures NormalizeExecType(ExecType.NewOrder) == '0' && NormalizeExecType(ExecType.Replaced) == '5'
    ensures NormalizeExecType(ExecType.Canceled) == '4' && NormalizeExecType(ExecType.Trade) == 'F'
    ensures NormalizeExecType(ExecType.Rejected) == '8' && NormalizeExecType(ExecType.Expired) == 'C'
    ensures NormalizeOrdStatus(OrdStatus.NewOrder) == '0' && NormalizeOrdStatus(PartiallyFilled) == '1'
    ensures NormalizeOrdStatus(Filled) == '2' && NormalizeOrdStatus(OrdStatus.Canceled) == '4'
    ensures NormalizeOrdStatus(OrdStatus.Replaced) == '5' && NormalizeOrdStatus(OrdStatus.Rejected) == '8'
    ensures NormalizeOrdStatus(OrdStatus.Expired) == 'C'
    ensures NormalizeRejectReason(UnknownOrder) == NormalizeRejectReason(UnknownSymbol) == 1
    ensures NormalizeRejectReason(DuplicateOrder) == 6 && NormalizeRejectReason(UnsupportedRequest) == 99
  {
  }

  lemma {:induction false} FieldsTextSnoc(fields: seq<Field>, f: Field, d: char)
    ensures FieldsText(fields + [f], d) == FieldsText(fields, d) + (FieldText(f.number, f.value) + [d])
    decreases |fields|
  {
    hide FieldText;
    var last := FieldText(f.number, f.value) + [d];
    if fields == [] {
      assert [] + [f] == [f] && [f][1..] == [];
      assert last + "" == last && "" + last == last;
    } else {
      var first := FieldText(fields[0].number, fields[0].value) + [d];
      assert (fields + [f])[0] == fields[0] && (fields + [f])[1..] == fields[1..] + [f];
      FieldsTextSnoc(fields[1..], f, d);
      assert first + (FieldsText(fields[1..], d) + last) == (first + FieldsText(fields[1..], d)) + last;
    }
  }

  /** The tag, written out. */
  predicate Named(tag: Tag, name: string)
  {
    Decimal.Print(tag) + "=" == name
  }

  lemma OneDigit(n: nat)
    requires n < 10
    ensures Named(n, [Decimal.Digit(n), '='])
  {
  }

  lemma TwoDigits(n: nat)
    requires 10 <= n < 100
    ensures Decimal.Print(n) == [Decimal.Digit(n / 10), Decimal.Digit(n % 10)]
    ensures Named(n, [Decimal.Digit(n / 10), Decimal.Digit(n % 10), '='])
  {
  }

  lemma ThreeDigits(n: nat)
    requires 100 <= n < 1000
    ensures Named(n, [Decimal.Digit(n / 100), Decimal.Digit(n / 10 % 10), Decimal.Digit(n % 10), '='])
  {
    TwoDigits(n / 10);
  }

  /** How the tags of requests are written. */
  lemma RequestTags()
    ensures Named(1, "1=") && Named(11, "11=") && Named(38, "38=") && Named(40, "40=") && Named(41, "41=")
    ensures Named(44, "44=") && Named(48, "48=") && Named(54, "54=") && Named(55, "55=") && Named(59, "59=")
    ensures Named(207, "207=")
  {
    hide Named, Decimal.Print;
    OneDigit(1);
    TwoDigits(11);
    TwoDigits(38);
    TwoDigits(40);
    TwoDigits(41);
    TwoDigits(44);
    TwoDigits(48);
    TwoDigits(54);
    TwoDigits(55);
    TwoDigits(59);
    ThreeDigits(207);
  }

  /** How the other tags of events are written. */
  lemma ReportTags()
    ensures Named(6, "6=") && Named(14, "14=") && Named(17, "17=") && Named(31, "31=") && Named(32, "32=")
    ensures Named(37, "37=") && Named(39, "39=") && Named(58, "58=") && Named(60, "60=") && Named(102, "102=")
    ensures Named(150, "150=") && Named(151, "151=")
  {
    hide Named, Decimal.Print;
    OneDigit(6);
    TwoDigits(14);
    TwoDigits(17);
    TwoDigits(31);
    TwoDigits(32);
    TwoDigits(37);
    TwoDigits(39);
    TwoDigits(58);
    TwoDigits(60);
    ThreeDigits(102);
    ThreeDigits(150);
    ThreeDigits(151);
  }

  /** A message of this type with these fields is written as this text. */
  predicate WrittenAs(msgType: string, fields: seq<Field>, text: string, d: char)
  {
    Encoded(Msg(msgType, fields), d) == text
  }

  lemma WrittenType(msgType: string, d: char)
    ensures WrittenAs(msgType, [], "35=" + msgType + [d], d)
  {
    assert Decimal.Print(35) == "35" && "35" + "=" == "35=";
    var head := "35=" + msgType + [d];
    assert head + "" == head;
  }

  /** Setting a field whose tag is new adds its text at the end. */
  lemma Adds(msgType: string, fields: seq<Field>, text: string, tag: Tag, name: string, value: string, d: char)
    returns (fields': seq<Field>, text': string)
    requires WrittenAs(msgType, fields, text, d) && GetIn(fields, tag) == None && Named(tag, name)
    ensures fields' == Put(fields, tag, value) && text' == text + name + value + [d]
    ensures WrittenAs(msgType, fields', text', d)
  {
    fields', text' := Put(fields, tag, value), text + name + value + [d];
    hide FieldsText, Put, Decimal.Print;
    SetNew(fields, tag, value);
    FieldsTextSnoc(fields, Field(tag, value), d);
    var head := FieldText(MSG_TYPE_TAG, msgType) + [d];
    assert head + (FieldsText(fields, d) + (name + value + [d])) == head + FieldsText(fields, d) + name + value + [d];
  }

  /** The text of an optional field. */
  function Also(name: string, value: Option<string>, d: char): string
  {
    match value
    case None => ""
    case Some(v) => name + v + [d]
  }

  lemma AlsoAdds(msgType: string, fields: seq<Field>, text: string, tag: Tag, name: string, value: Option<string>,
                 d: char) returns (fields': seq<Field>, text': string)
    requires WrittenAs(msgType, fields, text, d) && GetIn(fields, tag) == None && Named(tag, name)
    ensures fields' == PutOptional(fields, tag, value) && text' == text + Also(name, value, d)
    ensures WrittenAs(msgType, fields', text', d)
  {
    fields', text' := PutOptional(fields, tag, value), text + Also(name, value, d);
    hide Encoded, Decimal.Print, Put;
    match value
    case None => assert text + "" == text;
    case Some(v) =>
      fields', text' := Adds(msgType, fields, text, tag, name, v, d);
      assert text + name + v + [d] == text + (name + v + [d]);
  }

  /** A new order, or a replace, which names the original after its own id. */
  function OrderText(msgType: string, t: Terms, orig: Option<U64>, d: char): string
  {
    "35=" + msgType + [d] + "1=" + Decimal.Print(t.account) + [d]
    + "11=" + Decimal.Print(t.clOrdId) + [d] + Also("41=", Printed(orig), d)
    + "48=" + Decimal.Print(t.securityId) + [d] + "55=" + t.symbol + [d] + "207=" + t.exchange + [d]
    + "54=" + [NormalizeSide(t.side)] + [d] + "40=" + [NormalizeOrdType(t.ordType)] + [d]
    + "59=" + [NormalizeTimeInForce(t.timeInForce)] + [d] + "38=" + Decimal.Print(t.orderQty) + [d]
    + "44=" + Decimal.Print(t.price) + [d]
  }

  /** A cancel, and the start of a cancel reject. */
  function KeysText(msgType: string, account: U64, clOrdId: U64, orig: U64, d: char): string
  {
    "35=" + msgType + [d] + "1=" + Decimal.Print(account) + [d] + "11=" + Decimal.Print(clOrdId) + [d]
    + "41=" + Decimal.Print(orig) + [d]
  }

  /** The first half of an execution report. */
  function ReportIdsText(e: FixEvent, d: char): string
    requires e.FixReport?
  {
    "35=8" + [d] + "1=" + Decimal.Print(e.account) + [d] + "11=" + Decimal.Print(e.clOrdId) + [d]
    + Also("41=", Printed(e.orig), d) + "37=" + Decimal.Print(e.orderId) + [d]
    + "17=" + Decimal.Print(e.execId) + [d] + "48=" + Decimal.Print(e.securityId) + [d]
    + "55=" + e.symbol + [d] + "207=" + e.exchange + [d] + "54=" + [NormalizeSide(e.side)] + [d]
    + "40=" + [NormalizeOrdType(e.ordType)] + [d] + "59=" + [NormalizeTimeInForce(e.timeInForce)] + [d]
    + "150=" + [NormalizeExecType(e.execType)] + [d] + "39=" + [NormalizeOrdStatus(e.ordStatus)] + [d]
  }

  /** A whole execution report. */
  function ReportText(e: FixEvent, d: char): string
    requires e.FixReport?
  {
    ReportIdsText(e, d) + "38=" + Decimal.Print(e.orderQty) + [d]
    + "14=" + Decimal.Print(e.cumQty) + [d] + "151=" + Decimal.Print(e.leavesQty) + [d]
    + Also("32=", Printed(e.lastQty), d) + Also("31=", Printed(e.lastPx), d)
    + Also("6=", Printed(e.avgPx), d) + "60=" + Decimal.Print(e.transactTime) + [d]
    + Also("102=", ReasonCode(e.rejectReason), d) + Also("58=", NonEmpty(e.text), d)
  }

  /** A cancel reject. */
  function CancelRejectText(e: FixEvent, d: char): string
    requires e.FixCancelReject?
  {
    KeysText("9", e.account, e.clOrdId, e.origClOrdId, d)
    + "102=" + Decimal.Print(NormalizeRejectReason(e.reason)) + [d]
    + "60=" + Decimal.Print(e.transactTime) + [d] + Also("58=", NonEmpty(e.text), d)
  }

  lemma OrderWritten(msgType: string, t: Terms, orig: Option<U64>, d: char)
    ensures WrittenAs(msgType, TermsFields(t, orig), OrderText(msgType, t, orig, d), d)
  {
    hide WrittenAs, Named, GetIn, SetIn, FieldsEncodable, Unique, Encoded, Put, PutOptional, Decimal.Print, Also,
         Printed, ReasonCode, NonEmpty;
    RequestTags();
    NoFields();
    WrittenType(msgType, d);
    var f, text := [], "35=" + msgType + [d];
    f, text := Adds(msgType, f, text, 1, "1=", Decimal.Print(t.account), d);
    f, text := Adds(msgType, f, text, 11, "11=", Decimal.Print(t.clOrdId), d);
    f, text := AlsoAdds(msgType, f, text, 41, "41=", Printed(orig), d);
    f, text := Adds(msgType, f, text, 48, "48=", Decimal.Print(t.securityId), d);
    f, text := Adds(msgType, f, text, 55, "55=", t.symbol, d);
    f, text := Adds(msgType, f, text, 207, "207=", t.exchange, d);
    f, text := Adds(msgType, f, text, 54, "54=", [NormalizeSide(t.side)], d);
    f, text := Adds(msgType, f, text, 40, "40=", [NormalizeOrdType(t.ordType)], d);
    f, text := Adds(msgType, f, text, 59, "59=", [NormalizeTimeInForce(t.timeInForce)], d);
    f, text := Adds(msgType, f, text, 38, "38=", Decimal.Print(t.orderQty), d);
    f, text := Adds(msgType, f, text, 44, "44=", Decimal.Print(t.price), d);
  }

  lemma KeysWritten(msgType: string, account: U64, clOrdId: U64, orig: U64, d: char)
    ensures WrittenAs(msgType, CancelFields(account, clOrdId, orig), KeysText(msgType, account, clOrdId, orig, d), d)
  {
    hide WrittenAs, Named, GetIn, SetIn, FieldsEncodable, Unique, Encoded, Put, PutOptional, Decimal.Print, Also,
         Printed, ReasonCode, NonEmpty;
    RequestTags();
    NoFields();
    WrittenType(msgType, d);
    var f, text := [], "35=" + msgType + [d];
    f, text := Adds(msgType, f, text, 1, "1=", Decimal.Print(account), d);
    f, text := Adds(msgType, f, text, 11, "11=", Decimal.Print(clOrdId), d);
    f, text := Adds(msgType, f, text, 41, "41=", Decimal.Print(orig), d);
  }

  lemma ReportIdsWritten(e: FixEvent, d: char)
    requires e.FixReport?
    ensures WrittenAs("8", ReportIds(e), ReportIdsText(e, d), d)
  {
    hide WrittenAs, Named, GetIn, SetIn, FieldsEncodable, Unique, Encoded, Put, PutOptional, Decimal.Print, Also,
         Printed, ReasonCode, NonEmpty;
    RequestTags();
    ReportTags();
    NoFields();
    assert "35=" + "8" == "35=8";
    WrittenType("8", d);
    var f, text := [], "35=8" + [d];
    f, text := Adds("8", f, text, 1, "1=", Decimal.Print(e.account), d);
    f, text := Adds("8", f, text, 11, "11=", Decimal.Print(e.clOrdId), d);
    f, text := AlsoAdds("8", f, text, 41, "41=", Printed(e.orig), d);
    f, text := Adds("8", f, text, 37, "37=", Decimal.Print(e.orderId), d);
    f, text := Adds("8", f, text, 17, "17=", Decimal.Print(e.execId), d);
    f, text := Adds("8", f, text, 48, "48=", Decimal.Print(e.securityId), d);
    f, text := Adds("8", f, text, 55, "55=", e.symbol, d);
    f, text := Adds("8", f, text, 207, "207=", e.exchange, d);
    f, text := Adds("8", f, text, 54, "54=", [NormalizeSide(e.side)], d);
    f, text := Adds("8", f, text, 40, "40=", [NormalizeOrdType(e.ordType)], d);
    f, text := Adds("8", f, text, 59, "59=", [NormalizeTimeInForce(e.timeInForce)], d);
    f, text := Adds("8", f, text, 150, "150=", [NormalizeExecType(e.execType)], d);
    f, text := Adds("8", f, text, 39, "39=", [NormalizeOrdStatus(e.ordStatus)], d);
  }

  lemma ReportWritten(e: FixEvent, d: char)
    requires e.FixReport?
    ensures WrittenAs("8", ReportFields(e), ReportText(e, d), d)
  {
    hide WrittenAs, Named, GetIn, SetIn, FieldsEncodable, Unique, Encoded, Put, PutOptional, Decimal.Print, Also,
         Printed, ReasonCode, NonEmpty, ReportIds, ReportIdsText, HoldsIds;
    RequestTags();
    ReportTags();
    ReportIdsWritten(e, d);
    IdsHeld(Msg("8", ReportIds(e)), e);
    var f, text := ReportIds(e), ReportIdsText(e, d);
    f, text := Adds("8", f, text, 38, "38=", Decimal.Print(e.orderQty), d);
    f, text := Adds("8", f, text, 14, "14=", Decimal.Print(e.cumQty), d);
    f, text := Adds("8", f, text, 151, "151=", Decimal.Print(e.leavesQty), d);
    f, text := AlsoAdds("8", f, text, 32, "32=", Printed(e.lastQty), d);
    f, text := AlsoAdds("8", f, text, 31, "31=", Printed(e.lastPx), d);
    f, text := AlsoAdds("8", f, text, 6, "6=", Printed(e.avgPx), d);
    f, text := Adds("8", f, text, 60, "60=", Decimal.Print(e.transactTime), d);
    f, text := AlsoAdds("8", f, text, 102, "102=", ReasonCode(e.rejectReason), d);
    f, text := AlsoAdds("8", f, text, 58, "58=", NonEmpty(e.text), d);
  }

  lemma CancelRejectWritten(e: FixEvent, d: char)
    requires e.FixCancelReject?
    ensures WrittenAs("9", CancelRejectFields(e), CancelRejectText(e, d), d)
  {
    hide WrittenAs, Named, GetIn, SetIn, FieldsEncodable, Unique, Encoded, Put, PutOptional, Decimal.Print, Also,
         Printed, ReasonCode, NonEmpty, KeysText;
    RequestTags();
    ReportTags();
    NoFields();
    KeysWritten("9", e.account, e.clOrdId, e.origClOrdId, d);
    var f, text := CancelFields(e.account, e.clOrdId, e.origClOrdId), KeysText("9", e.account, e.clOrdId,
        e.origClOrdId, d);
    f, text := Adds("9", f, text, 102, "102=", Decimal.Print(NormalizeRejectReason(e.reason)), d);
    f, text := Adds("9", f, text, 60, "60=", Decimal.Print(e.transactTime), d);
    f, text := AlsoAdds("9", f, text, 58, "58=", NonEmpty(e.text), d);
  }

  /** The text of every request, byte for byte. */
  lemma RequestText(r: FixRequest, d: char)
    ensures Encoded(RequestMessage(r), d)
         == match r
            case NewOrderSingle(t) => OrderText("D", t, None, d)
            case OrderCancelReplaceRequest(t, orig) => OrderText("G", t, Some(orig), d)
            case OrderCancelRequest(account, clOrdId, orig) => KeysText("F", account, clOrdId, orig, d)
  {
    hide Encoded, OrderText, KeysText, TermsFields, CancelFields;
    match r
    case NewOrderSingle(t) => OrderWritten("D", t, None, d);
    case OrderCancelReplaceRequest(t, orig) => OrderWritten("G", t, Some(orig), d);
    case OrderCancelRequest(account, clOrdId, orig) => KeysWritten("F", account, clOrdId, orig, d);
  }

  /** And of every event. */
  lemma EventText(e: FixEvent, d: char)
    ensures Encoded(EventMessage(e), d) == if e.FixReport? then ReportText(e, d) else CancelRejectText(e, d)
  {
    hide Encoded, ReportText, CancelRejectText, ReportFields, CancelRejectFields;
    if e.FixReport? {
      ReportWritten(e, d);
    } else {
      CancelRejectWritten(e, d);
    }
  }

  // ---------- which messages are read, and as what ----------

  /** The field spells this number, of 64 or, for the reject code, 16 bits. */
  predicate Spelt(m: Msg, tag: Tag, n: nat, limit: nat)
  {
    GetIn(m.fields, tag).Some? && Decimal.Parse(GetIn(m.fields, tag).value, limit) == Some(n)
  }

  predicate Spelt64(m: Msg, tag: Tag, n: U64)
  {
    Spelt(m, tag, n, 0x1_0000_0000_0000_0000)
  }

  predicate MaybeSpelt64(m: Msg, tag: Tag, n: Option<U64>)
  {
    if n.Some? then Spelt64(m, tag, n.value) else GetIn(m.fields, tag) == None
  }

  predicate Letter(m: Msg, tag: Tag, c: char)
  {
    GetIn(m.fields, tag) == Some([c])
  }

  predicate Word(m: Msg, tag: Tag, value: string)
  {
    value != "" && GetIn(m.fields, tag) == Some(value)
  }

  predicate MaybeWord(m: Msg, tag: Tag, value: string)
  {
    if value == "" then GetIn(m.fields, tag) == None else GetIn(m.fields, tag) == Some(value)
  }

  predicate TradingCodes(m: Msg, side: Side, ordType: OrdType, timeInForce: TimeInForce)
  {
    && Letter(m, 54, if side == Buy then '1' else '2')
    && Letter(m, 40, if ordType == Market then '1' else '2')
    && Letter(m, 59, if timeInForce == Day then '0' else '3')
  }

  predicate OrderSpelt(m: Msg, t: Terms)
  {
    && TradingCodes(m, t.side, t.ordType, t.timeInForce)
    && Spelt64(m, 1, t.account) && Spelt64(m, 11, t.clOrdId) && Spelt64(m, 48, t.securityId)
    && Word(m, 55, t.symbol) && Word(m, 207, t.exchange)
    && Spelt64(m, 38, t.orderQty) && Spelt64(m, 44, t.price)
  }

  predicate RequestSpelt(m: Msg, r: FixRequest)
  {
    match r
    case NewOrderSingle(t) => m.msgType == "D" && OrderSpelt(m, t)
    case OrderCancelReplaceRequest(t, orig) => m.msgType == "G" && OrderSpelt(m, t) && Spelt64(m, 41, orig)
    case OrderCancelRequest(account, clOrdId, orig) =>
      m.msgType == "F" && Spelt64(m, 1, account) && Spelt64(m, 11, clOrdId) && Spelt64(m, 41, orig)
  }

  predicate StatusCodes(m: Msg, execType: ExecType, ordStatus: OrdStatus)
  {
    && Letter(m, 150, match execType
                      case NewOrder => '0'
                      case Replaced => '5'
                      case Canceled => '4'
                      case Trade => 'F'
                      case Rejected => '8'
                      case Expired => 'C')
    && Letter(m, 39, match ordStatus
                     case NewOrder => '0'
                     case PartiallyFilled => '1'
                     case Filled => '2'
                     case Canceled => '4'
                     case Replaced => '5'
                     case Rejected => '8'
                     case Expired => 'C')
  }

  /** No code stands for an unknown symbol. */
  predicate ReasonSpelt(m: Msg, reason: RejectReason)
  {
    match reason
    case UnknownOrder => Spelt(m, 102, 1, 0x1_0000)
    case DuplicateOrder => Spelt(m, 102, 6, 0x1_0000)
    case UnsupportedRequest => Spelt(m, 102, 99, 0x1_0000)
    case UnknownSymbol => false
  }

  predicate IdsSpelt(m: Msg, e: FixEvent)
    requires e.FixReport?
  {
    && Spelt64(m, 1, e.account) && Spelt64(m, 11, e.clOrdId) && MaybeSpelt64(m, 41, e.orig)
    && Spelt64(m, 37, e.orderId) && Spelt64(m, 17, e.execId) && Spelt64(m, 48, e.securityId)
    && Word(m, 55, e.symbol) && Word(m, 207, e.exchange)
  }

  predicate AmountsSpelt(m: Msg, e: FixEvent)
    requires e.FixReport?
  {
    && Spelt64(m, 38, e.orderQty) && Spelt64(m, 14, e.cumQty) && Spelt64(m, 151, e.leavesQty)
    && MaybeSpelt64(m, 32, e.lastQty) && MaybeSpelt64(m, 31, e.lastPx) && MaybeSpelt64(m, 6, e.avgPx)
    && Spelt64(m, 60, e.transactTime)
  }

  predicate MaybeReasonSpelt(m: Msg, reason: Option<RejectReason>)
  {
    if reason.Some? then ReasonSpelt(m, reason.value) else GetIn(m.fields, 102) == None
  }

  predicate EventSpelt(m: Msg, e: FixEvent)
  {
    if e.FixReport? then
      && m.msgType == "8" && IdsSpelt(m, e)
      && TradingCodes(m, e.side, e.ordType, e.timeInForce) && StatusCodes(m, e.execType, e.ordStatus)
      && AmountsSpelt(m, e) && MaybeReasonSpelt(m, e.rejectReason) && MaybeWord(m, 58, e.text)
    else
      && m.msgType == "9"
      && Spelt64(m, 1, e.account) && Spelt64(m, 11, e.clOrdId) && Spelt64(m, 41, e.origClOrdId)
      && ReasonSpelt(m, e.reason) && Spelt64(m, 60, e.transactTime) && MaybeWord(m, 58, e.text)
  }

  lemma RequiredU64Reads(m: Msg, tag: Tag, n: U64)
    ensures RequiredU64(m, tag) == Ok(n) <==> Spelt64(m, tag, n)
  {
  }

  lemma OptionalU64Reads(m: Msg, tag: Tag, n: Option<U64>)
    ensures OptionalU64(m, tag) == Ok(n) <==> MaybeSpelt64(m, tag, n)
  {
    if n.Some? {
      RequiredU64Reads(m, tag, n.value);
    }
  }

  lemma RequiredCharReads(m: Msg, tag: Tag, c: char)
    ensures RequiredChar(m, tag) == Ok(c) <==> Letter(m, tag, c)
  {
    if RequiredChar(m, tag) == Ok(c) {
      assert GetIn(m.fields, tag).value == [c];
    }
  }

  lemma WordsRead(m: Msg, symbol: Symbol16, exchange: Exchange8)
    ensures RequiredSymbol(m) == Ok(symbol) <==> Word(m, 55, symbol)
    ensures RequiredExchange(m) == Ok(exchange) <==> Word(m, 207, exchange)
  {
  }

  lemma CodesReadAs(m: Msg, side: Side, ordType: OrdType, timeInForce: TimeInForce)
    ensures TradingCodes(m, side, ordType, timeInForce) <==>
            && RequiredChar(m, SIDE).Ok? && ParseSide(RequiredChar(m, SIDE).value) == Ok(side)
            && RequiredChar(m, ORD_TYPE).Ok? && ParseOrdType(RequiredChar(m, ORD_TYPE).value) == Ok(ordType)
            && RequiredChar(m, TIME_IN_FORCE).Ok?
            && ParseTimeInForce(RequiredChar(m, TIME_IN_FORCE).value) == Ok(timeInForce)
  {
    hide RequiredChar, Letter, GetIn;
    RequiredCharReads(m, 54, if side == Buy then '1' else '2');
    RequiredCharReads(m, 40, if ordType == Market then '1' else '2');
    RequiredCharReads(m, 59, if timeInForce == Day then '0' else '3');
  }

  lemma TermsReadAs(m: Msg, t: Terms)
    ensures DecodeTerms(m) == Ok(t) <==> OrderSpelt(m, t)
  {
    hide RequiredU64, RequiredChar, RequiredSymbol, RequiredExchange, Spelt64, Word, TradingCodes, ParseSide,
         ParseOrdType, ParseTimeInForce;
    CodesReadAs(m, t.side, t.ordType, t.timeInForce);
    RequiredU64Reads(m, 1, t.account);
    RequiredU64Reads(m, 11, t.clOrdId);
    RequiredU64Reads(m, 48, t.securityId);
    WordsRead(m, t.symbol, t.exchange);
    RequiredU64Reads(m, 38, t.orderQty);
    RequiredU64Reads(m, 44, t.price);
  }

  /** A message is read as a request exactly when its type and each of the request's fields spell that request. */
  lemma RequestReadExactly(m: Msg, r: FixRequest)
    ensures DecodeRequest(m) == Ok(r) <==> RequestSpelt(m, r)
  {
    hide DecodeTerms, RequiredU64, OrderSpelt, Spelt64;
    match r
    case NewOrderSingle(t) => TermsReadAs(m, t);
    case OrderCancelReplaceRequest(t, orig) =>
      TermsReadAs(m, t);
      RequiredU64Reads(m, 41, orig);
    case OrderCancelRequest(account, clOrdId, orig) =>
      RequiredU64Reads(m, 1, account);
      RequiredU64Reads(m, 11, clOrdId);
      RequiredU64Reads(m, 41, orig);
  }

  lemma StatusReadAs(m: Msg, execType: ExecType, ordStatus: OrdStatus)
    ensures StatusCodes(m, execType, ordStatus) <==>
            && RequiredChar(m, EXEC_TYPE).Ok? && ParseExecType(RequiredChar(m, EXEC_TYPE).value) == Ok(execType)
            && RequiredChar(m, ORD_STATUS).Ok? && ParseOrdStatus(RequiredChar(m, ORD_STATUS).value) == Ok(ordStatus)
  {
    hide RequiredChar, Letter, GetIn;
    RequiredCharReads(m, 150, NormalizeExecType(execType));
    RequiredCharReads(m, 39, NormalizeOrdStatus(ordStatus));
  }

  lemma CodesOfReport(m: Msg, e: FixEvent)
    requires e.FixReport?
    ensures DecodeCodes(m) == Ok(Codes(e.side, e.ordType, e.timeInForce, e.execType, e.ordStatus))
            <==> TradingCodes(m, e.side, e.ordType, e.timeInForce) && StatusCodes(m, e.execType, e.ordStatus)
  {
    hide RequiredChar, TradingCodes, StatusCodes, ParseSide, ParseOrdType, ParseTimeInForce, ParseExecType,
         ParseOrdStatus;
    CodesReadAs(m, e.side, e.ordType, e.timeInForce);
    StatusReadAs(m, e.execType, e.ordStatus);
  }

  lemma ReasonReads(m: Msg, reason: RejectReason)
    ensures ReasonSpelt(m, reason) <==>
            && RequiredNumber(m, CXL_REJ_REASON, 0x1_0000).Ok?
            && ParseRejectReason(RequiredNumber(m, CXL_REJ_REASON, 0x1_0000).value) == Ok(reason)
  {
  }

  lemma MaybeReasonReads(m: Msg, reason: Option<RejectReason>)
    ensures MaybeReasonSpelt(m, reason) <==>
            OptionalCode(m).Ok? && ReasonOf(OptionalCode(m).value) == Ok(reason)
  {
    hide ReasonSpelt, RequiredNumber, GetIn;
    if reason.Some? {
      ReasonReads(m, reason.value);
      NumberNeedsField(m);
    }
  }

  lemma NumberNeedsField(m: Msg)
    ensures RequiredNumber(m, CXL_REJ_REASON, 0x1_0000).Ok? ==> GetIn(m.fields, CXL_REJ_REASON).Some?
  {
  }

  lemma TextReads(m: Msg, text: string)
    ensures OptionalText(m) == Ok(text) <==> MaybeWord(m, 58, text)
  {
  }

  lemma IdsOfReport(m: Msg, e: FixEvent)
    requires e.FixReport?
    ensures DecodeIds(m) == Ok(Ids(e.account, e.clOrdId, e.orig, e.orderId, e.execId, e.securityId, e.symbol,
                                   e.exchange))
            <==> IdsSpelt(m, e)
  {
    hide RequiredU64, OptionalU64, RequiredSymbol, RequiredExchange, Spelt64, MaybeSpelt64, Word;
    RequiredU64Reads(m, 1, e.account);
    RequiredU64Reads(m, 11, e.clOrdId);
    OptionalU64Reads(m, 41, e.orig);
    RequiredU64Reads(m, 37, e.orderId);
    RequiredU64Reads(m, 17, e.execId);
    RequiredU64Reads(m, 48, e.securityId);
    WordsRead(m, e.symbol, e.exchange);
  }

  lemma AmountsOfReport(m: Msg, e: FixEvent)
    requires e.FixReport?
    ensures AmountsSpelt(m, e) <==>
            DecodeAmounts(m)
            == Ok(Amounts(e.orderQty, e.cumQty, e.leavesQty, e.lastQty, e.lastPx, e.avgPx, e.transactTime))
  {
    hide RequiredU64, OptionalU64, Spelt64, MaybeSpelt64;
    RequiredU64Reads(m, 38, e.orderQty);
    RequiredU64Reads(m, 14, e.cumQty);
    RequiredU64Reads(m, 151, e.leavesQty);
    OptionalU64Reads(m, 32, e.lastQty);
    OptionalU64Reads(m, 31, e.lastPx);
    OptionalU64Reads(m, 6, e.avgPx);
    RequiredU64Reads(m, 60, e.transactTime);
  }

  /** Likewise events. */
  lemma EventReadExactly(m: Msg, e: FixEvent)
    ensures DecodeEvent(m) == Ok(e) <==> EventSpelt(m, e)
  {
    hide DecodeCodes, DecodeIds, DecodeAmounts, OptionalCode, ReasonOf, OptionalText, RequiredU64, RequiredNumber,
         IdsSpelt, AmountsSpelt, TradingCodes, StatusCodes, MaybeReasonSpelt, ReasonSpelt, MaybeWord, Spelt64,
         ParseRejectReason;
    TextReads(m, e.text);
    if e.FixReport? {
      CodesOfReport(m, e);
      MaybeReasonReads(m, e.rejectReason);
      IdsOfReport(m, e);
      AmountsOfReport(m, e);
    } else {
      ReasonReads(m, e.reason);
      RequiredU64Reads(m, 1, e.account);
      RequiredU64Reads(m, 11, e.clOrdId);
      RequiredU64Reads(m, 41, e.origClOrdId);
      RequiredU64Reads(m, 60, e.transactTime);
    }
  }

  // ---------- which error is given ----------

  predicate CodeTag(tag: Tag)
  {
    tag in {54, 40, 59, 150, 39}
  }

  /** The characters that are codes of the field, and the name that an error about another one states. */
  function CodesOf(tag: Tag): (string, string)
    requires CodeTag(tag)
  {
    if tag == 54 then ("12", "Side")
    else if tag == 40 then ("12", "OrdType")
    else if tag == 59 then ("03", "TimeInForce")
    else if tag == 150 then ("0548FC", "ExecType")
    else ("012458C", "OrdStatus")
  }

  /** What is wrong with a field that must be there. */
  function Trouble(m: Msg, tag: Tag): Option<DecodeError>
  {
    match GetIn(m.fields, tag)
    case None => Some(Missing(tag))
    case Some(value) =>
      if value == "" then Some(Empty(tag))
      else if CodeTag(tag) then
        if |value| != 1 then Some(NotOneCharacter(tag))
        else if value[0] !in CodesOf(tag).0 then Some(BadCode(InvalidValue(CodesOf(tag).1)))
        else None
      else if tag == 55 then if |value| > 16 then Some(TooLong(tag)) else None
      else if tag == 207 then if |value| > 8 then Some(TooLong(tag)) else None
      else if tag == 58 then None
      else if Decimal.Parse(value, if tag == 102 then 0x1_0000 else 0x1_0000_0000_0000_0000) == None
      then Some(NotANumber(tag))
      else None
  }

  /** A field that may be left out is in trouble only when it is there. */
  function MaybeTrouble(m: Msg, tag: Tag): Option<DecodeError>
  {
    if GetIn(m.fields, tag) == None then None else Trouble(m, tag)
  }

  function First<T>(a: Option<T>, b: Option<T>): Option<T>
  {
    if a.Some? then a else b
  }

  // The first trouble in the order in which the fields are read.

  function TermsTrouble(m: Msg): Option<DecodeError>
  {
    First(Trouble(m, 54), First(Trouble(m, 40), First(Trouble(m, 59), First(Trouble(m, 1),
    First(Trouble(m, 11), First(Trouble(m, 48), First(Trouble(m, 55), First(Trouble(m, 207),
    First(Trouble(m, 38), Trouble(m, 44))))))))))
  }

  function IdsTrouble(m: Msg): Option<DecodeError>
  {
    First(Trouble(m, 1), First(Trouble(m, 11), First(MaybeTrouble(m, 41), First(Trouble(m, 37),
    First(Trouble(m, 17), First(Trouble(m, 48), First(Trouble(m, 55), Trouble(m, 207))))))))
  }

  function AmountsTrouble(m: Msg): Option<DecodeError>
  {
    First(Trouble(m, 38), First(Trouble(m, 14), First(Trouble(m, 151), First(MaybeTrouble(m, 32),
    First(MaybeTrouble(m, 31), First(MaybeTrouble(m, 6), Trouble(m, 60)))))))
  }

  /** A reject code that is a number but stands for no reason. */
  function ReasonTrouble(m: Msg): Option<DecodeError>
  {
    match GetIn(m.fields, 102)
    case None => None
    case Some(value) =>
      var code := Decimal.Parse(value, 0x1_0000);
      if code.Some? && code.value !in {1, 6, 99} then Some(BadCode(InvalidValue("RejectReason"))) else None
  }

  function CodesTrouble(m: Msg): Option<DecodeError>
  {
    First(Trouble(m, 54), First(Trouble(m, 40), First(Trouble(m, 59), First(Trouble(m, 150), Trouble(m, 39)))))
  }

  /** The reason is looked up last, after all other fields were read. */
  function ReportTrouble(m: Msg): Option<DecodeError>
  {
    First(CodesTrouble(m),
          First(MaybeTrouble(m, 102),
                First(IdsTrouble(m), First(AmountsTrouble(m), First(MaybeTrouble(m, 58), ReasonTrouble(m))))))
  }

  function CancelRejectTrouble(m: Msg): Option<DecodeError>
  {
    First(Trouble(m, 102),
          First(ReasonTrouble(m),
                First(Trouble(m, 1),
                      First(Trouble(m, 11), First(Trouble(m, 41), First(MaybeTrouble(m, 58), Trouble(m, 60)))))))
  }

  function ErrorOf<T>(r: Result<T, DecodeError>): Option<DecodeError>
  {
    match r
    case Ok(_) => None
    case Err(error) => Some(error)
  }

  lemma FieldTroubles(m: Msg)
    ensures forall tag {:trigger Trouble(m, tag)} ::
              !CodeTag(tag) && tag !in {55, 207, 58, 102} ==> Trouble(m, tag) == ErrorOf(RequiredU64(m, tag))
    ensures Trouble(m, 55) == ErrorOf(RequiredSymbol(m)) && Trouble(m, 207) == ErrorOf(RequiredExchange(m))
  {
  }

  lemma OptionalTroubles(m: Msg)
    ensures forall tag {:trigger MaybeTrouble(m, tag)} ::
              !CodeTag(tag) && tag !in {55, 207, 58, 102} ==> MaybeTrouble(m, tag) == ErrorOf(OptionalU64(m, tag))
    ensures MaybeTrouble(m, 58) == ErrorOf(OptionalText(m)) && MaybeTrouble(m, 102) == ErrorOf(OptionalCode(m))
  {
    FieldTroubles(m);
  }

  /** A code field that is one character is troubled by its table alone. */
  lemma CodeTroubles(m: Msg)
    ensures var c := RequiredChar(m, SIDE);
            Trouble(m, 54) == if c.Ok? then ErrorOf(Coded(ParseSide(c.value))) else Some(c.error)
    ensures var c := RequiredChar(m, ORD_TYPE);
            Trouble(m, 40) == if c.Ok? then ErrorOf(Coded(ParseOrdType(c.value))) else Some(c.error)
    ensures var c := RequiredChar(m, TIME_IN_FORCE);
            Trouble(m, 59) == if c.Ok? then ErrorOf(Coded(ParseTimeInForce(c.value))) else Some(c.error)
  {
  }

  lemma StatusTroubles(m: Msg)
    ensures var c := RequiredChar(m, EXEC_TYPE);
            Trouble(m, 150) == if c.Ok? then ErrorOf(Coded(ParseExecType(c.value))) else Some(c.error)
    ensures var c := RequiredChar(m, ORD_STATUS);
            Trouble(m, 39) == if c.Ok? then ErrorOf(Coded(ParseOrdStatus(c.value))) else Some(c.error)
  {
  }

  lemma TermsError(m: Msg)
    ensures ErrorOf(DecodeTerms(m)) == TermsTrouble(m)
  {
    hide Trouble, RequiredU64, RequiredChar, RequiredSymbol, RequiredExchange, ParseSide, ParseOrdType,
         ParseTimeInForce;
    FieldTroubles(m);
    CodeTroubles(m);
  }

  /** A request is refused for the first field in trouble, or because its type is no request's. */
  lemma RequestErrorExactly(m: Msg)
    ensures ErrorOf(DecodeRequest(m))
         == if m.msgType == "D" then TermsTrouble(m)
            else if m.msgType == "G" then First(TermsTrouble(m), Trouble(m, 41))
            else if m.msgType == "F" then First(Trouble(m, 1), First(Trouble(m, 11), Trouble(m, 41)))
            else Some(UnsupportedMessage(m.msgType))
  {
    hide Trouble, RequiredU64, DecodeTerms, TermsTrouble;
    TermsError(m);
    FieldTroubles(m);
  }

  lemma CodesError(m: Msg)
    ensures ErrorOf(DecodeCodes(m)) == CodesTrouble(m)
  {
    hide Trouble, RequiredChar, ParseSide, ParseOrdType, ParseTimeInForce, ParseExecType, ParseOrdStatus;
    CodeTroubles(m);
    StatusTroubles(m);
  }

  lemma IdsError(m: Msg)
    ensures ErrorOf(DecodeIds(m)) == IdsTrouble(m)
  {
    hide Trouble, MaybeTrouble, RequiredU64, OptionalU64, RequiredSymbol, RequiredExchange;
    FieldTroubles(m);
    OptionalTroubles(m);
  }

  lemma AmountsError(m: Msg)
    ensures ErrorOf(DecodeAmounts(m)) == AmountsTrouble(m)
  {
    hide Trouble, MaybeTrouble, RequiredU64, OptionalU64;
    FieldTroubles(m);
    OptionalTroubles(m);
  }

  lemma ReasonError(m: Msg)
    ensures OptionalCode(m).Ok? ==> ErrorOf(ReasonOf(OptionalCode(m).value)) == ReasonTrouble(m)
    ensures Trouble(m, 102) == ErrorOf(RequiredNumber(m, CXL_REJ_REASON, 0x1_0000))
    ensures var code := RequiredNumber(m, CXL_REJ_REASON, 0x1_0000);
            code.Ok? ==> ErrorOf(Coded(ParseRejectReason(code.value))) == ReasonTrouble(m)
  {
  }

  /** Likewise events. */
  lemma EventErrorExactly(m: Msg)
    ensures ErrorOf(DecodeEvent(m))
         == if m.msgType == "8" then ReportTrouble(m)
            else if m.msgType == "9" then CancelRejectTrouble(m)
            else Some(UnsupportedMessage(m.msgType))
  {
    hide Trouble, MaybeTrouble, ReasonTrouble, DecodeCodes, DecodeIds, DecodeAmounts, OptionalCode, ReasonOf,
         OptionalText, RequiredU64, RequiredNumber, CodesTrouble, IdsTrouble, AmountsTrouble, ParseRejectReason;
    CodesError(m);
    IdsError(m);
    AmountsError(m);
    ReasonError(m);
    FieldTroubles(m);
    OptionalTroubles(m);
  }

}
