/** The B3 code tables: how enumerated values are written, and how codes are read. */
module B3Spec {
  import opened Wrappers
  import opened Types

  datatype CodeError = InvalidValue(fieldName: string)

  function NormalizeSide(value: Side): char
  {
    match value
    case Buy => '1'
    case Sell => '2'
  }

  function NormalizeOrdType(value: OrdType): char
  {
    match value
    case Market => '1'
    case Limit => '2'
  }

  function NormalizeTimeInForce(value: TimeInForce): char
  {
    match value
    case Day => '0'
    case Ioc => '3'
  }

  function NormalizeExecType(value: ExecType): char
  {
    match value
    case NewOrder => '0'
    case Replaced => '5'
    case Canceled => '4'
    case Trade => 'F'
    case Rejected => '8'
    case Expired => 'C'
  }

  function NormalizeOrdStatus(value: OrdStatus): char
  {
    match value
    case NewOrder => '0'
    case PartiallyFilled => '1'
    case Filled => '2'
    case Canceled => '4'
    case Replaced => '5'
    case Rejected => '8'
    case Expired => 'C'
  }

  /** Two reasons share a code. */
  function NormalizeRejectReason(value: RejectReason): nat
  {
    match value
    case UnknownOrder => 1
    case DuplicateOrder => 6
    case UnknownSymbol => 1
    case UnsupportedRequest => 99
  }

  function ParseSide(value: char): Result<Side, CodeError>
  {
    if value == '1' then Ok(Buy) else if value == '2' then Ok(Sell) else Err(InvalidValue("Side"))
  }

  function ParseOrdType(value: char): Result<OrdType, CodeError>
  {
    if value == '1' then Ok(Market) else if value == '2' then Ok(Limit) else Err(InvalidValue("OrdType"))
  }

  function ParseTimeInForce(value: char): Result<TimeInForce, CodeError>
  {
    if value == '0' then Ok(Day) else if value == '3' then Ok(Ioc) else Err(InvalidValue("TimeInForce"))
  }

  function ParseExecType(value: char): Result<ExecType, CodeError>
  {
    if value == '0' then Ok(ExecType.NewOrder)
    else if value == '5' then Ok(ExecType.Replaced)
    else if value == '4' then Ok(ExecType.Canceled)
    else if value == 'F' then Ok(ExecType.Trade)
    else if value == '8' then Ok(ExecType.Rejected)
    else if value == 'C' then Ok(ExecType.Expired)
    else Err(InvalidValue("ExecType"))
  }

  function ParseOrdStatus(value: char): Result<OrdStatus, CodeError>
  {
    if value == '0' then Ok(OrdStatus.NewOrder)
    else if value == '1' then Ok(OrdStatus.PartiallyFilled)
    else if value == '2' then Ok(OrdStatus.Filled)
    else if value == '4' then Ok(OrdStatus.Canceled)
    else if value == '5' then Ok(OrdStatus.Replaced)
    else if value == '8' then Ok(OrdStatus.Rejected)
    else if value == 'C' then Ok(OrdStatus.Expired)
    else Err(InvalidValue("OrdStatus"))
  }

  function ParseRejectReason(value: nat): Result<RejectReason, CodeError>
  {
    if value == 1 then Ok(UnknownOrder)
    else if value == 6 then Ok(DuplicateOrder)
    else if value == 99 then Ok(UnsupportedRequest)
    else Err(InvalidValue("RejectReason"))
  }

  /** Each code table is one-to-one: what is written is read back, and only a written code is read at all. */
  lemma CodesInvert(side: Side, ordType: OrdType, tif: TimeInForce, exec: ExecType, status: OrdStatus, c: char)
    ensures ParseSide(c) == Ok(side) <==> c == NormalizeSide(side)
    ensures ParseOrdType(c) == Ok(ordType) <==> c == NormalizeOrdType(ordType)
    ensures ParseTimeInForce(c) == Ok(tif) <==> c == NormalizeTimeInForce(tif)
    ensures ParseExecType(c) == Ok(exec) <==> c == NormalizeExecType(exec)
    ensures ParseOrdStatus(c) == Ok(status) <==> c == NormalizeOrdStatus(status)
  {
  }

  /** A reject reason survives unless it is the one that shares its code. */
  lemma ReasonInverts(reason: RejectReason)
    ensures ParseRejectReason(NormalizeRejectReason(reason)) == Ok(reason) <==> reason != UnknownSymbol
    ensures ParseRejectReason(NormalizeRejectReason(reason)) == Ok(if reason == UnknownSymbol then UnknownOrder
        else reason)
  {
  }

}
