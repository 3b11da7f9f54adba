/**
 The tag=value text of a FIX message (FIX 4.4, Volume 1, "FIX Tag=Value Syntax"): an ordered list of fields with
 unique tags, one delimiter after each field, and the message type as tag 35 in front.
 */
module FixText {
  import opened Wrappers
  import Decimal

  type Tag = n: int | 0 <= n < 0x1_0000

  const MSG_TYPE_TAG: Tag := 35

  datatype Field = Field(number: Tag, value: string)

  /** A message as a value. */
  datatype Msg = Msg(msgType: string, fields: seq<Field>)

  datatype FixError = MalformedField(field: string) | InvalidTag(text: string) | MissingMsgType

  // ---------- the field list ----------

  predicate Differ(a: Field, b: Field)
  {
    a.number != b.number
  }

  predicate Unique(fields: seq<Field>)
  {
    forall i, j {:trigger Differ(fields[i], fields[j])} :: 0 <= i < j < |fields| ==> Differ(fields[i], fields[j])
  }

  /** Position of the first field with the tag, or the number of fields. */
  function FindTag(fields: seq<Field>, number: Tag): (i: nat)
    ensures i <= |fields| && (i < |fields| ==> fields[i].number == number)
    ensures forall j :: 0 <= j < i ==> fields[j].number != number
  {
    if fields == [] || fields[0].number == number then 0 else 1 + FindTag(fields[1..], number)
  }

  /** Overwrite the field in place, or append it. */
  function SetIn(fields: seq<Field>, number: Tag, value: string): seq<Field>
  {
    var i := FindTag(fields, number);
    if i < |fields| then fields[i := Field(number, value)] else fields + [Field(number, value)]
  }

  function GetIn(fields: seq<Field>, number: Tag): Option<string>
  {
    var i := FindTag(fields, number);
    if i < |fields| then Some(fields[i].value) else None
  }

  lemma FindTagIs(fields: seq<Field>, number: Tag, i: nat)
    requires i <= |fields| && (i < |fields| ==> fields[i].number == number)
    requires forall j :: 0 <= j < i ==> fields[j].number != number
    ensures FindTag(fields, number) == i
  {
    var f := FindTag(fields, number);
  }

  lemma SetUnique(fields: seq<Field>, number: Tag, value: string)
    requires Unique(fields)
    ensures Unique(SetIn(fields, number, value))
  {
    var fields' := SetIn(fields, number, value);
    forall i, j | 0 <= i < j < |fields'|
      ensures Differ(fields'[i], fields'[j])
    {
      if j < |fields| {
        assert Differ(fields[i], fields[j]);
      }
    }
  }

  /** A field that was set is what is got, and every other field is as before. */
  lemma GetOfSet(fields: seq<Field>, number: Tag, value: string, other: Tag)
    ensures GetIn(SetIn(fields, number, value), other) == if other == number then Some(value) else GetIn(fields, other)
  {
    var i, f, fields' := FindTag(fields, number), FindTag(fields, other), SetIn(fields, number, value);
    if other == number {
      FindTagIs(fields', other, i);
    } else if f < |fields| {
      FindTagIs(fields', other, f);
    } else {
      FindTagIs(fields', other, |fields'|);
    }
  }

  class Message {
    const msgType: string
    var fields: seq<Field>

    constructor (msgType: string)
      ensures this.msgType == msgType && fields == []
    {
      this.msgType := msgType;
      fields := [];
    }

    ghost predicate Valid()
      reads this
    {
      Unique(fields)
    }

    function Value(): Msg
      reads this
    {
      Msg(msgType, fields)
    }

    method Set(number: Tag, value: string)
      requires Valid()
      modifies this
      ensures Valid() && fields == SetIn(old(fields), number, value)
    {
      SetUnique(fields, number, value);
      for i := 0 to |fields|
        invariant fields == old(fields) && forall j :: 0 <= j < i ==> fields[j].number != number
      {
        if fields[i].number == number {
          FindTagIs(fields, number, i);
          fields := fields[i := Field(number, value)];
          return;
        }
      }
      FindTagIs(fields, number, |fields|);
      fields := fields + [Field(number, value)];
    }

    method Get(number: Tag) returns (value: Option<string>)
      ensures value == GetIn(fields, number)
    {
      for i := 0 to |fields|
        invariant forall j :: 0 <= j < i ==> fields[j].number != number
      {
        if fields[i].number == number {
          FindTagIs(fields, number, i);
          return Some(fields[i].value);
        }
      }
      FindTagIs(fields, number, |fields|);
      return None;
    }
  }

  // ---------- splitting ----------

  function IndexOf(s: string, c: char): (i: nat)
    ensures i <= |s| && (i < |s| ==> s[i] == c)
    ensures forall j :: 0 <= j < i ==> s[j] != c
  {
    if s == "" || s[0] == c then 0 else 1 + IndexOf(s[1..], c)
  }

  /** The pieces between delimiters; what follows a final delimiter is no piece. */
  function Pieces(payload: string, delimiter: char): seq<string>
  {
    if payload == "" then []
    else
      var end := IndexOf(payload, delimiter);
      [payload[..end]] + (if end == |payload| then [] else Pieces(payload[end + 1..], delimiter))
  }

  // ---------- reading ----------

  /** One piece: empty ones are skipped, tag 35 sets the type, any other tag sets its field. */
  function Absorb(acc: Msg, piece: string): Result<Msg, FixError>
  {
    if piece == "" then Ok(acc)
    else
      var separator := IndexOf(piece, '=');
      if separator == |piece| || separator == 0 then Err(MalformedField(piece))
      else
        match Decimal.Parse(piece[..separator], 0x1_0000)
        case None => Err(InvalidTag(piece[..separator]))
        case Some(number) =>
          var value := piece[separator + 1..];
          if number == MSG_TYPE_TAG then Ok(acc.(msgType := value))
          else Ok(acc.(fields := SetIn(acc.fields, number, value)))
  }

  function AbsorbAll(acc: Msg, pieces: seq<string>): Result<Msg, FixError>
    decreases |pieces|
  {
    if pieces == [] then Ok(acc)
    else
      match Absorb(acc, pieces[0])
      case Err(error) => Err(error)
      case Ok(acc') => AbsorbAll(acc', pieces[1..])
  }

  function Decoded(payload: string, delimiter: char): Result<Msg, FixError>
  {
    match AbsorbAll(Msg("", []), Pieces(payload, delimiter))
    case Err(error) => Err(error)
    case Ok(m) => if m.msgType == "" then Err(MissingMsgType) else Ok(m)
  }

  // ---------- writing ----------

  function FieldText(number: Tag, value: string): string
  {
    Decimal.Print(number) + "=" + value
  }

  function FieldsText(fields: seq<Field>, delimiter: char): string
  {
    if fields == [] then ""
    else FieldText(fields[0].number, fields[0].value) + [delimiter] + FieldsText(fields[1..], delimiter)
  }

  function Encoded(m: Msg, delimiter: char): string
  {
    FieldText(MSG_TYPE_TAG, m.msgType) + [delimiter] + FieldsText(m.fields, delimiter)
  }

  // ---------- the codec ----------

  method Encode(message: Message, delimiter: char) returns (output: string)
    ensures output == Encoded(message.Value(), delimiter)
  {
    output := FieldText(MSG_TYPE_TAG, message.msgType) + [delimiter];
    var i := 0;
    while i < |message.fields|
      invariant i <= |message.fields|
      invariant output + FieldsText(message.fields[i..], delimiter) == Encoded(message.Value(), delimiter)
    {
      var field := message.fields[i];
      var rest := message.fields[i + 1..];
      assert message.fields[i..][1..] == rest;
      assert output + (FieldText(field.number, field.value) + [delimiter] + FieldsText(rest, delimiter))
          == (output + FieldText(field.number, field.value) + [delimiter]) + FieldsText(rest, delimiter);
      output := output + FieldText(field.number, field.value) + [delimiter];
      i := i + 1;
    }
    assert output + "" == output;
  }

  method DecodeField(field: string, msgType: string, output: Message) returns (r: Result<string, FixError>)
    requires field != "" && output.Valid()
    modifies output
    ensures output.Valid()
    ensures match Absorb(Msg(msgType, old(output.fields)), field)
            case Err(error) => r == Err(error) && output.fields == old(output.fields)
            case Ok(m) => r == Ok(m.msgType) && output.fields == m.fields
  {
    var separator := IndexOf(field, '=');
    if separator == |field| || separator == 0 {
      return Err(MalformedField(field));
    }
    var number := Decimal.Parse(field[..separator], 0x1_0000);
    if number == None {
      return Err(InvalidTag(field[..separator]));
    }
    var value := field[separator + 1..];
    if number.value == MSG_TYPE_TAG {
      return Ok(value);
    }
    output.Set(number.value, value);
    return Ok(msgType);
  }

  lemma SetNew(fields: seq<Field>, number: Tag, value: string)
    requires forall i :: 0 <= i < |fields| ==> fields[i].number != number
    ensures SetIn(fields, number, value) == fields + [Field(number, value)]
  {
    FindTagIs(fields, number, |fields|);
  }

  /** A fresh message of the given type with the same fields in the same order. */
  method Retype(msgType: string, output: Message) returns (typed: Message)
    requires output.Valid()
    ensures fresh(typed) && typed.Valid() && typed.Value() == Msg(msgType, output.fields)
  {
    typed := new Message(msgType);
    for i := 0 to |output.fields|
      invariant typed.Valid() && typed.fields == output.fields[..i]
    {
      forall j | 0 <= j < i
        ensures typed.fields[j].number != output.fields[i].number
      {
        assert Differ(output.fields[j], output.fields[i]);
      }
      SetNew(typed.fields, output.fields[i].number, output.fields[i].value);
      typed.Set(output.fields[i].number, output.fields[i].value);
    }
  }

  method Decode(payload: string, delimiter: char) returns (r: Result<Message, FixError>)
    ensures match Decoded(payload, delimiter)
            case Err(error) => r == Err(error)
            case Ok(m) => r.Ok? && fresh(r.value) && r.value.Valid() && r.value.Value() == m
  {
    var msgType, rest := "", payload;
    var output := new Message("");
    ghost var pieces := Pieces(payload, delimiter);
    while rest != ""
      invariant output.Valid() && fresh(output) && pieces == Pieces(rest, delimiter)
      invariant AbsorbAll(Msg(msgType, output.fields), pieces) == AbsorbAll(Msg("", []), Pieces(payload, delimiter))
      decreases |rest|
    {
      var end := IndexOf(rest, delimiter);
      var field := rest[..end];
      if field != "" {
        var decoded := DecodeField(field, msgType, output);
        match decoded {
          case Err(error) => return Err(error);
          case Ok(t) => msgType := t;
        }
      }
      pieces := pieces[1..];
      if end == |rest| {
        break;
      }
      rest := rest[end + 1..];
    }
    if msgType == "" {
      return Err(MissingMsgType);
    }
    var typed := Retype(msgType, output);
    return Ok(typed);
  }

  // ---------- when reading undoes writing ----------

  predicate FieldEncodable(field: Field, delimiter: char)
  {
    field.number != MSG_TYPE_TAG && delimiter !in Decimal.Print(field.number) && delimiter !in field.value
  }

  predicate FieldsEncodable(fields: seq<Field>, delimiter: char)
  {
    forall i {:trigger FieldEncodable(fields[i], delimiter)} :: 0 <= i < |fields|
        ==> FieldEncodable(fields[i], delimiter)
  }

  /** The delimiter stands in nothing that is written, the type is not empty, and tag 35 is left to the type. */
  predicate Encodable(m: Msg, delimiter: char)
  {
    && delimiter != '=' && delimiter !in "35"
    && m.msgType != "" && delimiter !in m.msgType
    && FieldsEncodable(m.fields, delimiter)
  }

  lemma IndexIs(s: string, c: char, i: nat)
    requires i <= |s| && (i < |s| ==> s[i] == c)
    requires forall j :: 0 <= j < i ==> s[j] != c
    ensures IndexOf(s, c) == i
  {
    var k := IndexOf(s, c);
  }

  lemma PieceFirst(a: string, rest: string, delimiter: char)
    requires delimiter !in a
    ensures Pieces(a + [delimiter] + rest, delimiter) == [a] + Pieces(rest, delimiter)
  {
    var s := a + [delimiter] + rest;
    IndexIs(s, delimiter, |a|);
    assert s[..|a|] == a && s[|a| + 1..] == rest;
  }

  /** A written field is read back as itself. */
  lemma AbsorbText(acc: Msg, number: Tag, value: string)
    ensures Absorb(acc, FieldText(number, value))
         == Ok(if number == MSG_TYPE_TAG then acc.(msgType := value)
             else acc.(fields := SetIn(acc.fields, number, value)))
  {
    var text, digits := FieldText(number, value), Decimal.Print(number);
    IndexIs(text, '=', |digits|);
    assert text[..|digits|] == digits && text[|digits| + 1..] == value;
    Decimal.ParseOfPrint(number, 0x1_0000);
  }

  /** Reading the first written field appends it. */
  lemma AbsorbFirst(acc: Msg, fields: seq<Field>, delimiter: char)
    requires fields != [] && FieldEncodable(fields[0], delimiter) && delimiter != '='
    requires forall i :: 0 <= i < |acc.fields| ==> acc.fields[i].number != fields[0].number
    ensures AbsorbAll(acc, Pieces(FieldsText(fields, delimiter), delimiter))
         == AbsorbAll(acc.(fields := acc.fields + [fields[0]]), Pieces(FieldsText(fields[1..], delimiter), delimiter))
  {
    var f, rest := fields[0], FieldsText(fields[1..], delimiter);
    var text := FieldText(f.number, f.value);
    PieceFirst(text, rest, delimiter);
    AbsorbText(acc, f.number, f.value);
    SetNew(acc.fields, f.number, f.value);
    var pieces := [text] + Pieces(rest, delimiter);
    assert pieces[0] == text && pieces[1..] == Pieces(rest, delimiter);
  }

  lemma {:induction false} AbsorbFields(acc: Msg, fields: seq<Field>, delimiter: char)
    requires Unique(acc.fields + fields) && FieldsEncodable(fields, delimiter) && delimiter != '='
    ensures AbsorbAll(acc, Pieces(FieldsText(fields, delimiter), delimiter)) == Ok(acc.(fields := acc.fields + fields))
    decreases |fields|
  {
    hide Absorb, IndexOf, FieldText, FieldEncodable;
    if fields == [] {
      assert acc.fields + [] == acc.fields;
    } else {
      hide AbsorbAll, Pieces, FieldsText;
      var f, rest, all := fields[0], fields[1..], acc.fields + fields;
      assert FieldEncodable(f, delimiter);
      forall i | 0 <= i < |acc.fields|
        ensures acc.fields[i].number != f.number
      {
        assert Differ(all[i], all[|acc.fields|]);
      }
      AbsorbFirst(acc, fields, delimiter);
      assert (acc.fields + [f]) + rest == all;
      forall i | 0 <= i < |rest|
        ensures FieldEncodable(rest[i], delimiter)
      {
        assert FieldEncodable(fields[i + 1], delimiter);
      }
      AbsorbFields(acc.(fields := acc.fields + [f]), rest, delimiter);
    }
  }

  lemma DecodedOfEncoded(m: Msg, delimiter: char)
    requires Unique(m.fields) && Encodable(m, delimiter)
    ensures Decoded(Encoded(m, delimiter), delimiter) == Ok(m)
  {
    var header, rest := FieldText(MSG_TYPE_TAG, m.msgType), FieldsText(m.fields, delimiter);
    assert Decimal.Print(35) == "35";
    PieceFirst(header, rest, delimiter);
    AbsorbText(Msg("", []), MSG_TYPE_TAG, m.msgType);
    assert [] + m.fields == m.fields;
    AbsorbFields(Msg(m.msgType, []), m.fields, delimiter);
    var pieces := Pieces(Encoded(m, delimiter), delimiter);
    assert pieces[0] == header && pieces[1..] == Pieces(rest, delimiter);
  }

  // ---------- what reading can give ----------

  /** What holds of a message being read, whatever the payload. */
  predicate Clean(m: Msg, delimiter: char)
  {
    && Unique(m.fields) && FieldsEncodable(m.fields, delimiter) && delimiter !in m.msgType
    && (m.msgType != "" ==> delimiter != '=' && delimiter !in "35")
  }

  lemma {:induction false} PiecesFree(payload: string, delimiter: char)
    ensures forall i :: 0 <= i < |Pieces(payload, delimiter)| ==> delimiter !in Pieces(payload, delimiter)[i]
  {
    if payload != "" {
      var end := IndexOf(payload, delimiter);
      if end < |payload| {
        PiecesFree(payload[end + 1..], delimiter);
      }
    }
  }

  lemma AbsorbClean(acc: Msg, piece: string, delimiter: char)
    requires Clean(acc, delimiter) && delimiter !in piece && Absorb(acc, piece).Ok?
    ensures Clean(Absorb(acc, piece).value, delimiter)
  {
    if piece != "" {
      var separator := IndexOf(piece, '=');
      var digits, value := piece[..separator], piece[separator + 1..];
      Decimal.PrintWithin(digits);
      var number := Decimal.Number(digits);
      assert Decimal.Print(35) == "35";
      assert delimiter !in Decimal.Print(number);
      SetUnique(acc.fields, number, value);
      forall i | 0 <= i < |SetIn(acc.fields, number, value)| && number != MSG_TYPE_TAG
        ensures FieldEncodable(SetIn(acc.fields, number, value)[i], delimiter)
      {
        assert i < |acc.fields| ==> FieldEncodable(acc.fields[i], delimiter);
      }
    }
  }

  lemma {:induction false} AbsorbAllClean(acc: Msg, pieces: seq<string>, delimiter: char)
    requires Clean(acc, delimiter) && AbsorbAll(acc, pieces).Ok?
    requires forall i :: 0 <= i < |pieces| ==> delimiter !in pieces[i]
    ensures Clean(AbsorbAll(acc, pieces).value, delimiter)
    decreases |pieces|
  {
    if pieces != [] {
      AbsorbClean(acc, pieces[0], delimiter);
      AbsorbAllClean(Absorb(acc, pieces[0]).value, pieces[1..], delimiter);
    }
  }

  /** Whatever is read from any payload, under any delimiter, could have been written under that delimiter. */
  lemma DecodedIsEncodable(payload: string, delimiter: char)
    requires Decoded(payload, delimiter).Ok?
    ensures Unique(Decoded(payload, delimiter).value.fields) && Encodable(Decoded(payload, delimiter).value, delimiter)
  {
    PiecesFree(payload, delimiter);
    AbsorbAllClean(Msg("", []), Pieces(payload, delimiter), delimiter);
  }

  /** Reading undoes writing exactly on the encodable messages. */
  lemma RoundTripExactly(m: Msg, delimiter: char)
    requires Unique(m.fields)
    ensures Decoded(Encoded(m, delimiter), delimiter) == Ok(m) <==> Encodable(m, delimiter)
  {
    if Encodable(m, delimiter) {
      DecodedOfEncoded(m, delimiter);
    }
    if Decoded(Encoded(m, delimiter), delimiter) == Ok(m) {
      DecodedIsEncodable(Encoded(m, delimiter), delimiter);
    }
  }

  /** Once read, a message survives any number of writings and readings, though the payload was not in written form. */
  lemma ReadIsStable(payload: string, delimiter: char)
    requires Decoded(payload, delimiter).Ok?
    ensures Decoded(Encoded(Decoded(payload, delimiter).value, delimiter), delimiter) == Decoded(payload, delimiter)
  {
    DecodedIsEncodable(payload, delimiter);
    DecodedOfEncoded(Decoded(payload, delimiter).value, delimiter);
  }

}
