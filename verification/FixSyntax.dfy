/**
 The tag=value syntax, independently of how it is read: which strings spell a number, what a payload must look like to
 be read, what is read from it, and which error is given when it is not.
 */
module FixSyntax {
  import opened Wrappers
  import opened FixText
  import Decimal

  // ---------- numbers ----------

  function Zeros(z: nat): string
  {
    seq(z, _ => '0')
  }

  lemma {:induction false} NumberOfZeros(z: nat)
    ensures Decimal.AllDigits(Zeros(z)) && Decimal.Number(Zeros(z)) == 0
  {
    if z > 0 {
      NumberOfZeros(z - 1);
      assert Zeros(z)[..z - 1] == Zeros(z - 1);
    }
  }

  lemma {:induction false} NumberOfPadded(z: nat, n: nat)
    ensures Decimal.AllDigits(Zeros(z) + Decimal.Print(n)) && Decimal.Number(Zeros(z) + Decimal.Print(n)) == n
  {
    var s := Zeros(z) + Decimal.Print(n);
    if n < 10 {
      NumberOfZeros(z);
      assert s[..|s| - 1] == Zeros(z);
    } else {
      NumberOfPadded(z, n / 10);
      assert s[..|s| - 1] == Zeros(z) + Decimal.Print(n / 10);
    }
  }

  lemma {:induction false} DigitsArePadded(s: string) returns (z: nat)
    requires s != "" && Decimal.AllDigits(s)
    ensures s == Zeros(z) + Decimal.Print(Decimal.Number(s))
    decreases |s|
  {
    var front, last := s[..|s| - 1], s[|s| - 1];
    var v := Decimal.ValueOf(last);
    assert Decimal.Digit(v) == last;
    if front == "" {
      z := 0;
    } else {
      z := DigitsArePadded(front);
      var n := Decimal.Number(front);
      assert (10 * n + v) / 10 == n && (10 * n + v) % 10 == v;
      if n == 0 {
        assert Decimal.Print(0) == "0" && Zeros(z) + "0" == Zeros(z + 1);
        z := z + 1;
      } else {
        assert Decimal.Print(Decimal.Number(s)) == Decimal.Print(n) + [last];
      }
    }
  }

  /** A string is read as a number exactly when it is that number printed, below the limit, behind any zeros. */
  lemma ParseExactly(s: string, limit: nat, n: nat)
    ensures Decimal.Parse(s, limit) == Some(n) <==> n < limit && exists z :: s == Zeros(z) + Decimal.Print(n)
  {
    if n < limit && exists z :: s == Zeros(z) + Decimal.Print(n) {
      var z :| s == Zeros(z) + Decimal.Print(n);
      NumberOfPadded(z, n);
    }
    if Decimal.Parse(s, limit) == Some(n) {
      var z := DigitsArePadded(s);
    }
  }

  // ---------- the field list ----------

  /** Setting a field overwrites the one with its tag where it stands, or adds one at the end. */
  lemma SetsInPlace(fields: seq<Field>, number: Tag, value: string, i: nat)
    requires Unique(fields) && i <= |fields| && (i < |fields| ==> fields[i].number == number)
    requires i == |fields| ==> forall j :: 0 <= j < |fields| ==> fields[j].number != number
    ensures SetIn(fields, number, value)
         == if i < |fields| then fields[..i] + [Field(number, value)] + fields[i + 1..]
            else fields + [Field(number, value)]
  {
    forall j | 0 <= j < i
      ensures fields[j].number != number
    {
      assert i < |fields| ==> Differ(fields[j], fields[i]);
    }
    FindTagIs(fields, number, i);
  }

  // ---------- pieces ----------

  function Joined(pieces: seq<string>, delimiter: char): string
  {
    if pieces == [] then "" else pieces[0] + [delimiter] + Joined(pieces[1..], delimiter)
  }

  lemma JoinedCons(first: string, rest: seq<string>, delimiter: char)
    ensures Joined([first] + rest, delimiter) == first + [delimiter] + Joined(rest, delimiter)
  {
    assert ([first] + rest)[1..] == rest;
  }

  /** Each closed by the delimiter, the pieces are the payload, but for one that may be missing at its end. */
  lemma {:induction false} PiecesJoined(payload: string, delimiter: char)
    ensures var whole := Joined(Pieces(payload, delimiter), delimiter);
            if payload == "" || payload[|payload| - 1] == delimiter then whole == payload
            else whole == payload + [delimiter]
    decreases |payload|
  {
    hide Joined, Pieces;
    if payload == "" {
      NoPieces(delimiter);
    } else {
      var end := IndexOf(payload, delimiter);
      var first := payload[..end];
      if end < |payload| {
        var rest := payload[end + 1..];
        var whole := Joined(Pieces(rest, delimiter), delimiter);
        PieceFirst(first, rest, delimiter);
        JoinedCons(first, Pieces(rest, delimiter), delimiter);
        PiecesJoined(rest, delimiter);
        assert payload == first + [delimiter] + rest;
        assert rest != "" ==> rest[|rest| - 1] == payload[|payload| - 1];
        assert first + [delimiter] + (rest + [delimiter]) == payload + [delimiter];
      } else {
        OnePiece(payload, delimiter);
      }
    }
  }

  lemma NoPieces(delimiter: char)
    ensures Joined(Pieces("", delimiter), delimiter) == ""
  {
  }

  lemma OnePiece(payload: string, delimiter: char)
    requires payload != "" && IndexOf(payload, delimiter) == |payload|
    ensures Joined(Pieces(payload, delimiter), delimiter) == payload + [delimiter]
  {
    assert payload[..|payload|] == payload;
    assert [payload] + [] == [payload];
    JoinedCons(payload, [], delimiter);
    assert payload + [delimiter] + "" == payload + [delimiter];
  }

  // ---------- what a payload must look like, and what is read from it ----------

  /** The piece is a tag in digits, an equals sign, and any value. */
  predicate Spells(piece: string, digits: string, value: string)
  {
    && digits != "" && Decimal.AllDigits(digits) && Decimal.Number(digits) < 0x1_0000
    && piece == digits + "=" + value
  }

  ghost predicate Readable(piece: string)
  {
    piece == "" || exists digits, value :: Spells(piece, digits, value)
  }

  /** The k-th piece is the last that spells the tag. */
  ghost predicate LastFor(pieces: seq<string>, tag: Tag, k: nat, digits: string, value: string)
  {
    && k < |pieces| && Spells(pieces[k], digits, value) && Decimal.Number(digits) == tag
    && forall j, d, v :: k < j < |pieces| && Spells(pieces[j], d, v) ==> Decimal.Number(d) != tag
  }

  /** No piece spells the tag. */
  ghost predicate NeverSpelled(pieces: seq<string>, tag: Tag)
  {
    forall j, d, v :: 0 <= j < |pieces| && Spells(pieces[j], d, v) ==> Decimal.Number(d) != tag
  }

  /** The field that a piece spells, if it spells one. */
  function FieldOf(piece: string): Option<Field>
  {
    var separator := IndexOf(piece, '=');
    if separator == |piece| || separator == 0 then None
    else
      match Decimal.Parse(piece[..separator], 0x1_0000)
      case None => None
      case Some(number) => Some(Field(number, piece[separator + 1..]))
  }

  lemma SpelledField(piece: string, digits: string, value: string)
    requires Spells(piece, digits, value)
    ensures FieldOf(piece) == Some(Field(Decimal.Number(digits), value)) && piece != ""
  {
    IndexIs(piece, '=', |digits|);
    assert piece[..|digits|] == digits && piece[|digits| + 1..] == value;
  }

  lemma FieldSpelled(piece: string) returns (digits: string)
    requires FieldOf(piece).Some?
    ensures Spells(piece, digits, FieldOf(piece).value.value)
    ensures Decimal.Number(digits) == FieldOf(piece).value.number
  {
    var separator := IndexOf(piece, '=');
    digits := piece[..separator];
    assert piece == digits + "=" + piece[separator + 1..];
  }

  lemma ReadableField(piece: string)
    ensures Readable(piece) <==> piece == "" || FieldOf(piece).Some?
  {
    if piece != "" && Readable(piece) {
      var digits, value :| Spells(piece, digits, value);
      SpelledField(piece, digits, value);
    }
    if FieldOf(piece).Some? {
      var digits := FieldSpelled(piece);
    }
  }

  lemma AbsorbField(acc: Msg, piece: string)
    ensures Absorb(acc, piece).Ok? <==> Readable(piece)
    ensures Readable(piece) ==>
              var m := Absorb(acc, piece).value;
              if piece == "" then m == acc
              else if FieldOf(piece).value.number == 35 then m == acc.(msgType := FieldOf(piece).value.value)
              else m == acc.(fields := SetIn(acc.fields, FieldOf(piece).value.number, FieldOf(piece).value.value))
  {
    hide IndexOf, Decimal.Parse, SetIn;
    ReadableField(piece);
  }

  /** The value of the last piece that spells the tag, else the given one. */
  function LastValue(pieces: seq<string>, tag: Tag, before: Option<string>): Option<string>
    decreases |pieces|
  {
    if pieces == [] then before
    else
      var now := match FieldOf(pieces[0])
                 case Some(f) => if f.number == tag then Some(f.value) else before
                 case None => before;
      LastValue(pieces[1..], tag, now)
  }

  lemma {:induction false} LastValueIs(pieces: seq<string>, tag: Tag, before: Option<string>, k: nat, digits: string,
      value: string)
    requires LastFor(pieces, tag, k, digits, value)
    ensures LastValue(pieces, tag, before) == Some(value)
    decreases |pieces|
  {
    hide FieldOf, Decimal.AllDigits;
    if k == 0 {
      SpelledField(pieces[0], digits, value);
      forall j, d, v | 0 <= j < |pieces[1..]| && Spells(pieces[1..][j], d, v)
        ensures Decimal.Number(d) != tag
      {
        assert pieces[1..][j] == pieces[j + 1];
      }
      LastValueNone(pieces[1..], tag, Some(value));
    } else {
      var now := match FieldOf(pieces[0])
                 case Some(f) => if f.number == tag then Some(f.value) else before
                 case None => before;
      assert pieces[1..][k - 1] == pieces[k];
      forall j, d, v | k - 1 < j < |pieces[1..]| && Spells(pieces[1..][j], d, v)
        ensures Decimal.Number(d) != tag
      {
        assert pieces[1..][j] == pieces[j + 1];
      }
      LastValueIs(pieces[1..], tag, now, k - 1, digits, value);
    }
  }

  lemma {:induction false} LastValueNone(pieces: seq<string>, tag: Tag, before: Option<string>)
    requires NeverSpelled(pieces, tag)
    ensures LastValue(pieces, tag, before) == before
    decreases |pieces|
  {
    if pieces != [] {
      if FieldOf(pieces[0]).Some? {
        var digits := FieldSpelled(pieces[0]);
        assert Decimal.Number(digits) != tag;
      }
      forall j, d, v | 0 <= j < |pieces[1..]| && Spells(pieces[1..][j], d, v)
        ensures Decimal.Number(d) != tag
      {
        assert pieces[1..][j] == pieces[j + 1];
      }
      LastValueNone(pieces[1..], tag, before);
    }
  }

  lemma {:induction false} AbsorbAllReads(acc: Msg, pieces: seq<string>, tag: Tag)
    ensures AbsorbAll(acc, pieces).Ok? <==> forall i :: 0 <= i < |pieces| ==> Readable(pieces[i])
    ensures AbsorbAll(acc, pieces).Ok? ==>
              var m := AbsorbAll(acc, pieces).value;
              if tag == 35 then Some(m.msgType) == LastValue(pieces, 35, Some(acc.msgType))
              else GetIn(m.fields, tag) == LastValue(pieces, tag, GetIn(acc.fields, tag))
    decreases |pieces|
  {
    hide FieldOf, Absorb, GetIn, SetIn, Readable;
    if pieces != [] {
      AbsorbField(acc, pieces[0]);
      ReadableField(pieces[0]);
      EmptySpellsNothing();
      assert forall i :: 0 < i < |pieces| ==> pieces[1..][i - 1] == pieces[i];
      if Absorb(acc, pieces[0]).Ok? {
        var acc' := Absorb(acc, pieces[0]).value;
        AbsorbAllReads(acc', pieces[1..], tag);
        if FieldOf(pieces[0]).Some? {
          var f := FieldOf(pieces[0]).value;
          GetOfSet(acc.fields, f.number, f.value, tag);
        }
      }
    }
  }

  lemma EmptySpellsNothing()
    ensures FieldOf("") == None
  {
  }

  lemma OneLastValue(pieces: seq<string>, tag: Tag, k: nat, digits: string, value: string, l: nat, d: string,
      v: string)
    requires LastFor(pieces, tag, k, digits, value) && LastFor(pieces, tag, l, d, v)
    ensures value == v
  {
    LastValueIs(pieces, tag, None, k, digits, value);
    LastValueIs(pieces, tag, None, l, d, v);
  }

  /** Some piece is the last for its tag as soon as one spells it. */
  lemma {:induction false} SomeLast(pieces: seq<string>, tag: Tag) returns (k: nat, digits: string, value: string)
    requires !NeverSpelled(pieces, tag)
    ensures LastFor(pieces, tag, k, digits, value)
    decreases |pieces|
  {
    var n := |pieces| - 1;
    if d, v :| Spells(pieces[n], d, v) && Decimal.Number(d) == tag {
      k, digits, value := n, d, v;
    } else {
      forall j, d, v | 0 <= j < |pieces| && Spells(pieces[j], d, v) && Decimal.Number(d) == tag
        ensures j < n && pieces[..n][j] == pieces[j]
      {
      }
      var j, d, v :| 0 <= j < |pieces| && Spells(pieces[j], d, v) && Decimal.Number(d) == tag;
      assert Spells(pieces[..n][j], d, v);
      k, digits, value := SomeLast(pieces[..n], tag);
      forall i, d, v | k < i < |pieces| && Spells(pieces[i], d, v)
        ensures Decimal.Number(d) != tag
      {
        assert i < n ==> pieces[..n][i] == pieces[i];
      }
    }
  }

  /** A payload is read exactly when every piece is readable and the last piece for tag 35 gives a type. */
  lemma ReadExactly(payload: string, delimiter: char)
    ensures var pieces := Pieces(payload, delimiter);
            Decoded(payload, delimiter).Ok? <==>
            && (forall i :: 0 <= i < |pieces| ==> Readable(pieces[i]))
            && exists k: nat, digits, value :: LastFor(pieces, 35, k, digits, value) && value != ""
  {
    hide AbsorbAll, Pieces, LastFor, NeverSpelled, Readable;
    var pieces := Pieces(payload, delimiter);
    AbsorbAllReads(Msg("", []), pieces, 35);
    if NeverSpelled(pieces, 35) {
      LastValueNone(pieces, 35, Some(""));
      NothingLast(pieces, 35);
    } else {
      var k, digits, value := SomeLast(pieces, 35);
      LastValueIs(pieces, 35, Some(""), k, digits, value);
      forall l: nat, d, v | LastFor(pieces, 35, l, d, v)
        ensures v == value
      {
        OneLastValue(pieces, 35, k, digits, value, l, d, v);
      }
    }
  }

  lemma NothingLast(pieces: seq<string>, tag: Tag)
    requires NeverSpelled(pieces, tag)
    ensures forall k: nat, digits, value :: !LastFor(pieces, tag, k, digits, value)
  {
    forall k: nat, digits, value
      ensures !LastFor(pieces, tag, k, digits, value)
    {
      if LastFor(pieces, tag, k, digits, value) {
        assert false;
      }
    }
  }

  /** What is read under each tag is the value of the last piece that spells it, and nothing if none does. */
  lemma ReadsLast(payload: string, delimiter: char, tag: Tag, k: nat, digits: string, value: string)
    requires Decoded(payload, delimiter).Ok?
    ensures var m, pieces := Decoded(payload, delimiter).value, Pieces(payload, delimiter);
            && (LastFor(pieces, tag, k, digits, value) ==>
                  if tag == 35 then m.msgType == value else GetIn(m.fields, tag) == Some(value))
            && (NeverSpelled(pieces, tag) && tag != 35 ==> GetIn(m.fields, tag) == None)
  {
    hide AbsorbAll, Pieces, LastFor, NeverSpelled, Readable;
    var pieces := Pieces(payload, delimiter);
    AbsorbAllReads(Msg("", []), pieces, tag);
    if LastFor(pieces, tag, k, digits, value) {
      LastValueIs(pieces, tag, if tag == 35 then Some("") else None, k, digits, value);
    }
    if NeverSpelled(pieces, tag) && tag != 35 {
      LastValueNone(pieces, tag, None);
    }
  }

  lemma {:induction false} AbsorbFirstBad(acc: Msg, pieces: seq<string>, k: nat)
    requires k < |pieces| && !Readable(pieces[k]) && forall i :: 0 <= i < k ==> Readable(pieces[i])
    ensures AbsorbAll(acc, pieces) == Err(BadPiece(pieces[k]))
    decreases |pieces|
  {
    hide Absorb, Readable;
    AbsorbField(acc, pieces[0]);
    if k == 0 {
      AbsorbBad(acc, pieces[0]);
    } else {
      assert forall i :: 0 < i < |pieces| ==> pieces[1..][i - 1] == pieces[i];
      AbsorbFirstBad(Absorb(acc, pieces[0]).value, pieces[1..], k - 1);
    }
  }

  /** Nothing before the first equals sign, or no such sign, is malformed; anything else there that is bad is no tag. */
  function BadPiece(piece: string): FixError
  {
    if '=' !in piece || piece[0] == '=' then MalformedField(piece) else InvalidTag(piece[..IndexOf(piece, '=')])
  }

  lemma AbsorbBad(acc: Msg, piece: string)
    requires !Readable(piece)
    ensures Absorb(acc, piece) == Err(BadPiece(piece))
  {
    ReadableField(piece);
    assert IndexOf(piece, '=') == 0 <==> piece[0] == '=';
  }

  /** Otherwise the error is that of the first unreadable piece, or that there is no type. */
  lemma ErrorExactly(payload: string, delimiter: char, k: nat)
    requires Decoded(payload, delimiter).Err? && k <= |Pieces(payload, delimiter)|
    requires forall i :: 0 <= i < k ==> Readable(Pieces(payload, delimiter)[i])
    requires k < |Pieces(payload, delimiter)| ==> !Readable(Pieces(payload, delimiter)[k])
    ensures Decoded(payload, delimiter).error
         == if k == |Pieces(payload, delimiter)| then MissingMsgType else BadPiece(Pieces(payload, delimiter)[k])
  {
    hide Pieces, Readable;
    var pieces := Pieces(payload, delimiter);
    AbsorbAllReads(Msg("", []), pieces, 35);
    if k < |pieces| {
      AbsorbFirstBad(Msg("", []), pieces, k);
    }
  }

}
