/** Unsigned decimal numbers as text: how they are printed, and how a whole string is read as one. */
module Decimal {
  import opened Wrappers

  function Digit(n: nat): char
    requires n < 10
  {
    '0' + n as char
  }

  predicate IsDigit(c: char)
  {
    '0' <= c <= '9'
  }

  function ValueOf(c: char): nat
    requires IsDigit(c)
  {
    c as nat - '0' as nat
  }

  predicate AllDigits(s: string)
  {
    forall i :: 0 <= i < |s| ==> IsDigit(s[i])
  }

  /** No sign, no leading zeros. */
  function Print(n: nat): (s: string)
    ensures s != "" && AllDigits(s)
  {
    if n < 10 then [Digit(n)] else Print(n / 10) + [Digit(n % 10)]
  }

  function Number(s: string): nat
    requires AllDigits(s)
  {
    if s == "" then 0 else 10 * Number(s[..|s| - 1]) + ValueOf(s[|s| - 1])
  }

  /** std::from_chars over the whole string: digits only, at least one, and the value must fit below the limit. */
  function Parse(s: string, limit: nat): Option<nat>
  {
    if s == "" || !AllDigits(s) || Number(s) >= limit then None else Some(Number(s))
  }

  lemma {:induction false} NumberOfPrint(n: nat)
    ensures Number(Print(n)) == n
  {
    if n < 10 {
      assert Print(n)[..0] == "";
    } else {
      NumberOfPrint(n / 10);
      var s := Print(n);
      assert s[..|s| - 1] == Print(n / 10);
    }
  }

  /** Reading what was printed gives the number back, whenever it fits. */
  lemma ParseOfPrint(n: nat, limit: nat)
    requires n < limit
    ensures Parse(Print(n), limit) == Some(n)
  {
    NumberOfPrint(n);
  }

  /** A number is printed with no digit that some spelling of it lacks: only leading zeros are dropped. */
  lemma {:induction false} PrintWithin(s: string)
    requires s != "" && AllDigits(s)
    ensures forall c :: c in Print(Number(s)) ==> c in s
    decreases |s|
  {
    var front, last := s[..|s| - 1], s[|s| - 1];
    var n, v := Number(front), ValueOf(last);
    assert Digit(v) == last;
    assert (10 * n + v) / 10 == n && (10 * n + v) % 10 == v;
    if n > 0 {
      assert front != "";
      PrintWithin(front);
      assert Print(Number(s)) == Print(n) + [last];
    }
  }

}
