/**
 A string in a buffer of fixed size: its length in the first cell, its characters after it, zeros to the end.
 Equality looks at the characters only, hashing at the whole buffer, so the zeros matter.
 */
module FixedStrings {
  import opened Wrappers
  import Decimal

  const NUL: char := 0 as char

  /** The one buffer that holds a content: length, content, zeros. */
  function Layout(n: nat, content: string): (buffer: string)
    requires |content| <= n <= 127
    ensures |buffer| == n + 2
  {
    [|content| as char] + content + seq(n + 1 - |content|, _ => NUL)
  }

  function ContentOf(buffer: string): string
    requires buffer != [] && buffer[0] as nat < |buffer|
  {
    buffer[1..1 + buffer[0] as nat]
  }

  lemma ContentOfLayout(n: nat, content: string)
    requires |content| <= n <= 127
    ensures ContentOf(Layout(n, content)) == content
  {
    var buffer := Layout(n, content);
    assert buffer[0] as nat == |content|;
    assert buffer[1..1 + |content|] == content;
  }

  /** Equal contents and equal buffers are the same thing, at one size; at two sizes the buffers always differ. */
  lemma LayoutsAgree(n: nat, a: string, m: nat, b: string)
    requires |a| <= n <= 127 && |b| <= m <= 127
    ensures Layout(n, a) == Layout(m, b) <==> n == m && a == b
  {
    ContentOfLayout(n, a);
    ContentOfLayout(m, b);
    assert |Layout(n, a)| == n + 2 && |Layout(m, b)| == m + 2;
  }

  function PrintInt(number: int): string
  {
    if number < 0 then "-" + Decimal.Print(-number) else Decimal.Print(number)
  }

  /** A printed number starts with a minus exactly when it is negative, and the rest is read as its magnitude. */
  lemma PrintIntReads(number: int)
    ensures PrintInt(number) != "" && (PrintInt(number)[0] == '-' <==> number < 0)
    ensures number >= 0 ==> Decimal.Parse(PrintInt(number), number + 1) == Some(number)
    ensures number < 0 ==> Decimal.Parse(PrintInt(number)[1..], -number + 1) == Some(-number)
  {
    Decimal.ParseOfPrint(if number < 0 then -number else number, if number < 0 then -number + 1 else number + 1);
    assert number >= 0 ==> Decimal.IsDigit(PrintInt(number)[0]);
    assert number < 0 ==> PrintInt(number)[1..] == Decimal.Print(-number);
  }

  predicate EndsWith(s: string, suffix: string)
  {
    |suffix| <= |s| && s[|s| - |suffix|..] == suffix
  }

  class FixedString {
    const n: nat
    const buffer: array<char>
    var truncated: bool

    /** Length within bounds, and zeros after the content: the buffer is the layout of its content. */
    ghost predicate Valid()
      reads this, buffer
    {
      && n <= 127 && buffer.Length == n + 2 && buffer[0] as nat <= n
      && buffer[..] == Layout(n, View())
    }

    function View(): string
      requires buffer.Length > 0 && buffer[0] as nat < buffer.Length
      reads buffer
    {
      buffer[1..1 + buffer[0] as nat]
    }

    constructor (n: nat)
      requires n <= 127
      ensures Valid() && this.n == n && fresh(buffer) && View() == "" && !truncated
    {
      this.n := n;
      var cells := new char[n + 2](_ => NUL);
      buffer := cells;
      truncated := false;
      new;
      assert buffer[..] == Layout(n, View());
    }

    /** Write a content that fits into a zeroed buffer: length first, then the characters. */
    method Fill(content: string)
      requires n <= 127 && buffer.Length == n + 2 && |content| <= n
      requires forall i :: 0 <= i < buffer.Length ==> buffer[i] == NUL
      modifies buffer
      ensures Valid() && View() == content
    {
      buffer[0] := |content| as char;
      for i := 0 to |content|
        invariant buffer[0] == |content| as char
        invariant forall k :: 0 <= k < i ==> buffer[k + 1] == content[k]
        invariant forall k :: i < k < buffer.Length ==> buffer[k] == NUL
      {
        buffer[i + 1] := content[i];
      }
      assert buffer[1..1 + |content|] == content;
      assert buffer[..] == Layout(n, content);
    }

    /** From a literal, which the type system already made fit. */
    constructor Literal(n: nat, content: string)
      requires |content| <= n <= 127
      ensures Valid() && this.n == n && fresh(buffer) && View() == content && !truncated
    {
      this.n := n;
      var cells := new char[n + 2](_ => NUL);
      buffer := cells;
      truncated := false;
      new;
      Fill(content);
    }

    /** What does not fit is cut off, and the cut is remembered. */
    constructor FromStringView(n: nat, content: string)
      requires n <= 127
      ensures Valid() && this.n == n && fresh(buffer)
      ensures View() == content[..if |content| < n then |content| else n] && (truncated <==> |content| > n)
    {
      this.n := n;
      var cells := new char[n + 2](_ => NUL);
      buffer := cells;
      truncated := |content| > n;
      new;
      var size := if |content| < n then |content| else n;
      Fill(content[..size]);
    }

    /** A larger string from a smaller one: the smaller buffer whole, and zeros beyond it. */
    constructor Widen(n: nat, other: FixedString)
      requires other.Valid() && other.n <= n <= 127
      ensures Valid() && this.n == n && fresh(buffer) && View() == other.View() && truncated == other.truncated
    {
      this.n := n;
      var cells := new char[n + 2](_ => NUL);
      buffer := cells;
      truncated := other.truncated;
      new;
      ghost var content := other.View();
      for i := 0 to other.buffer.Length
        invariant other.buffer[..] == Layout(other.n, content) && truncated == other.truncated
        invariant forall k :: 0 <= k < i ==> buffer[k] == other.buffer[k]
        invariant forall k :: i <= k < buffer.Length ==> buffer[k] == NUL
      {
        buffer[i] := other.buffer[i];
      }
      Relaid(content, other.n);
    }

    /** A buffer that starts as a smaller layout and goes on with zeros is the layout at its own size. */
    lemma Relaid(content: string, m: nat)
      requires |content| <= m <= n <= 127 && buffer.Length == n + 2
      requires forall k :: 0 <= k < m + 2 ==> buffer[k] == Layout(m, content)[k]
      requires forall k :: m + 2 <= k < buffer.Length ==> buffer[k] == NUL
      ensures Valid() && View() == content
    {
      assert buffer[..] == Layout(n, content);
      ContentOfLayout(n, content);
      assert View() == ContentOf(buffer[..]);
    }

    /** Assign a string of at most this size; cells beyond the other buffer are cleared. */
    method Assign(other: FixedString)
      requires Valid() && other.Valid() && other.n <= n
      modifies this, buffer
      ensures Valid() && View() == old(other.View()) && truncated == old(other.truncated)
    {
      ghost var content := other.View();
      ghost var source := other.buffer[..];
      var size, cut := other.buffer.Length, other.truncated;
      for i := 0 to size
        invariant forall k :: 0 <= k < i ==> buffer[k] == source[k]
        invariant forall k :: i <= k < size ==> other.buffer[k] == source[k]
      {
        buffer[i] := other.buffer[i];
      }
      for i := size to buffer.Length
        invariant forall k :: 0 <= k < size ==> buffer[k] == source[k]
        invariant forall k :: size <= k < i ==> buffer[k] == NUL
      {
        buffer[i] := NUL;
      }
      truncated := cut;
      Relaid(content, size - 2);
    }

    /** Drop a suffix if it is there. */
    method RemoveSuffix(chars: string) returns (r: FixedString)
      requires Valid()
      ensures fresh(r) && fresh(r.buffer) && r.Valid() && r.n == n && r.truncated == truncated
      ensures r.View() == if EndsWith(View(), chars) then View()[..|View()| - |chars|] else View()
    {
      var view := View();
      if EndsWith(view, chars) {
        view := view[..|view| - |chars|];
      }
      r := new FixedString.Literal(n, view);
      r.truncated := truncated;
    }

    static method From(n: nat, content: string) returns (r: Option<FixedString>)
      requires n <= 127
      ensures r.Some? <==> |content| <= n
      ensures r.Some? ==>
                && fresh(r.value) && r.value.Valid() && r.value.n == n
                && r.value.View() == content && !r.value.truncated
    {
      if |content| > n {
        return None;
      }
      var fs := new FixedString.FromStringView(n, content);
      return Some(fs);
    }

    /** Format in place; the length is stored only when the number fits. */
    static method FromNumber(n: nat, number: int) returns (r: Option<FixedString>)
      requires n <= 127
      ensures r.Some? <==> |PrintInt(number)| <= n
      ensures r.Some? ==> fresh(r.value) && r.value.Valid() && r.value.n == n && r.value.View() == PrintInt(number)
    {
      var fs := new FixedString(n);
      var text := PrintInt(number);
      for i := 0 to if |text| < n then |text| else n
        invariant fs.buffer[0] == NUL && fresh(fs.buffer)
        invariant forall k :: 0 <= k < i ==> fs.buffer[k + 1] == text[k]
        invariant forall k :: i < k < fs.buffer.Length ==> fs.buffer[k] == NUL
      {
        fs.buffer[i + 1] := text[i];
      }
      if |text| > n {
        return None;
      }
      fs.buffer[0] := |text| as char;
      assert fs.buffer[1..1 + |text|] == text;
      assert fs.buffer[..] == Layout(n, text);
      return Some(fs);
    }

    /** operator==: content only. */
    predicate Equals(other: FixedString)
      requires buffer.Length > 0 && buffer[0] as nat < buffer.Length
      requires other.buffer.Length > 0 && other.buffer[0] as nat < other.buffer.Length
      reads buffer, other.buffer
    {
      View() == other.View()
    }

    /**
     Strings of one size that compare equal have identical buffers, hence the same hash, whatever the hash function.
     */
    lemma EqualMeansSameHash(other: FixedString, hash: string -> nat)
      requires Valid() && other.Valid() && n == other.n
      ensures Equals(other) <==> buffer[..] == other.buffer[..]
      ensures Equals(other) ==> hash(buffer[..]) == hash(other.buffer[..])
    {
      LayoutsAgree(n, View(), n, other.View());
    }
  }

}
