/** Control sequences with two numeric parameters, after section 5.4 of ECMA-48, written and read. */
module Terminal {
  import opened Basics
  import Decimal

  predicate IsDigit(b: byte) { 0x30 <= b <= 0x39 }

  /** The first byte at or behind `j` that is no digit, or the end. */
  function DigitsEnd(chunk: Bytes, j: nat): (end: nat)
    requires j <= |chunk|
    ensures j <= end <= |chunk| && (end < |chunk| ==> !IsDigit(chunk[end]))
    decreases |chunk| - j
  {
    if j == |chunk| || !IsDigit(chunk[j]) then j else DigitsEnd(chunk, j + 1)
  }

  /** ESC [ first ; second final */
  function Sequence(first: nat, second: nat, final: byte): Bytes {
    [0x1b, 0x5b] + Ascii(Decimal.Print(first)) + [0x3b] + Ascii(Decimal.Print(second)) + [final]
  }

  datatype Control = Control(first: nat, second: nat, final: byte)

  function Number(digits: Bytes): nat {
    if digits == [] then 0
    else
      var low: int := digits[|digits| - 1];
      10 * Number(digits[..|digits| - 1]) + (if low >= 0x30 then low - 0x30 else 0)
  }

  /** The same, read: digits, a semicolon, digits and one final byte. */
  function ReadSequence(b: Bytes): (r: Option<Control>) {
    if |b| < 2 || b[0] != 0x1b || b[1] != 0x5b then None
    else
      var m := DigitsEnd(b, 2);
      if m == 2 || m == |b| || b[m] != 0x3b then None
      else
        var n := DigitsEnd(b, m + 1);
        if n == m + 1 || n + 1 != |b| then None else Some(Control(Number(b[2..m]), Number(b[m + 1..n]), b[n]))
  }

  lemma {:induction false} DigitsRun(b: Bytes, from: nat, to: nat)
    requires from <= to < |b| && !IsDigit(b[to]) && forall i :: from <= i < to ==> IsDigit(b[i])
    ensures DigitsEnd(b, from) == to
    decreases |b| - from
  {
    if from < to {
      DigitsRun(b, from + 1, to);
    }
  }

  lemma {:induction false} PrintedNumber(n: nat)
    ensures Number(Ascii(Decimal.Print(n))) == n
    ensures var b := Ascii(Decimal.Print(n)); b != [] && forall i :: 0 <= i < |b| ==> IsDigit(b[i])
  {
    var text := Decimal.Print(n);
    var b := Ascii(text);
    forall i | 0 <= i < |b| ensures IsDigit(b[i]) {
      assert Decimal.IsDigit(text[i]);
    }
    if n < 10 {
      assert b[..0] == [];
      assert b == [0x30 + n];
    } else {
      PrintedNumber(n / 10);
      assert b[..|b| - 1] == Ascii(Decimal.Print(n / 10));
      assert b[|b| - 1] == 0x30 + n % 10;
    }
  }

  /** What is written reads back, the parameters in their order. */
  lemma SequenceReadsBack(first: nat, second: nat, final: byte)
    requires !IsDigit(final)
    ensures ReadSequence(Sequence(first, second, final)) == Some(Control(first, second, final))
  {
    var x, y := Ascii(Decimal.Print(first)), Ascii(Decimal.Print(second));
    var b := Sequence(first, second, final);
    PrintedNumber(first);
    PrintedNumber(second);
    var m := 2 + |x|;
    var n := m + 1 + |y|;
    assert b[2..m] == x && b[m + 1..n] == y && b[m] == 0x3b && b[n] == final && |b| == n + 1;
    assert forall i :: 2 <= i < m ==> b[i] == x[i - 2];
    assert forall i :: m + 1 <= i < n ==> b[i] == y[i - m - 1];
    DigitsRun(b, 2, m);
    DigitsRun(b, m + 1, n);
  }
}
