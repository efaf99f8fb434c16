/** Small vocabulary shared by the models: optional values, bytes, concatenation and search in sequences. */
module Basics {
  datatype Option<+T> = None | Some(value: T)

  type byte = x: int | 0 <= x < 256

  type Bytes = seq<byte>

  function Min(a: int, b: int): int {
    if a <= b then a else b
  }

  function Max(a: int, b: int): int {
    if a >= b then a else b
  }

  function Concat<T>(parts: seq<seq<T>>): seq<T> {
    if parts == [] then [] else parts[0] + Concat(parts[1..])
  }

  lemma ConcatCons<T>(first: seq<T>, rest: seq<seq<T>>)
    ensures Concat([first] + rest) == first + Concat(rest)
  {
    assert ([first] + rest)[1..] == rest;
  }

  lemma Associative<T>(a: seq<T>, b: seq<T>, c: seq<T>)
    ensures a + (b + c) == (a + b) + c
  {
  }

  lemma ConcatAppendStep<T>(first: seq<T>, rest: seq<seq<T>>, b: seq<seq<T>>)
    requires Concat(rest + b) == Concat(rest) + Concat(b)
    ensures Concat([first] + rest + b) == Concat([first] + rest) + Concat(b)
  {
    ConcatCons(first, rest);
    ConcatCons(first, rest + b);
    Associative([first], rest, b);
    Associative(first, Concat(rest), Concat(b));
  }

  lemma {:induction false} ConcatAppend<T>(a: seq<seq<T>>, b: seq<seq<T>>)
    ensures Concat(a + b) == Concat(a) + Concat(b)
  {
    if a == [] {
      assert a + b == b;
    } else {
      ConcatAppend(a[1..], b);
      ConcatAppendStep(a[0], a[1..], b);
      assert a == [a[0]] + a[1..];
    }
  }

  lemma ConcatSnoc<T>(a: seq<seq<T>>, last: seq<T>)
    ensures Concat(a + [last]) == Concat(a) + last
  {
    ConcatAppend(a, [last]);
    ConcatCons(last, []);
    assert [last] + [] == [last];
  }

  /** Where `x` first occurs. */
  function Find<T(==)>(s: seq<T>, x: T): (r: Option<nat>)
    ensures r.Some? ==> r.value < |s| && s[r.value] == x
    ensures forall i :: 0 <= i < (if r.Some? then r.value else |s|) ==> s[i] != x
  {
    if s == [] then None
    else if s[0] == x then Some(0)
    else
      var r := Find(s[1..], x);
      if r.None? then None else Some(r.value + 1)
  }

  lemma FindFirst<T>(s: seq<T>, x: T, at: nat)
    requires at < |s| && s[at] == x
    requires forall i :: 0 <= i < at ==> s[i] != x
    ensures Find(s, x) == Some(at)
  {
    assert Find(s, x).Some?;
  }

  function Ascii(s: string): (b: seq<byte>)
    requires forall i :: 0 <= i < |s| ==> s[i] as int < 128
    ensures |b| == |s|
  {
    seq(|s|, i requires 0 <= i < |s| => s[i] as int)
  }

  function Pow2(n: nat): (r: nat)
    ensures r >= 1
  {
    if n == 0 then 1 else 2 * Pow2(n - 1)
  }
}

/** Decimal text of a natural number, as the formatting machinery prints it and `str::parse` reads it. */
module Decimal {
  import opened Basics

  predicate IsDigit(c: char) {
    '0' <= c <= '9'
  }

  function Digit(n: nat): (c: char)
    requires n < 10
    ensures IsDigit(c) && (c as int) - ('0' as int) == n
  {
    ('0' as int + n) as char
  }

  function Print(n: nat): (s: string)
    ensures s != [] && forall i :: 0 <= i < |s| ==> IsDigit(s[i])
  {
    if n < 10 then [Digit(n)] else Print(n / 10) + [Digit(n % 10)]
  }

  function Value(s: string): (n: nat)
    requires forall i :: 0 <= i < |s| ==> IsDigit(s[i])
  {
    if s == [] then 0 else
      assert IsDigit(s[|s| - 1]);
      10 * Value(s[..|s| - 1]) + (s[|s| - 1] as int - '0' as int)
  }

  /** Parsing an unsigned integer below `bound`: an optional plus sign, at least one digit and nothing else. */
  function Parse(s: string, bound: nat): (r: Option<nat>) {
    var digits := if s != [] && s[0] == '+' then s[1..] else s;
    if digits != [] && (forall i :: 0 <= i < |digits| ==> IsDigit(digits[i])) && Value(digits) < bound
    then Some(Value(digits)) else None
  }

  lemma {:induction false} ValuePrint(n: nat)
    ensures Value(Print(n)) == n
  {
    if n < 10 {
      assert Print(n)[..0] == [];
    } else {
      ValuePrint(n / 10);
      assert Print(n)[..|Print(n)| - 1] == Print(n / 10);
    }
  }

  lemma ParsePrint(n: nat, bound: nat)
    requires n < bound
    ensures Parse(Print(n), bound) == Some(n)
  {
    ValuePrint(n);
    assert IsDigit(Print(n)[0]);
  }
}

/** Text as the standard library trims it and splits it into lines. */
module Text {
  import opened Basics

  /** The characters with the Unicode property White_Space. */
  predicate IsWhitespace(c: char) {
    var n := c as int;
    || 0x09 <= n <= 0x0d || n == 0x20 || n == 0x85 || n == 0xa0 || n == 0x1680 || 0x2000 <= n <= 0x200a
    || n == 0x2028 || n == 0x2029 || n == 0x202f || n == 0x205f || n == 0x3000
  }

  function Trim(s: string): (r: string)
    ensures r == [] <==> forall i :: 0 <= i < |s| ==> IsWhitespace(s[i])
  {
    if s == [] then []
    else if IsWhitespace(s[0]) then Trim(s[1..])
    else if IsWhitespace(s[|s| - 1]) then Trim(s[..|s| - 1])
    else s
  }

  /** The text before the first newline, and the text after it. */
  function Head(s: string): string {
    if s == [] || s[0] == '\n' then [] else [s[0]] + Head(s[1..])
  }

  function Tail(s: string): string {
    if s == [] then [] else if s[0] == '\n' then s[1..] else Tail(s[1..])
  }

  predicate NoWhitespace(s: string) {
    forall i :: 0 <= i < |s| ==> !IsWhitespace(s[i])
  }

  lemma {:induction false} SplitLine(line: string, rest: string)
    requires NoWhitespace(line)
    ensures Head(line + ['\n'] + rest) == line && Tail(line + ['\n'] + rest) == rest
  {
    var s := line + ['\n'] + rest;
    if line == [] {
      assert s[0] == '\n' && s[1..] == rest;
    } else {
      SplitLine(line[1..], rest);
      assert s[0] == line[0] && s[1..] == line[1..] + ['\n'] + rest;
    }
  }

  lemma {:induction false} WholeLine(line: string)
    requires NoWhitespace(line)
    ensures Head(line) == line
  {
    if line != [] {
      WholeLine(line[1..]);
      assert line == [line[0]] + line[1..];
    }
  }
}

/** Numbers of a fixed width in bytes, the most significant first. */
module BigEndians {
  import opened Basics

  function Pow256(width: nat): (p: nat)
    ensures p >= 1
  {
    if width == 0 then 1 else 256 * Pow256(width - 1)
  }

  function BigEndian(n: nat, width: nat): (b: seq<byte>)
    ensures |b| == width
  {
    if width == 0 then [] else BigEndian(n / 256, width - 1) + [n % 256]
  }

  function FromBigEndian(b: seq<byte>): (n: nat) {
    if b == [] then 0 else
      var low: int := b[|b| - 1];
      256 * FromBigEndian(b[..|b| - 1]) + low
  }

  lemma {:induction false} BigEndianRoundTrip(n: nat, width: nat)
    requires n < Pow256(width)
    ensures FromBigEndian(BigEndian(n, width)) == n
  {
    if width > 0 {
      BigEndianRoundTrip(n / 256, width - 1);
      assert BigEndian(n, width)[..width - 1] == BigEndian(n / 256, width - 1);
    }
  }

  lemma {:induction false} FromBigEndianBound(b: seq<byte>)
    ensures FromBigEndian(b) < Pow256(|b|)
  {
    if b != [] {
      FromBigEndianBound(b[..|b| - 1]);
    }
  }

  lemma TwoBytes(n: nat)
    requires n < 0x1_0000
    ensures BigEndian(n, 2) == [n / 256, n % 256]
  {
    assert BigEndian(n / 256, 1) == BigEndian(n / 256 / 256, 0) + [n / 256 % 256];
  }

  lemma FourBytes(n: nat)
    requires n < 0x1_0000_0000
    ensures BigEndian(n, 4) == [n / 0x100_0000, n / 0x1_0000 % 256, n / 256 % 256, n % 256]
  {
    assert BigEndian(n, 4) == BigEndian(n / 256, 3) + [n % 256];
    assert BigEndian(n / 256, 3) == BigEndian(n / 256 / 256, 2) + [n / 256 % 256];
    TwoBytes(n / 256 / 256);
    assert n / 256 / 256 == n / 0x1_0000 && n / 256 / 256 / 256 == n / 0x100_0000;
  }

  lemma Widths()
    ensures Pow256(1) == 0x100 && Pow256(2) == 0x1_0000 && Pow256(4) == 0x1_0000_0000
    ensures Pow256(8) == 0x1_0000_0000_0000_0000
  {
    assert Pow256(3) == 256 * Pow256(2);
    assert Pow256(5) == 256 * Pow256(4);
    assert Pow256(7) == 256 * Pow256(6);
  }
}
