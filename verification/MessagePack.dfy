/**
 The MessagePack primitives the history format is made of, after the "Formats" part of the MessagePack specification:
 the nil, int, str and array families. Readers consume the marker of a value of another type and report it.
 */
module MessagePack {
  import opened Basics
  import opened BigEndians

  datatype Result<+T> = Ok(value: T) | Err {
    predicate IsFailure() { Err? }
    function PropagateFailure<U>(): Result<U> requires Err? { Err }
    function Extract(): T requires Ok? { value }
  }

  /** What a reader finds: a value and the bytes behind it, a marker of another type, or damage. */
  datatype Read<+T> = Got(value: T, rest: Bytes) | Mismatch(marker: byte, rest: Bytes) | Bad

  function Take<T>(r: Read<T>): Result<(T, Bytes)> {
    if r.Got? then Ok((r.value, r.rest)) else Err
  }

  /** An optional value is the value or nil. */
  function TakeOptional<T>(r: Read<T>): Result<(Option<T>, Bytes)> {
    match r
    case Got(value, rest) => Ok((Some(value), rest))
    case Mismatch(marker, rest) => if marker == 0xc0 then Ok((None, rest)) else Err
    case Bad => Err
  }

  /** A number of `width` bytes behind a marker. */
  function ReadFixed(b: Bytes, width: nat): (r: Read<nat>) {
    if |b| < 1 + width then Bad else Got(FromBigEndian(b[1..1 + width]), b[1 + width..])
  }

  lemma ReadFixedWritten(marker: byte, n: nat, width: nat, rest: Bytes)
    requires n < Pow256(width)
    ensures ReadFixed([marker] + BigEndian(n, width) + rest, width) == Got(n, rest)
  {
    var b := [marker] + BigEndian(n, width) + rest;
    assert b[1..1 + width] == BigEndian(n, width) && b[1 + width..] == rest;
    BigEndianRoundTrip(n, width);
  }

  // --- integers --------------------------------------------------------------------------------------------

  predicate U16(n: int) { 0 <= n < 0x1_0000 }
  predicate U32(n: int) { 0 <= n < 0x1_0000_0000 }
  predicate U64(n: int) { 0 <= n < 0x1_0000_0000_0000_0000 }
  predicate I64(n: int) { -0x8000_0000_0000_0000 <= n < 0x8000_0000_0000_0000 }

  function WriteU16(n: nat): Bytes { [0xcd] + BigEndian(n, 2) }
  function WriteU64(n: nat): Bytes { [0xcf] + BigEndian(n, 8) }

  /** Reads exactly the 16-bit form. */
  function ReadU16(b: Bytes): (r: Read<nat>) {
    if b == [] then Bad else if b[0] == 0xcd then ReadFixed(b, 2) else Mismatch(b[0], b[1..])
  }

  /** Reads exactly the 64-bit form. */
  function ReadU64(b: Bytes): (r: Read<nat>) {
    if b == [] then Bad else if b[0] == 0xcf then ReadFixed(b, 8) else Mismatch(b[0], b[1..])
  }

  /** The shortest integer form. */
  function WriteInt(v: int): Bytes
    requires I64(v)
  {
    if v >= 0 then
      if v < 0x80 then [v]
      else if v < 0x100 then [0xcc] + BigEndian(v, 1)
      else if v < 0x1_0000 then [0xcd] + BigEndian(v, 2)
      else if v < 0x1_0000_0000 then [0xce] + BigEndian(v, 4)
      else [0xcf] + BigEndian(v, 8)
    else
      if v >= -0x20 then [v + 0x100]
      else if v >= -0x80 then [0xd0] + BigEndian(v + 0x100, 1)
      else if v >= -0x8000 then [0xd1] + BigEndian(v + 0x1_0000, 2)
      else if v >= -0x8000_0000 then [0xd2] + BigEndian(v + 0x1_0000_0000, 4)
      else [0xd3] + BigEndian(v + 0x1_0000_0000_0000_0000, 8)
  }

  function Signed(r: Read<nat>, half: nat): Read<int> {
    match r
    case Got(n, rest) => Got(if n < half then n else n - 2 * half, rest)
    case Mismatch(m, rest) => Mismatch(m, rest)
    case Bad => Bad
  }

  function ReadAnyInt(b: Bytes): (r: Read<int>) {
    if b == [] then Bad
    else
      var m: int := b[0];
      if m < 0x80 then Got(m, b[1..])
      else if m >= 0xe0 then Got(m - 0x100, b[1..])
      else if m == 0xcc then Signed(ReadFixed(b, 1), 0x100)
      else if m == 0xcd then Signed(ReadFixed(b, 2), 0x1_0000)
      else if m == 0xce then Signed(ReadFixed(b, 4), 0x1_0000_0000)
      else if m == 0xcf then Signed(ReadFixed(b, 8), 0x1_0000_0000_0000_0000)
      else if m == 0xd0 then Signed(ReadFixed(b, 1), 0x80)
      else if m == 0xd1 then Signed(ReadFixed(b, 2), 0x8000)
      else if m == 0xd2 then Signed(ReadFixed(b, 4), 0x8000_0000)
      else if m == 0xd3 then Signed(ReadFixed(b, 8), 0x8000_0000_0000_0000)
      else Mismatch(m, b[1..])
  }

  /** Any integer form, as long as the value is in low..high. */
  function ReadInt(b: Bytes, low: int, high: int): (r: Read<int>) {
    var r := ReadAnyInt(b);
    if r.Got? && !(low <= r.value < high) then Bad else r
  }

  function ReadI64(b: Bytes): (r: Read<int>) { ReadInt(b, -0x8000_0000_0000_0000, 0x8000_0000_0000_0000) }

  lemma U16Written(n: nat, rest: Bytes)
    requires U16(n)
    ensures ReadU16(WriteU16(n) + rest) == Got(n, rest)
  {
    Widths();
    ReadFixedWritten(0xcd, n, 2, rest);
  }

  lemma U64Written(n: nat, rest: Bytes)
    requires U64(n)
    ensures ReadU64(WriteU64(n) + rest) == Got(n, rest)
  {
    Widths();
    ReadFixedWritten(0xcf, n, 8, rest);
  }

  lemma NonNegativeIntWritten(v: int, rest: Bytes)
    requires I64(v) && v >= 0
    ensures ReadAnyInt(WriteInt(v) + rest) == Got(v, rest)
  {
    Widths();
    if v < 0x80 {
    } else if v < 0x100 {
      ReadFixedWritten(0xcc, v, 1, rest);
    } else if v < 0x1_0000 {
      ReadFixedWritten(0xcd, v, 2, rest);
    } else if v < 0x1_0000_0000 {
      ReadFixedWritten(0xce, v, 4, rest);
    } else {
      ReadFixedWritten(0xcf, v, 8, rest);
    }
  }

  lemma NegativeIntWritten(v: int, rest: Bytes)
    requires I64(v) && v < 0
    ensures ReadAnyInt(WriteInt(v) + rest) == Got(v, rest)
  {
    Widths();
    if v >= -0x20 {
    } else if v >= -0x80 {
      ReadFixedWritten(0xd0, v + 0x100, 1, rest);
    } else if v >= -0x8000 {
      ReadFixedWritten(0xd1, v + 0x1_0000, 2, rest);
    } else if v >= -0x8000_0000 {
      ReadFixedWritten(0xd2, v + 0x1_0000_0000, 4, rest);
    } else {
      ReadFixedWritten(0xd3, v + 0x1_0000_0000_0000_0000, 8, rest);
    }
  }

  /** Every 64-bit integer survives its shortest form. */
  lemma IntWritten(v: int, low: int, high: int, rest: Bytes)
    requires I64(v) && low <= v < high
    ensures ReadInt(WriteInt(v) + rest, low, high) == Got(v, rest)
  {
    if v >= 0 {
      NonNegativeIntWritten(v, rest);
    } else {
      NegativeIntWritten(v, rest);
    }
  }

  // --- lengths, strings ------------------------------------------------------------------------------------------

  function WriteArrayLen(n: nat): Bytes
    requires U32(n)
  {
    if n < 0x10 then [0x90 + n] else if n < 0x1_0000 then [0xdc] + BigEndian(n, 2) else [0xdd] + BigEndian(n, 4)
  }

  function ReadArrayLen(b: Bytes): (r: Read<nat>) {
    if b == [] then Bad
    else
      var m: int := b[0];
      if 0x90 <= m < 0xa0 then Got(m - 0x90, b[1..])
      else if m == 0xdc then ReadFixed(b, 2)
      else if m == 0xdd then ReadFixed(b, 4)
      else Mismatch(m, b[1..])
  }

  lemma ArrayLenWritten(n: nat, rest: Bytes)
    requires U32(n)
    ensures ReadArrayLen(WriteArrayLen(n) + rest) == Got(n, rest)
  {
    Widths();
    if n < 0x10 {
    } else if n < 0x1_0000 {
      ReadFixedWritten(0xdc, n, 2, rest);
    } else {
      ReadFixedWritten(0xdd, n, 4, rest);
    }
  }

  predicate Continuation(b: byte) { 0x80 <= b < 0xc0 }

  /** Well-formed UTF-8. */
  predicate Utf8(s: Bytes)
    decreases |s|
  {
    if s == [] then true
    else if s[0] < 0x80 then Utf8(s[1..])
    else if 0xc2 <= s[0] <= 0xdf then |s| >= 2 && Continuation(s[1]) && Utf8(s[2..])
    else if 0xe0 <= s[0] <= 0xef then
      |s| >= 3 && Continuation(s[1]) && Continuation(s[2])
      && (s[0] == 0xe0 ==> s[1] >= 0xa0) && (s[0] == 0xed ==> s[1] < 0xa0) && Utf8(s[3..])
    else if 0xf0 <= s[0] <= 0xf4 then
      |s| >= 4 && Continuation(s[1]) && Continuation(s[2]) && Continuation(s[3])
      && (s[0] == 0xf0 ==> s[1] >= 0x90) && (s[0] == 0xf4 ==> s[1] < 0x90) && Utf8(s[4..])
    else false
  }

  /** The strings the format can carry. */
  predicate Str(s: Bytes) { Utf8(s) && U32(|s|) }

  function WriteStrLen(n: nat): Bytes
    requires U32(n)
  {
    if n < 0x20 then [0xa0 + n]
    else if n < 0x100 then [0xd9] + BigEndian(n, 1)
    else if n < 0x1_0000 then [0xda] + BigEndian(n, 2)
    else [0xdb] + BigEndian(n, 4)
  }

  function ReadStrLen(b: Bytes): (r: Read<nat>) {
    if b == [] then Bad
    else
      var m: int := b[0];
      if 0xa0 <= m < 0xc0 then Got(m - 0xa0, b[1..])
      else if m == 0xd9 then ReadFixed(b, 1)
      else if m == 0xda then ReadFixed(b, 2)
      else if m == 0xdb then ReadFixed(b, 4)
      else Mismatch(m, b[1..])
  }

  function WriteStr(s: Bytes): Bytes
    requires Str(s)
  {
    WriteStrLen(|s|) + s
  }

  function ReadStr(b: Bytes): (r: Read<Bytes>) {
    match ReadStrLen(b)
    case Got(n, rest) => if |rest| < n || !Utf8(rest[..n]) then Bad else Got(rest[..n], rest[n..])
    case Mismatch(m, rest) => Mismatch(m, rest)
    case Bad => Bad
  }

  lemma StrLenWritten(n: nat, rest: Bytes)
    requires U32(n)
    ensures ReadStrLen(WriteStrLen(n) + rest) == Got(n, rest)
  {
    Widths();
    if n < 0x20 {
    } else if n < 0x100 {
      ReadFixedWritten(0xd9, n, 1, rest);
    } else if n < 0x1_0000 {
      ReadFixedWritten(0xda, n, 2, rest);
    } else {
      ReadFixedWritten(0xdb, n, 4, rest);
    }
  }

  lemma StrWritten(s: Bytes, rest: Bytes)
    requires Str(s)
    ensures ReadStr(WriteStr(s) + rest) == Got(s, rest)
  {
    StrLenWritten(|s|, s + rest);
    assert WriteStr(s) + rest == WriteStrLen(|s|) + (s + rest);
    assert (s + rest)[..|s|] == s && (s + rest)[|s|..] == rest;
  }

  /** One integer of every form but the longest, as the specification writes it. */
  lemma KnownIntegers()
    ensures WriteInt(127) == [0x7f] && WriteInt(128) == [0xcc, 0x80]
    ensures WriteInt(0x0102) == [0xcd, 1, 2] && WriteInt(0x0102_0304) == [0xce, 1, 2, 3, 4]
  {
    OneByte(0x80);
    TwoBytes(0x0102);
    FourBytes(0x0102_0304);
  }

  lemma KnownNegatives()
    ensures WriteInt(-1) == [0xff] && WriteInt(-33) == [0xd0, 0xdf]
    ensures WriteInt(-129) == [0xd1, 0xff, 0x7f] && WriteInt(-0x8001) == [0xd2, 0xff, 0xff, 0x7f, 0xff]
  {
    OneByte(0xdf);
    TwoBytes(0xff7f);
    FourBytes(0xffff_7fff);
  }

  /** One length of every form. */
  lemma KnownLengths()
    ensures WriteStrLen(31) == [0xbf] && WriteStrLen(32) == [0xd9, 32] && WriteStrLen(0x0102) == [0xda, 1, 2]
    ensures WriteStrLen(0x0102_0304) == [0xdb, 1, 2, 3, 4]
    ensures WriteArrayLen(15) == [0x9f] && WriteArrayLen(0x0102) == [0xdc, 1, 2]
    ensures WriteArrayLen(0x0102_0304) == [0xdd, 1, 2, 3, 4]
  {
    OneByte(32);
    TwoBytes(0x0102);
    FourBytes(0x0102_0304);
  }

  lemma OneByte(n: nat)
    requires n < 256
    ensures BigEndian(n, 1) == [n]
  {
    assert BigEndian(n, 1) == BigEndian(n / 256, 0) + [n % 256];
  }

  // --- optional values ---------------------------------------------------------------------------------------------

  const NIL: Bytes := [0xc0]

  function WriteOptU64(o: Option<nat>): Bytes { if o.None? then NIL else WriteU64(o.value) }

  function WriteOptStr(o: Option<Bytes>): Bytes
    requires o.Some? ==> Str(o.value)
  {
    if o.None? then NIL else WriteStr(o.value)
  }

  function WriteOptByte(o: Option<byte>): Bytes { if o.None? then NIL else WriteInt(o.value) }

  lemma OptU64Written(o: Option<nat>, rest: Bytes)
    requires o.Some? ==> U64(o.value)
    ensures TakeOptional(ReadU64(WriteOptU64(o) + rest)) == Ok((o, rest))
  {
    if o.Some? {
      U64Written(o.value, rest);
    }
  }

  lemma OptStrWritten(o: Option<Bytes>, rest: Bytes)
    requires o.Some? ==> Str(o.value)
    ensures TakeOptional(ReadStr(WriteOptStr(o) + rest)) == Ok((o, rest))
  {
    if o.Some? {
      StrWritten(o.value, rest);
    }
  }

  lemma OptByteWritten(o: Option<byte>, rest: Bytes)
    ensures TakeOptional(ReadInt(WriteOptByte(o) + rest, 0, 256)) ==
            Ok((if o.Some? then Some(o.value as int) else None, rest))
  {
    if o.Some? {
      IntWritten(o.value, 0, 256, rest);
    }
  }
}
