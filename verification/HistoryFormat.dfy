/** The origin of a command, `host:user`, kept as one string with the index of its separator. */
module CmdOrigins {
  import opened Basics

  datatype CmdOrigin<T> = CmdOrigin(raw: seq<T>, sep: nat) {
    function Host(): seq<T> requires sep < |raw| { raw[..sep] }
    function User(): seq<T> requires sep < |raw| { raw[sep + 1..] }
  }

  /** What every constructor of an origin makes sure of. */
  predicate Valid<T(==)>(o: CmdOrigin<T>, colon: T) {
    o.sep < |o.raw| && o.raw[o.sep] == colon
  }

  /** Without a colon the whole text is the host, and the user is the placeholder. */
  function ParseLenient<T(==)>(value: seq<T>, colon: T, unknownUser: seq<T>): (o: CmdOrigin<T>)
    ensures Valid(o, colon)
  {
    match Find(value, colon)
    case Some(sep) => CmdOrigin(value, sep)
    case None => CmdOrigin(value + [colon] + unknownUser, |value|)
  }

  /** Whatever it is given, lenient parsing yields an origin that its own text reads back to. */
  lemma ParseIsStable<T>(value: seq<T>, colon: T, unknownUser: seq<T>)
    ensures var o := ParseLenient(value, colon, unknownUser);
            ParseLenient(o.raw, colon, unknownUser) == o && colon !in o.Host()
  {
    var o := ParseLenient(value, colon, unknownUser);
    FindFirst(o.raw, colon, o.sep);
  }

  /** Reading an origin's text back restores it exactly when the host holds no colon. */
  lemma ReparseRestores<T>(o: CmdOrigin<T>, colon: T, unknownUser: seq<T>)
    requires Valid(o, colon)
    ensures ParseLenient(o.raw, colon, unknownUser) == o <==> colon !in o.Host()
  {
    if colon !in o.Host() {
      forall i | 0 <= i < o.sep ensures o.raw[i] != colon {
        assert o.Host()[i] == o.raw[i];
      }
      FindFirst(o.raw, colon, o.sep);
    } else {
      var i :| 0 <= i < |o.Host()| && o.Host()[i] == colon;
      assert o.raw[i] == colon;
    }
  }
}

/** UTF-8 text survives cutting and joining at ASCII bytes. */
module Utf8Text {
  import opened Basics
  import opened MessagePack

  /** The length of the first character of well-formed text. */
  function First(s: Bytes): (n: nat)
    requires s != [] && Utf8(s)
    ensures 1 <= n <= |s| && Utf8(s[n..])
    ensures forall i :: 1 <= i < n ==> s[i] >= 0x80
    ensures n > 1 ==> s[0] >= 0x80
  {
    if s[0] < 0x80 then 1 else if s[0] <= 0xdf then 2 else if s[0] <= 0xef then 3 else 4
  }

  lemma {:induction false} SuffixIsUtf8(s: Bytes, at: nat)
    requires Utf8(s) && at < |s| && s[at] < 0x80
    ensures Utf8(s[at + 1..])
    decreases |s|
  {
    if at > 0 {
      var n := First(s);
      assert s[n..][at - n] == s[at];
      SuffixIsUtf8(s[n..], at - n);
      assert s[n..][at - n + 1..] == s[at + 1..];
    }
  }

  /** A character in front of well-formed text. */
  lemma PrependCharacter(s: Bytes, t: Bytes)
    requires s != [] && Utf8(s) && |t| >= First(s) && t[..First(s)] == s[..First(s)] && Utf8(t[First(s)..])
    ensures Utf8(t)
  {
    var n := First(s);
    assert forall i :: 0 <= i < n ==> t[i] == t[..n][i] && s[i] == s[..n][i];
    assert t[0] == s[0];
    assert n > 1 ==> t[1] == s[1];
    assert n > 2 ==> t[2] == s[2];
    assert n > 3 ==> t[3] == s[3];
  }

  lemma CutAfterFirst(a: Bytes, b: Bytes, n: nat)
    requires n <= |a|
    ensures (a + b)[n..] == a[n..] + b && (a + b)[..n] == a[..n]
  {
  }

  lemma {:induction false} JoinIsUtf8(a: Bytes, b: Bytes, joined: Bytes)
    requires joined == a + b && Utf8(a) && Utf8(b)
    ensures Utf8(joined)
    decreases |a|
  {
    if a == [] {
      assert joined == b;
    } else {
      var n := First(a);
      CutAfterFirst(a, b, n);
      JoinIsUtf8(a[n..], b, joined[n..]);
      PrependCharacter(a, joined);
    }
  }

  lemma {:induction false} AsciiIsUtf8(s: Bytes)
    requires forall i :: 0 <= i < |s| ==> s[i] < 0x80
    ensures Utf8(s)
    decreases |s|
  {
    if s != [] {
      AsciiIsUtf8(s[1..]);
    }
  }
}

/** The encoded form of a history entry in its three record versions, and the compatibility between them. */
module HistoryFormat {
  import opened Basics
  import opened BigEndians
  import opened MessagePack
  import opened CmdOrigins
  import opened Utf8Text

  const COLON: byte := 0x3a

  /** "unknown-user" */
  const UNKNOWN_USER: Bytes := [0x75, 0x6e, 0x6b, 0x6e, 0x6f, 0x77, 0x6e, 0x2d, 0x75, 0x73, 0x65, 0x72]

  function ParseOrigin(value: Bytes): (o: CmdOrigin<byte>)
    ensures Valid(o, COLON)
  {
    ParseLenient(value, COLON, UNKNOWN_USER)
  }

  lemma PlaceholderIsUtf8(value: Bytes, user: Bytes)
    requires Utf8(value) && forall i :: 0 <= i < |user| ==> user[i] < 0x80
    ensures Utf8(value + [COLON] + user)
  {
    var suffix := [COLON] + user;
    AsciiIsUtf8(suffix);
    assert value + suffix == value + [COLON] + user;
    JoinIsUtf8(value, suffix, value + [COLON] + user);
  }

  lemma ParsedIsUtf8(value: Bytes)
    requires Utf8(value)
    ensures Utf8(ParseOrigin(value).raw) && Utf8(ParseOrigin(value).User())
  {
    var o := ParseOrigin(value);
    PlaceholderIsUtf8(value, UNKNOWN_USER);
    SuffixIsUtf8(o.raw, o.sep);
  }

  datatype AuthorKind = User | Agent

  function KindByte(k: AuthorKind): byte { if k.User? then 1 else 2 }
  function FromRepr(n: int): Option<AuthorKind> { if n == 1 then Some(User) else if n == 2 then Some(Agent) else None }

  /** Times are nanoseconds since the epoch, of either sign. */
  datatype History = History(
    id: Bytes, timestamp: int, duration: int, exit: int, command: Bytes, cwd: Bytes, session: Bytes,
    origin: CmdOrigin<byte>, author: Bytes, intent: Option<Bytes>, deletedAt: Option<int>, shell: Option<Bytes>,
    kind: Option<AuthorKind>)

  datatype Version = Zero | One | Two {
    function Number(): nat { match this case Zero => 0 case One => 1 case Two => 2 }
    function Name(): string { match this case Zero => "v0" case One => "v1" case Two => "v2" }
    function MinFields(): nat { match this case Zero => 9 case One => 10 case Two => 12 }
    function MaxFields(): Option<nat> { match this case Zero => Some(9) case One => Some(11) case Two => None }
    predicate Accepts(n: nat) { MinFields() <= n && (MaxFields().Some? ==> n <= MaxFields().value) }
  }

  function FromName(s: string): (r: Option<Version>)
    ensures r.Some? <==> s in {"v0", "v1", "v2"}
    ensures r.Some? ==> r.value.Name() == s
  {
    if s == "v0" then Some(Zero) else if s == "v1" then Some(One) else if s == "v2" then Some(Two) else None
  }

  // --- what the fields of a record are -----------------------------------------------------------------------

  /** The nine fields every version has. */
  datatype Common = Common(
    id: Bytes, timestamp: nat, duration: int, exit: int, command: Bytes, cwd: Bytes, session: Bytes, origin: Bytes,
    deletedAt: Option<nat>)

  /** The fields later versions added; a record of an earlier version leaves them empty. */
  datatype Extra = Extra(author: Option<Bytes>, intent: Option<Bytes>, shell: Option<Bytes>, kind: Option<byte>)

  predicate StrOption(o: Option<Bytes>) { o.Some? ==> Str(o.value) }

  predicate CommonOk(c: Common) {
    && Str(c.id) && U64(c.timestamp) && I64(c.duration) && I64(c.exit) && Str(c.command) && Str(c.cwd)
    && Str(c.session) && Str(c.origin) && (c.deletedAt.Some? ==> U64(c.deletedAt.value))
  }

  predicate ExtraOk(e: Extra) { StrOption(e.author) && StrOption(e.intent) && StrOption(e.shell) }

  // --- the specified layout ------------------------------------------------------------------------------------

  function Texts(c: Common, rest: Bytes): Bytes
    requires CommonOk(c)
  {
    WriteStr(c.command) + (WriteStr(c.cwd) + (WriteStr(c.session) + (WriteStr(c.origin)
    + (WriteOptU64(c.deletedAt) + rest))))
  }

  function CommonLayout(c: Common, rest: Bytes): Bytes
    requires CommonOk(c)
  {
    WriteStr(c.id) + (WriteU64(c.timestamp) + (WriteInt(c.duration) + (WriteInt(c.exit) + Texts(c, rest))))
  }

  function ExtraLayout(v: Version, n: nat, e: Extra, rest: Bytes): Bytes
    requires ExtraOk(e)
  {
    match v
    case Zero => rest
    case One => WriteOptStr(e.author) + (if n > 10 then WriteOptStr(e.intent) + rest else rest)
    case Two => WriteOptStr(e.author) + (WriteOptStr(e.intent) + (WriteOptStr(e.shell)
                + (if n >= 13 then WriteOptByte(e.kind) + rest else rest)))
  }

  /** A record of version `v` that announces `n` fields, with `rest` behind the fields known today. */
  function Layout(v: Version, n: nat, c: Common, e: Extra, rest: Bytes): Bytes
    requires CommonOk(c) && ExtraOk(e) && U32(n)
  {
    WriteU16(v.Number()) + (WriteArrayLen(n) + CommonLayout(c, ExtraLayout(v, n, e, rest)))
  }

  // --- serialize -------------------------------------------------------------------------------------------------

  /** Strings below four gibibytes and 64-bit numbers, which the types of the fields give. */
  predicate HistoryOk(h: History) {
    && Str(h.id) && I64(h.duration) && I64(h.exit) && Str(h.command) && Str(h.cwd) && Str(h.session)
    && Str(h.origin.raw) && Valid(h.origin, COLON) && Str(h.author) && StrOption(h.intent) && StrOption(h.shell)
  }

  /** `as u64`. */
  function Wrap(t: int): (n: nat)
    ensures U64(n)
  {
    t % 0x1_0000_0000_0000_0000
  }

  function WrapOption(t: Option<int>): Option<nat> { if t.None? then None else Some(Wrap(t.value)) }

  function CommonOf(h: History): (c: Common)
    requires HistoryOk(h)
    ensures CommonOk(c)
  {
    Common(h.id, Wrap(h.timestamp), h.duration, h.exit, h.command, h.cwd, h.session, h.origin.raw,
           WrapOption(h.deletedAt))
  }

  function ExtraOf(h: History): (e: Extra)
    requires HistoryOk(h)
    ensures ExtraOk(e)
  {
    Extra(Some(h.author), h.intent, h.shell, if h.kind.None? then None else Some(KindByte(h.kind.value)))
  }

  /** The bytes of an entry: a version 2 record of thirteen fields with nothing behind it. */
  function Encoded(h: History): Bytes
    requires HistoryOk(h)
  {
    Layout(Two, 13, CommonOf(h), ExtraOf(h), [])
  }

  /** Appends one field; `later` is everything the record holds behind it. */
  method Put(output: Bytes, field: Bytes, ghost later: Bytes) returns (r: Bytes)
    ensures r == output + field
    ensures r + later == output + (field + later)
  {
    r := output + field;
  }

  method PutTexts(start: Bytes, c: Common, ghost rest: Bytes) returns (output: Bytes)
    requires CommonOk(c)
    ensures output + rest == start + Texts(c, rest)
  {
    ghost var b5 := WriteOptU64(c.deletedAt) + rest;
    ghost var b4 := WriteStr(c.origin) + b5;
    ghost var b3 := WriteStr(c.session) + b4;
    ghost var b2 := WriteStr(c.cwd) + b3;
    output := Put(start, WriteStr(c.command), b2);
    output := Put(output, WriteStr(c.cwd), b3);
    output := Put(output, WriteStr(c.session), b4);
    output := Put(output, WriteStr(c.origin), b5);
    output := Put(output, WriteOptU64(c.deletedAt), rest);
  }

  method PutCommon(start: Bytes, c: Common, ghost rest: Bytes) returns (output: Bytes)
    requires CommonOk(c)
    ensures output + rest == start + CommonLayout(c, rest)
  {
    ghost var b4 := Texts(c, rest);
    ghost var b3 := WriteInt(c.exit) + b4;
    ghost var b2 := WriteInt(c.duration) + b3;
    output := Put(start, WriteStr(c.id), WriteU64(c.timestamp) + b2);
    output := Put(output, WriteU64(c.timestamp), b2);
    output := Put(output, WriteInt(c.duration), b3);
    output := Put(output, WriteInt(c.exit), b4);
    output := PutTexts(output, c, rest);
  }

  method PutExtra(start: Bytes, e: Extra) returns (output: Bytes)
    requires ExtraOk(e)
    ensures output == start + ExtraLayout(Two, 13, e, [])
  {
    ghost var b4 := WriteOptByte(e.kind) + [];
    ghost var b3 := WriteOptStr(e.shell) + b4;
    output := Put(start, WriteOptStr(e.author), WriteOptStr(e.intent) + b3);
    output := Put(output, WriteOptStr(e.intent), b3);
    output := Put(output, WriteOptStr(e.shell), b4);
    output := Put(output, WriteOptByte(e.kind), []);
    assert output == output + [];
  }

  method Serialize(h: History) returns (output: Bytes)
    requires HistoryOk(h)
    ensures output == Encoded(h)
  {
    var c, e := CommonOf(h), ExtraOf(h);
    ghost var later := ExtraLayout(Two, 13, e, []);
    output := Put(WriteU16(2), WriteArrayLen(13), CommonLayout(c, later));
    output := PutCommon(output, c, later);
    output := PutExtra(output, e);
  }

  // --- deserialize -----------------------------------------------------------------------------------------------

  function ReadTexts(id: Bytes, timestamp: nat, duration: int, exit: int, bytes: Bytes): (r: Result<(Common, Bytes)>) {
    var (command, bytes) :- Take(ReadStr(bytes));
    var (cwd, bytes) :- Take(ReadStr(bytes));
    var (session, bytes) :- Take(ReadStr(bytes));
    var (origin, bytes) :- Take(ReadStr(bytes));
    var (deletedAt, bytes) :- TakeOptional(ReadU64(bytes));
    Ok((Common(id, timestamp, duration, exit, command, cwd, session, origin, deletedAt), bytes))
  }

  function ReadCommon(bytes: Bytes): (r: Result<(Common, Bytes)>) {
    var (id, bytes) :- Take(ReadStr(bytes));
    var (timestamp, bytes) :- Take(ReadU64(bytes));
    var (duration, bytes) :- Take(ReadI64(bytes));
    var (exit, bytes) :- Take(ReadI64(bytes));
    ReadTexts(id, timestamp, duration, exit, bytes)
  }

  /** The later fields as far as the version and the field count say they are there. */
  datatype Later = Later(author: Option<Bytes>, intent: Option<Bytes>, shell: Option<Bytes>, kind: Option<AuthorKind>)

  function ReadLater(v: Version, n: nat, bytes: Bytes): (r: Result<(Later, Bytes)>) {
    var (author, bytes) :- if v.Zero? then Ok((None, bytes)) else TakeOptional(ReadStr(bytes));
    var (intent, bytes) :- if v.Two? || (v.One? && n > v.MinFields()) then TakeOptional(ReadStr(bytes))
        else Ok((None, bytes));
    var (shell, bytes) :- if v.Two? then TakeOptional(ReadStr(bytes)) else Ok((None, bytes));
    var (kind, bytes) :- if v.Two? && n >= 13 then TakeOptional(ReadInt(bytes, 0, 256)) else Ok((None, bytes));
    Ok((Later(author, intent, shell, if kind.None? then None else FromRepr(kind.value)), bytes))
  }

  function Load(c: Common, l: Later): (h: History) {
    var origin := ParseOrigin(c.origin);
    History(c.id, c.timestamp, c.duration, c.exit, c.command, c.cwd, c.session, origin,
            if l.author.Some? then l.author.value else origin.User(), l.intent, c.deletedAt, l.shell, l.kind)
  }

  function Deserialize(bytes: Bytes, version: string): (r: Result<History>) {
    match FromName(version)
    case None => Err
    case Some(v) =>
      var (found, bytes) :- Take(ReadU16(bytes));
      if found != v.Number() then Err else
      var (n, bytes) :- Take(ReadArrayLen(bytes));
      if !v.Accepts(n) then Err else
      var (common, bytes) :- ReadCommon(bytes);
      var (later, bytes) :- ReadLater(v, n, bytes);
      if !v.Two? && bytes != [] then Err else Ok(Load(common, later))
  }

  // --- reading back what the layout says ---------------------------------------------------------------------------

  lemma TextsWritten(c: Common, rest: Bytes)
    requires CommonOk(c)
    ensures ReadTexts(c.id, c.timestamp, c.duration, c.exit, Texts(c, rest)) == Ok((c, rest))
  {
    var b5 := WriteOptU64(c.deletedAt) + rest;
    var b4 := WriteStr(c.origin) + b5;
    var b3 := WriteStr(c.session) + b4;
    var b2 := WriteStr(c.cwd) + b3;
    StrWritten(c.command, b2);
    StrWritten(c.cwd, b3);
    StrWritten(c.session, b4);
    StrWritten(c.origin, b5);
    OptU64Written(c.deletedAt, rest);
  }

  lemma CommonWritten(c: Common, rest: Bytes)
    requires CommonOk(c)
    ensures ReadCommon(CommonLayout(c, rest)) == Ok((c, rest))
  {
    var b4 := Texts(c, rest);
    var b3 := WriteInt(c.exit) + b4;
    var b2 := WriteInt(c.duration) + b3;
    StrWritten(c.id, WriteU64(c.timestamp) + b2);
    U64Written(c.timestamp, b2);
    IntWritten(c.duration, -0x8000_0000_0000_0000, 0x8000_0000_0000_0000, b3);
    IntWritten(c.exit, -0x8000_0000_0000_0000, 0x8000_0000_0000_0000, b4);
    TextsWritten(c, rest);
  }

  /** What a record of version `v` with `n` fields says about the later fields. */
  function Stated(v: Version, n: nat, e: Extra): Later {
    Later(if v.Zero? then None else e.author,
          if v.Two? || (v.One? && n > 10) then e.intent else None,
          if v.Two? then e.shell else None,
          if v.Two? && n >= 13 && e.kind.Some? then FromRepr(e.kind.value) else None)
  }

  lemma LaterWritten(v: Version, n: nat, e: Extra, rest: Bytes)
    requires ExtraOk(e)
    ensures ReadLater(v, n, ExtraLayout(v, n, e, rest)) == Ok((Stated(v, n, e), rest))
  {
    match v
    case Zero =>
    case One =>
      OptStrWritten(e.author, if n > 10 then WriteOptStr(e.intent) + rest else rest);
      OptStrWritten(e.intent, rest);
    case Two =>
      var b4 := if n >= 13 then WriteOptByte(e.kind) + rest else rest;
      var b3 := WriteOptStr(e.shell) + b4;
      OptStrWritten(e.author, WriteOptStr(e.intent) + b3);
      OptStrWritten(e.intent, b3);
      OptStrWritten(e.shell, b4);
      OptByteWritten(e.kind, rest);
  }

  /**
   Every record of every version, read under any version name: it decodes exactly when the name is its own version's,
   the field count is one this version allows, and nothing follows a record older than version 2.
   Bytes behind a version 2 record, such as further fields, change nothing.
   */
  lemma DecodeLayout(v: Version, n: nat, c: Common, e: Extra, rest: Bytes, name: string)
    requires CommonOk(c) && ExtraOk(e) && U32(n)
    ensures Deserialize(Layout(v, n, c, e, rest), name) ==
            if name == v.Name() && v.Accepts(n) && (v.Two? || rest == []) then Ok(Load(c, Stated(v, n, e))) else Err
  {
    var b2 := ExtraLayout(v, n, e, rest);
    var b1 := CommonLayout(c, b2);
    U16Written(v.Number(), WriteArrayLen(n) + b1);
    if name == v.Name() {
      ArrayLenWritten(n, b1);
      CommonWritten(c, b2);
      LaterWritten(v, n, e, rest);
      DecodeParts(v, n, Layout(v, n, c, e, rest), WriteArrayLen(n) + b1, b1, b2, c, Stated(v, n, e), rest);
    }
  }

  /** Decoding under the right name, from what its four readers find. */
  lemma DecodeParts(v: Version, n: nat, b0: Bytes, b1: Bytes, b2: Bytes, b3: Bytes, c: Common, l: Later, b4: Bytes)
    requires ReadU16(b0) == Got(v.Number(), b1) && ReadArrayLen(b1) == Got(n, b2)
    requires ReadCommon(b2) == Ok((c, b3)) && ReadLater(v, n, b3) == Ok((l, b4))
    ensures Deserialize(b0, v.Name()) == if v.Accepts(n) && (v.Two? || b4 == []) then Ok(Load(c, l)) else Err
  {
    assert FromName(v.Name()) == Some(v);
  }

  // --- what survives ------------------------------------------------------------------------------------------------

  /** The entry as it comes back: times wrapped to 64 bits, the origin split at its first colon. */
  function Normal(h: History): History
    requires HistoryOk(h)
  {
    h.(timestamp := Wrap(h.timestamp), deletedAt := WrapOption(h.deletedAt), origin := ParseOrigin(h.origin.raw))
  }

  predicate InRange(h: History) {
    U64(h.timestamp) && (h.deletedAt.Some? ==> U64(h.deletedAt.value))
  }

  lemma ReloadIsNormal(h: History)
    requires HistoryOk(h)
    ensures Load(CommonOf(h), Stated(Two, 13, ExtraOf(h))) == Normal(h)
  {
    assert ExtraOf(h).author == Some(h.author);
  }

  lemma NormalIsSame(h: History)
    requires HistoryOk(h)
    ensures Normal(h) == h <==> InRange(h) && COLON !in h.origin.Host()
  {
    ReparseRestores(h.origin, COLON, UNKNOWN_USER);
    assert Wrap(h.timestamp) == h.timestamp <==> U64(h.timestamp);
  }

  /** An entry reads back under exactly one version name, and comes back itself exactly when its times fit and its
      host has no colon. */
  lemma RoundTrip(h: History, name: string)
    requires HistoryOk(h)
    ensures Deserialize(Encoded(h), name) == if name == "v2" then Ok(Normal(h)) else Err
    ensures Normal(h) == h <==> InRange(h) && COLON !in h.origin.Host()
  {
    DecodeLayout(Two, 13, CommonOf(h), ExtraOf(h), [], name);
    ReloadIsNormal(h);
    NormalIsSame(h);
  }

  /** A future writer that appends fields, in any encoding, is still understood. */
  lemma ForwardCompatible(h: History, n: nat, further: Bytes)
    requires HistoryOk(h) && U32(n) && n >= 13
    ensures Deserialize(Layout(Two, n, CommonOf(h), ExtraOf(h), further), "v2") == Deserialize(Encoded(h), "v2")
  {
    DecodeLayout(Two, n, CommonOf(h), ExtraOf(h), further, "v2");
    DecodeLayout(Two, 13, CommonOf(h), ExtraOf(h), [], "v2");
  }

  /** A version 2 record from before the author kind existed decodes, with no kind and all else kept. */
  lemma BackwardCompatible(h: History)
    requires HistoryOk(h)
    ensures Deserialize(Layout(Two, 12, CommonOf(h), ExtraOf(h), []), "v2") == Ok(Normal(h).(kind := None))
  {
    DecodeLayout(Two, 12, CommonOf(h), ExtraOf(h), [], "v2");
  }

  /** No bytes at all decode under two version names. */
  lemma OneVersionDecodes(bytes: Bytes, a: string, b: string)
    requires Deserialize(bytes, a).Ok? && Deserialize(bytes, b).Ok?
    ensures a == b
  {
    assert FromName(a).value.Number() == FromName(b).value.Number();
  }

  // --- upgrading ---------------------------------------------------------------------------------------------------

  lemma FixedBound(b: Bytes, width: nat)
    requires ReadFixed(b, width).Got?
    ensures ReadFixed(b, width).value < Pow256(width)
  {
    FromBigEndianBound(b[1..1 + width]);
  }

  lemma ReadStrOk(b: Bytes)
    requires ReadStr(b).Got?
    ensures Str(ReadStr(b).value)
  {
    Widths();
    if b[0] == 0xd9 {
      FixedBound(b, 1);
    } else if b[0] == 0xda {
      FixedBound(b, 2);
    } else if b[0] == 0xdb {
      FixedBound(b, 4);
    }
  }

  lemma ReadU64Ok(b: Bytes)
    requires ReadU64(b).Got?
    ensures U64(ReadU64(b).value)
  {
    Widths();
    FixedBound(b, 8);
  }

  lemma ReadTextsOk(id: Bytes, timestamp: nat, duration: int, exit: int, bytes: Bytes)
    requires ReadTexts(id, timestamp, duration, exit, bytes).Ok?
    requires Str(id) && U64(timestamp) && I64(duration) && I64(exit)
    ensures CommonOk(ReadTexts(id, timestamp, duration, exit, bytes).value.0)
  {
    var r1 := ReadStr(bytes);
    var r2 := ReadStr(r1.rest);
    var r3 := ReadStr(r2.rest);
    var r4 := ReadStr(r3.rest);
    var r5 := ReadU64(r4.rest);
    ReadStrOk(bytes);
    ReadStrOk(r1.rest);
    ReadStrOk(r2.rest);
    ReadStrOk(r3.rest);
    if r5.Got? {
      ReadU64Ok(r4.rest);
    }
  }

  lemma ReadCommonOk(bytes: Bytes)
    requires ReadCommon(bytes).Ok?
    ensures CommonOk(ReadCommon(bytes).value.0)
  {
    var r1 := ReadStr(bytes);
    var r2 := ReadU64(r1.rest);
    var r3 := ReadI64(r2.rest);
    var r4 := ReadI64(r3.rest);
    ReadStrOk(bytes);
    ReadU64Ok(r1.rest);
    ReadTextsOk(r1.value, r2.value, r3.value, r4.value, r4.rest);
  }

  predicate LaterOk(l: Later) { StrOption(l.author) && StrOption(l.intent) && StrOption(l.shell) }

  lemma OptionalStrOk(b: Bytes)
    requires TakeOptional(ReadStr(b)).Ok?
    ensures StrOption(TakeOptional(ReadStr(b)).value.0)
  {
    if ReadStr(b).Got? {
      ReadStrOk(b);
    }
  }

  lemma ReadLaterOk(v: Version, n: nat, bytes: Bytes)
    requires ReadLater(v, n, bytes).Ok?
    ensures LaterOk(ReadLater(v, n, bytes).value.0)
  {
    if !v.Zero? {
      OptionalStrOk(bytes);
      var rest := TakeOptional(ReadStr(bytes)).value.1;
      if v.Two? || n > v.MinFields() {
        OptionalStrOk(rest);
      }
      if v.Two? {
        OptionalStrOk(TakeOptional(ReadStr(rest)).value.1);
      }
    }
  }

  /** The parts a successful decoding is made of. */
  lemma DecodedParts(bytes: Bytes, name: string) returns (c: Common, l: Later)
    requires Deserialize(bytes, name).Ok?
    ensures CommonOk(c) && LaterOk(l) && Deserialize(bytes, name) == Ok(Load(c, l))
  {
    var v := FromName(name).value;
    var bytes1 := ReadU16(bytes).rest;
    var n, bytes2 := ReadArrayLen(bytes1).value, ReadArrayLen(bytes1).rest;
    ReadCommonOk(bytes2);
    c := ReadCommon(bytes2).value.0;
    var bytes3 := ReadCommon(bytes2).value.1;
    ReadLaterOk(v, n, bytes3);
    l := ReadLater(v, n, bytes3).value.0;
  }

  /**
   Whatever decodes, under any version, can be written again as version 2 and decodes to the same entry,
   as long as the origin with its placeholder user still fits a string.
   */
  lemma UpgradeIsLossless(bytes: Bytes, name: string, h: History)
    requires Deserialize(bytes, name) == Ok(h) && U32(|h.origin.raw|)
    ensures HistoryOk(h) && Deserialize(Encoded(h), "v2") == Ok(h)
  {
    var c, l := DecodedParts(bytes, name);
    ParsedIsUtf8(c.origin);
    ParseIsStable(c.origin, COLON, UNKNOWN_USER);
    ReparseRestores(h.origin, COLON, UNKNOWN_USER);
    RoundTrip(h, "v2");
  }

  // --- the older versions, field by field --------------------------------------------------------------------------

  /** The author a record without one gets: the text behind the first colon of its origin, or "unknown-user". */
  lemma FallbackAuthor(host: Bytes, user: Bytes)
    requires 0x3a !in host
    ensures ParseOrigin(host + [0x3a] + user).User() == user && ParseOrigin(host + [0x3a] + user).Host() == host
    ensures ParseOrigin(host).Host() == host
    ensures ParseOrigin(host).User() == [0x75, 0x6e, 0x6b, 0x6e, 0x6f, 0x77, 0x6e, 0x2d, 0x75, 0x73, 0x65, 0x72]
  {
    var s := host + [0x3a] + user;
    assert forall i :: 0 <= i < |host| ==> s[i] == host[i];
    FindFirst(s, 0x3a, |host|);
    assert s[|host| + 1..] == user && s[..|host|] == host;
    var t := host + [COLON] + UNKNOWN_USER;
    assert Find(host, COLON).None?;
    assert t[|host| + 1..] == UNKNOWN_USER && t[..|host|] == host;
  }

  /** The entry of a record with these nine fields and these later ones. */
  function Entry(c: Common, author: Option<Bytes>, intent: Option<Bytes>): History {
    var origin := ParseOrigin(c.origin);
    History(c.id, c.timestamp, c.duration, c.exit, c.command, c.cwd, c.session, origin,
            if author.Some? then author.value else origin.User(), intent, c.deletedAt, None, None)
  }

  /** Nine fields under "v0" decode, the author being the origin's user. */
  lemma NineFieldsUnderV0(c: Common)
    requires CommonOk(c)
    ensures Deserialize(WriteU16(0) + (WriteArrayLen(9) + CommonLayout(c, [])), "v0") == Ok(Entry(c, None, None))
  {
    DecodeLayout(Zero, 9, c, Extra(None, None, None, None), [], "v0");
  }

  /** Ten fields under "v1" decode, with the author given or the origin's user. */
  lemma TenFieldsUnderV1(c: Common, author: Option<Bytes>)
    requires CommonOk(c) && StrOption(author)
    ensures Deserialize(WriteU16(1) + (WriteArrayLen(10) + CommonLayout(c, WriteOptStr(author))), "v1") ==
            Ok(Entry(c, author, None))
  {
    var e := Extra(author, None, None, None);
    DecodeLayout(One, 10, c, e, [], "v1");
    assert ExtraLayout(One, 10, e, []) == WriteOptStr(author);
  }

  /** Eleven fields under "v1" decode, with an intent. */
  lemma ElevenFieldsUnderV1(c: Common, author: Option<Bytes>, intent: Option<Bytes>)
    requires CommonOk(c) && StrOption(author) && StrOption(intent)
    ensures Deserialize(WriteU16(1) + (WriteArrayLen(11)
                        + CommonLayout(c, WriteOptStr(author) + WriteOptStr(intent))), "v1") ==
            Ok(Entry(c, author, intent))
  {
    var e := Extra(author, intent, None, None);
    DecodeLayout(One, 11, c, e, [], "v1");
    assert WriteOptStr(intent) + [] == WriteOptStr(intent);
    assert ExtraLayout(One, 11, e, []) == WriteOptStr(author) + WriteOptStr(intent);
  }

  /** Whatever follows the field count, nothing decodes but nine fields under "v0", ten or eleven under "v1" and twelve
      or more under "v2". */
  lemma OtherCountsFail(version: nat, n: nat, rest: Bytes, name: string)
    requires U16(version) && U32(n)
    requires Deserialize(WriteU16(version) + (WriteArrayLen(n) + rest), name).Ok?
    ensures (version == 0 && name == "v0" && n == 9) || (version == 1 && name == "v1" && (n == 10 || n == 11))
            || (version == 2 && name == "v2" && n >= 12)
  {
    U16Written(version, WriteArrayLen(n) + rest);
    ArrayLenWritten(n, rest);
  }

  /** In a version 2 record a kind of one says that a human ran the command, two that an agent did, and any other byte
      says nothing. */
  lemma KindBytes(c: Common, e: Extra, b: byte)
    requires CommonOk(c) && ExtraOk(e) && e.kind == Some(b)
    ensures Deserialize(Layout(Two, 13, c, e, []), "v2").Ok?
    ensures Deserialize(Layout(Two, 13, c, e, []), "v2").value.kind ==
            if b == 1 then Some(User) else if b == 2 then Some(Agent) else None
  {
    DecodeLayout(Two, 13, c, e, [], "v2");
  }

  // --- the fields on the wire --------------------------------------------------------------------------------------

  /** A MessagePack value as any reader sees it. */
  datatype Value = Absent | Num(n: int) | Chars(t: Bytes)

  function ReadValue(b: Bytes): (r: Option<(Value, Bytes)>) {
    if b != [] && b[0] == 0xc0 then Some((Absent, b[1..]))
    else if ReadAnyInt(b).Got? then Some((Num(ReadAnyInt(b).value), ReadAnyInt(b).rest))
    else if ReadStr(b).Got? then Some((Chars(ReadStr(b).value), ReadStr(b).rest))
    else None
  }

  /** So many values and nothing behind them. */
  function ReadValues(b: Bytes, n: nat): (r: Option<seq<Value>>)
    decreases n
  {
    if n == 0 then (if b == [] then Some([]) else None)
    else
      var first := ReadValue(b);
      if first.None? then None
      else
        var rest := ReadValues(first.value.1, n - 1);
        if rest.None? then None else Some([first.value.0] + rest.value)
  }

  lemma StrIsText(s: Bytes, rest: Bytes)
    requires Str(s)
    ensures ReadValue(WriteStr(s) + rest) == Some((Chars(s), rest))
  {
    StrWritten(s, rest);
    assert (WriteStr(s) + rest)[0] == WriteStrLen(|s|)[0];
  }

  lemma IntIsNumber(v: int, rest: Bytes)
    requires I64(v)
    ensures ReadValue(WriteInt(v) + rest) == Some((Num(v), rest))
  {
    if v >= 0 {
      NonNegativeIntWritten(v, rest);
    } else {
      NegativeIntWritten(v, rest);
    }
  }

  lemma U64IsNumber(n: nat, rest: Bytes)
    requires U64(n)
    ensures ReadValue(WriteU64(n) + rest) == Some((Num(n), rest))
  {
    Widths();
    ReadFixedWritten(0xcf, n, 8, rest);
  }

  function OptText(o: Option<Bytes>): Value { if o.None? then Absent else Chars(o.value) }

  lemma OptStrIsValue(o: Option<Bytes>, rest: Bytes)
    requires StrOption(o)
    ensures ReadValue(WriteOptStr(o) + rest) == Some((OptText(o), rest))
  {
    if o.Some? {
      StrIsText(o.value, rest);
    }
  }

  lemma ValuesCons(b: Bytes, v: Value, rest: Bytes, n: nat, later: seq<Value>)
    requires ReadValue(b) == Some((v, rest)) && ReadValues(rest, n) == Some(later)
    ensures ReadValues(b, n + 1) == Some([v] + later)
  {
  }

  function OptKind(kind: Option<byte>): Value { if kind.None? then Absent else Num(kind.value as int) }

  lemma OptByteIsValue(kind: Option<byte>)
    ensures ReadValue(WriteOptByte(kind) + []) == Some((OptKind(kind), []))
  {
    if kind.Some? {
      IntIsNumber(kind.value, []);
    }
  }

  function OptTime(o: Option<nat>): Value { if o.None? then Absent else Num(o.value) }

  lemma OptU64IsValue(o: Option<nat>, rest: Bytes)
    requires o.Some? ==> U64(o.value)
    ensures ReadValue(WriteOptU64(o) + rest) == Some((OptTime(o), rest))
  {
    if o.Some? {
      U64IsNumber(o.value, rest);
    }
  }

  lemma ExtraValues(e: Extra)
    requires ExtraOk(e)
    ensures ReadValues(ExtraLayout(Two, 13, e, []), 4) ==
            Some([OptText(e.author)] + ([OptText(e.intent)] + ([OptText(e.shell)] + ([OptKind(e.kind)] + []))))
  {
    var b4 := WriteOptByte(e.kind) + [];
    var b3 := WriteOptStr(e.shell) + b4;
    var b2 := WriteOptStr(e.intent) + b3;
    OptByteIsValue(e.kind);
    ValuesCons(b4, OptKind(e.kind), [], 0, []);
    var v4 := [OptKind(e.kind)] + [];
    OptStrIsValue(e.shell, b4);
    ValuesCons(b3, OptText(e.shell), b4, 1, v4);
    var v3 := [OptText(e.shell)] + v4;
    OptStrIsValue(e.intent, b3);
    ValuesCons(b2, OptText(e.intent), b3, 2, v3);
    OptStrIsValue(e.author, b2);
    ValuesCons(WriteOptStr(e.author) + b2, OptText(e.author), b2, 3, [OptText(e.intent)] + v3);
    assert ExtraLayout(Two, 13, e, []) == WriteOptStr(e.author) + b2;
  }

  lemma TextValues(c: Common, rest: Bytes, later: seq<Value>, n: nat)
    requires CommonOk(c) && ReadValues(rest, n) == Some(later)
    ensures ReadValues(Texts(c, rest), n + 5) ==
            Some([Chars(c.command)] + ([Chars(c.cwd)] + ([Chars(c.session)] + ([Chars(c.origin)]
                 + ([OptTime(c.deletedAt)] + later)))))
  {
    var b5 := WriteOptU64(c.deletedAt) + rest;
    var b4 := WriteStr(c.origin) + b5;
    var b3 := WriteStr(c.session) + b4;
    var b2 := WriteStr(c.cwd) + b3;
    OptU64IsValue(c.deletedAt, rest);
    ValuesCons(b5, OptTime(c.deletedAt), rest, n, later);
    var v5 := [OptTime(c.deletedAt)] + later;
    StrIsText(c.origin, b5);
    ValuesCons(b4, Chars(c.origin), b5, n + 1, v5);
    var v4 := [Chars(c.origin)] + v5;
    StrIsText(c.session, b4);
    ValuesCons(b3, Chars(c.session), b4, n + 2, v4);
    var v3 := [Chars(c.session)] + v4;
    StrIsText(c.cwd, b3);
    ValuesCons(b2, Chars(c.cwd), b3, n + 3, v3);
    StrIsText(c.command, b2);
    ValuesCons(WriteStr(c.command) + b2, Chars(c.command), b2, n + 4, [Chars(c.cwd)] + v3);
    assert Texts(c, rest) == WriteStr(c.command) + b2;
  }

  lemma NumberValues(c: Common, rest: Bytes, later: seq<Value>, n: nat)
    requires CommonOk(c) && ReadValues(Texts(c, rest), n) == Some(later)
    ensures ReadValues(CommonLayout(c, rest), n + 4) ==
            Some([Chars(c.id)] + ([Num(c.timestamp)] + ([Num(c.duration)] + ([Num(c.exit)] + later))))
  {
    var b4 := Texts(c, rest);
    var b3 := WriteInt(c.exit) + b4;
    var b2 := WriteInt(c.duration) + b3;
    var b1 := WriteU64(c.timestamp) + b2;
    IntIsNumber(c.exit, b4);
    ValuesCons(b3, Num(c.exit), b4, n, later);
    var v3 := [Num(c.exit)] + later;
    IntIsNumber(c.duration, b3);
    ValuesCons(b2, Num(c.duration), b3, n + 1, v3);
    var v2 := [Num(c.duration)] + v3;
    U64IsNumber(c.timestamp, b2);
    ValuesCons(b1, Num(c.timestamp), b2, n + 2, v2);
    StrIsText(c.id, b1);
    ValuesCons(WriteStr(c.id) + b1, Chars(c.id), b1, n + 3, [Num(c.timestamp)] + v2);
    assert CommonLayout(c, rest) == WriteStr(c.id) + b1;
  }

  lemma Four<T>(a: T, b: T, c: T, d: T, rest: seq<T>)
    ensures [a] + ([b] + ([c] + ([d] + rest))) == [a, b, c, d] + rest
  {
  }

  lemma Five<T>(a: T, b: T, c: T, d: T, e: T, rest: seq<T>)
    ensures [a] + ([b] + ([c] + ([d] + ([e] + rest)))) == [a, b, c, d, e] + rest
  {
  }

  lemma ThirteenValues(c: Common, e: Extra)
    requires CommonOk(c) && ExtraOk(e)
    ensures ReadValues(CommonLayout(c, ExtraLayout(Two, 13, e, [])), 13) ==
            Some([Chars(c.id), Num(c.timestamp), Num(c.duration), Num(c.exit)]
                 + ([Chars(c.command), Chars(c.cwd), Chars(c.session), Chars(c.origin), OptTime(c.deletedAt)]
                 + ([OptText(e.author), OptText(e.intent), OptText(e.shell), OptKind(e.kind)] + [])))
  {
    var rest := ExtraLayout(Two, 13, e, []);
    ExtraValues(e);
    Four(OptText(e.author), OptText(e.intent), OptText(e.shell), OptKind(e.kind), []);
    var v4 := [OptText(e.author), OptText(e.intent), OptText(e.shell), OptKind(e.kind)] + [];
    TextValues(c, rest, v4, 4);
    Five(Chars(c.command), Chars(c.cwd), Chars(c.session), Chars(c.origin), OptTime(c.deletedAt), v4);
    var v9 := [Chars(c.command), Chars(c.cwd), Chars(c.session), Chars(c.origin), OptTime(c.deletedAt)] + v4;
    NumberValues(c, rest, v9, 9);
    Four(Chars(c.id), Num(c.timestamp), Num(c.duration), Num(c.exit), v9);
  }

  /** The bytes of an entry: the number two in sixteen bits, the head of an array of thirteen, and then these thirteen
      values in this order and nothing else. */
  lemma FieldsInOrder(h: History) returns (body: Bytes)
    requires HistoryOk(h)
    ensures Encoded(h) == [0xcd, 0, 2, 0x9d] + body
    ensures ReadValues(body, 13) ==
            Some([Chars(h.id), Num(Wrap(h.timestamp)), Num(h.duration), Num(h.exit)]
                 + ([Chars(h.command), Chars(h.cwd), Chars(h.session), Chars(h.origin.raw),
                     if h.deletedAt.None? then Absent else Num(Wrap(h.deletedAt.value))]
                 + ([Chars(h.author), if h.intent.None? then Absent else Chars(h.intent.value),
                     if h.shell.None? then Absent else Chars(h.shell.value),
                     if h.kind.None? then Absent else Num(if h.kind.value == User then 1 else 2)] + [])))
  {
    body := CommonLayout(CommonOf(h), ExtraLayout(Two, 13, ExtraOf(h), []));
    HeaderIs(body);
    ThirteenValues(CommonOf(h), ExtraOf(h));
  }

  lemma HeaderIs(body: Bytes)
    ensures WriteU16(2) + (WriteArrayLen(13) + body) == [0xcd, 0, 2, 0x9d] + body
  {
    assert BigEndian(2, 2) == BigEndian(0, 1) + [2] && BigEndian(0, 1) == BigEndian(0, 0) + [0];
    assert WriteU16(2) == [0xcd, 0, 2] && WriteArrayLen(13) == [0x9d];
  }
}
