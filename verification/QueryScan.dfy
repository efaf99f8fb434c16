/** Synthetic answers to terminal queries: an index-driven scan of a chunk against its parse into items. */
module QueryScan {
  import opened Basics
  import opened Terminal

  const ESC: byte := 0x1b
  const BRACKET: byte := 0x5b

  /** "ESC [ c", the shortest query that is answered. */
  const QUERY: Bytes := [0x1b, 0x5b, 0x63]

  /** A 16-bit coordinate, counted from one; the largest stays as it is. */
  function OneBased(n: nat): nat { if n < 0xffff then n + 1 else 0xffff }

  /** Cursor Position Report. */
  function CursorReport(row: nat, col: nat): Bytes {
    Sequence(OneBased(row), OneBased(col), 0x52)
  }

  /** Primary Device Attributes. */
  const DEVICE: Bytes := [0x1b, 0x5b, 0x3f, 0x36, 0x63]

  /** The answer to a control sequence with these parameter bytes and this final byte: `6n` asks for the cursor, `c`
      and `0c` for the device. */
  function Answer(params: Bytes, final: byte, cursor: Bytes): Bytes {
    if final == 0x6e && params == [0x36] then cursor
    else if final == 0x63 && (params == [] || params == [0x30]) then DEVICE
    else []
  }

  /** What to write back for a control sequence. */
  type Responder = (Bytes, byte) -> Bytes

  function Answers(cursor: Bytes): Responder {
    (params, final) => Answer(params, final, cursor)
  }

  /** The item at a position of a chunk. */
  datatype Item =
    | Plain                   // a byte of text, or an escape that opens no control sequence
    | Command(final: nat)     // ESC [ digits, and where the final byte is
    | Unfinished              // the chunk may end inside a sequence

  function ItemAt(chunk: Bytes, i: nat): (item: Item)
    requires i < |chunk|
    ensures item.Command? ==> i + 2 <= item.final < |chunk|
  {
    if chunk[i] != ESC then Plain
    else if i + 2 >= |chunk| then Unfinished
    else if chunk[i + 1] != BRACKET then Plain
    else
      var end := DigitsEnd(chunk, i + 2);
      if end == |chunk| then Unfinished else Command(end)
  }

  /** Where the parse goes on behind the item at `i`; behind an unfinished one there is nothing more to read. */
  function After(chunk: Bytes, i: nat): (next: nat)
    requires i < |chunk|
    ensures i < next <= |chunk|
  {
    match ItemAt(chunk, i)
    case Plain => i + 1
    case Command(final) => final + 1
    case Unfinished => |chunk|
  }

  /** The answer to the item at `i`. */
  function Said(chunk: Bytes, i: nat, answer: Responder): Bytes
    requires i < |chunk|
  {
    match ItemAt(chunk, i)
    case Command(final) => answer(chunk[i + 2..final], chunk[final])
    case _ => []
  }

  /** The left-to-right parse from `i`, answering each item in turn. */
  function Replies(chunk: Bytes, i: nat, answer: Responder): Bytes
    requires i <= |chunk|
    decreases |chunk| - i
  {
    if i == |chunk| then [] else Said(chunk, i, answer) + Replies(chunk, After(chunk, i), answer)
  }

  lemma ReadPlain(chunk: Bytes, i: nat, answer: Responder)
    requires i < |chunk| && ItemAt(chunk, i).Plain?
    ensures Replies(chunk, i, answer) == Replies(chunk, i + 1, answer)
  {
    assert [] + Replies(chunk, i + 1, answer) == Replies(chunk, i + 1, answer);
  }

  lemma ReadUnfinished(chunk: Bytes, i: nat, answer: Responder)
    requires i < |chunk| && ItemAt(chunk, i).Unfinished?
    ensures Replies(chunk, i, answer) == []
  {
    assert Replies(chunk, |chunk|, answer) == [];
  }

  lemma ReadControl(chunk: Bytes, i: nat, end: nat, answer: Responder)
    requires i < |chunk| && ItemAt(chunk, i) == Command(end)
    ensures Replies(chunk, i, answer) == answer(chunk[i + 2..end], chunk[end]) + Replies(chunk, end + 1, answer)
  {
  }

  // --- the scan -------------------------------------------------------------------------------------------------

  /** The next escape at or behind `from`, or the end of the chunk. */
  method FindEscape(chunk: Bytes, from: nat, ghost answer: Responder) returns (at: nat)
    requires from <= |chunk|
    ensures from <= at <= |chunk| && (at < |chunk| ==> chunk[at] == ESC)
    ensures Replies(chunk, from, answer) == Replies(chunk, at, answer)
  {
    at := from;
    while at < |chunk| && chunk[at] != ESC
      invariant from <= at <= |chunk|
      invariant Replies(chunk, from, answer) == Replies(chunk, at, answer)
    {
      ReadPlain(chunk, at, answer);
      at := at + 1;
    }
  }

  method SkipDigits(chunk: Bytes, from: nat) returns (at: nat)
    requires from <= |chunk|
    ensures at == DigitsEnd(chunk, from)
  {
    at := from;
    while at < |chunk| && IsDigit(chunk[at])
      invariant from <= at <= |chunk|
      invariant DigitsEnd(chunk, at) == DigitsEnd(chunk, from)
    {
      at := at + 1;
    }
  }

  method ScanReplies(chunk: Bytes, row: nat, col: nat) returns (out: Bytes)
    ensures out == Replies(chunk, 0, Answers(CursorReport(row, col)))
  {
    out := Scan(chunk, Answers(CursorReport(row, col)));
  }

  /** The item at an escape: where the scan goes on and what it answers, or that it stops. */
  method ScanItem(chunk: Bytes, start: nat, answer: Responder) returns (next: Option<nat>, out: Bytes)
    requires start < |chunk| && chunk[start] == ESC
    ensures next.Some? ==> start < next.value <= |chunk|
    ensures Replies(chunk, start, answer) == if next.Some? then out + Replies(chunk, next.value, answer) else []
  {
    if start + 2 >= |chunk| {
      ReadUnfinished(chunk, start, answer);
      return None, [];
    }
    if chunk[start + 1] != BRACKET {
      ReadPlain(chunk, start, answer);
      assert [] + Replies(chunk, start + 1, answer) == Replies(chunk, start + 1, answer);
      return Some(start + 1), [];
    }
    var j := SkipDigits(chunk, start + 2);
    if j >= |chunk| {
      ReadUnfinished(chunk, start, answer);
      return None, [];
    }
    ReadControl(chunk, start, j, answer);
    return Some(j + 1), answer(chunk[start + 2..j], chunk[j]);
  }

  method Scan(chunk: Bytes, answer: Responder) returns (out: Bytes)
    ensures out == Replies(chunk, 0, answer)
  {
    out := [];
    var i: nat := 0;
    while true
      invariant i <= |chunk|
      invariant out + Replies(chunk, i, answer) == Replies(chunk, 0, answer)
      decreases |chunk| - i
    {
      var start := FindEscape(chunk, i, answer);
      if start == |chunk| {
        break;
      }
      var next, more := ScanItem(chunk, start, answer);
      if next.None? {
        break;
      }
      Associative(out, more, Replies(chunk, next.value, answer));
      out := out + more;
      i := next.value;
    }
  }

  // --- chunks that can be scanned apart -----------------------------------------------------------------------------

  /** From `i` on, the chunk ends between two items. */
  predicate EndsBetweenItems(a: Bytes, i: nat)
    requires i <= |a|
    decreases |a| - i
  {
    if i == |a| then true
    else if a[i] != ESC then EndsBetweenItems(a, i + 1)
    else if i + 1 == |a| then false
    else if a[i + 1] != BRACKET then EndsBetweenItems(a, i + 1)
    else DigitsEnd(a, i + 2) < |a| && EndsBetweenItems(a, DigitsEnd(a, i + 2) + 1)
  }

  lemma {:induction false} DigitsEndStays(a: Bytes, b: Bytes, j: nat)
    requires j <= |a| && (DigitsEnd(a, j) < |a| || b == [] || !IsDigit(b[0]))
    ensures DigitsEnd(a + b, j) == DigitsEnd(a, j)
    decreases |a| - j
  {
    if j < |a| && IsDigit(a[j]) {
      DigitsEndStays(a, b, j + 1);
    }
  }

  /** From `n` on, `all` is `b`. */
  predicate Continues(all: Bytes, n: nat, b: Bytes) {
    n <= |all| && all[n..] == b
  }

  lemma ByteShifts(all: Bytes, n: nat, b: Bytes, j: nat)
    requires Continues(all, n, b) && j < |b|
    ensures |all| == n + |b| && all[n + j] == b[j]
  {
    assert all[n..][j] == b[j];
  }

  lemma {:induction false} DigitsEndShifts(all: Bytes, n: nat, b: Bytes, j: nat)
    requires Continues(all, n, b) && j <= |b|
    ensures DigitsEnd(all, n + j) == n + DigitsEnd(b, j)
    decreases |b| - j
  {
    if j < |b| {
      ByteShifts(all, n, b, j);
      if IsDigit(b[j]) {
        DigitsEndShifts(all, n, b, j + 1);
      }
    }
  }

  lemma ItemShifts(all: Bytes, n: nat, b: Bytes, i: nat)
    requires Continues(all, n, b) && i < |b|
    ensures ItemAt(all, n + i) == if ItemAt(b, i).Command? then Command(n + ItemAt(b, i).final) else ItemAt(b, i)
  {
    ByteShifts(all, n, b, i);
    if i + 2 < |b| {
      ByteShifts(all, n, b, i + 1);
      DigitsEndShifts(all, n, b, i + 2);
    }
  }

  lemma SliceShifts(all: Bytes, n: nat, from: nat, to: nat)
    requires from <= to && n + to <= |all|
    ensures all[n + from..n + to] == all[n..][from..to]
  {
  }

  lemma StepShifts(all: Bytes, n: nat, b: Bytes, i: nat, answer: Responder)
    requires Continues(all, n, b) && i < |b|
    ensures After(all, n + i) == n + After(b, i)
    ensures Said(all, n + i, answer) == Said(b, i, answer)
  {
    ItemShifts(all, n, b, i);
    if ItemAt(b, i).Command? {
      var end := ItemAt(b, i).final;
      ByteShifts(all, n, b, end);
      SliceShifts(all, n, i + 2, end);
    }
  }

  lemma SameStep(all: Bytes, at: nat, b: Bytes, i: nat, answer: Responder)
    requires i < |b| && at < |all| && Said(all, at, answer) == Said(b, i, answer)
    requires Replies(all, After(all, at), answer) == Replies(b, After(b, i), answer)
    ensures Replies(all, at, answer) == Replies(b, i, answer)
  {
  }

  /** What comes before a position has no influence behind it. */
  lemma {:induction false} RepliesShift(all: Bytes, n: nat, b: Bytes, i: nat, answer: Responder)
    requires Continues(all, n, b) && i <= |b|
    ensures Replies(all, n + i, answer) == Replies(b, i, answer)
    decreases |b| - i
  {
    assert |all| == n + |b|;
    if i < |b| {
      StepShifts(all, n, b, i, answer);
      RepliesShift(all, n, b, After(b, i), answer);
      SameStep(all, n + i, b, i, answer);
    }
  }

  ghost predicate Splits(a: Bytes, i: nat, b: Bytes, answer: Responder)
    requires i <= |a|
  {
    Replies(a + b, i, answer) == Replies(a, i, answer) + Replies(b, 0, answer)
  }

  lemma AtEnd(a: Bytes, i: nat, answer: Responder)
    requires i + 1 == |a|
    ensures Replies(a, i, answer) == []
  {
    if a[i] == ESC {
      ReadUnfinished(a, i, answer);
    } else {
      ReadPlain(a, i, answer);
    }
  }

  /** The two ways past an item that is finished within `a`. */
  lemma PastPlain(a: Bytes, i: nat, b: Bytes, answer: Responder)
    requires i < |a| && b != [] && (a[i] != ESC || (i + 1 < |a| && a[i + 1] != BRACKET))
    ensures Splits(a, i, b, answer) <==> Splits(a, i + 1, b, answer)
  {
    ReadPlain(a + b, i, answer);
    if a[i] == ESC && i + 2 == |a| {
      ReadUnfinished(a, i, answer);
      AtEnd(a, i + 1, answer);
    } else {
      ReadPlain(a, i, answer);
    }
  }

  lemma ControlStays(a: Bytes, i: nat, b: Bytes, end: nat)
    requires i + 2 <= |a| && a[i] == ESC && a[i + 1] == BRACKET && end == DigitsEnd(a, i + 2) < |a|
    ensures ItemAt(a, i) == Command(end) && ItemAt(a + b, i) == Command(end)
    ensures (a + b)[i + 2..end] == a[i + 2..end] && (a + b)[end] == a[end]
  {
    DigitsEndStays(a, b, i + 2);
  }

  lemma SamePrefix(p: Bytes, x: Bytes, y: Bytes, z: Bytes)
    ensures p + x == (p + y) + z <==> x == y + z
  {
    if p + x == (p + y) + z {
      assert x == (p + x)[|p|..] && y + z == ((p + y) + z)[|p|..];
    }
    Associative(p, y, z);
  }

  lemma PastControl(a: Bytes, i: nat, b: Bytes, end: nat, answer: Responder)
    requires i + 2 <= |a| && a[i] == ESC && a[i + 1] == BRACKET && end == DigitsEnd(a, i + 2) < |a|
    ensures Splits(a, i, b, answer) <==> Splits(a, end + 1, b, answer)
  {
    ControlStays(a, i, b, end);
    ReadControl(a, i, end, answer);
    ReadControl(a + b, i, end, answer);
    SamePrefix(answer(a[i + 2..end], a[end]), Replies(a + b, end + 1, answer),
               Replies(a, end + 1, answer), Replies(b, 0, answer));
  }

  lemma SplitsAtEnd(a: Bytes, b: Bytes, answer: Responder)
    ensures Splits(a, |a|, b, answer)
  {
    var all := a + b;
    assert Continues(all, |a|, b);
    RepliesShift(all, |a|, b, 0, answer);
    assert Replies(a, |a|, answer) == [];
  }

  lemma {:induction false} SplitBetweenItems(a: Bytes, i: nat, b: Bytes, answer: Responder)
    requires i <= |a| && EndsBetweenItems(a, i) && b != []
    ensures Splits(a, i, b, answer)
    decreases |a| - i
  {
    if i == |a| {
      SplitsAtEnd(a, b, answer);
    } else if a[i] != ESC || a[i + 1] != BRACKET {
      PastPlain(a, i, b, answer);
      SplitBetweenItems(a, i + 1, b, answer);
    } else {
      var end := DigitsEnd(a, i + 2);
      PastControl(a, i, b, end, answer);
      SplitBetweenItems(a, end + 1, b, answer);
    }
  }

  /** A chunk that ends in the query is answered for it. */
  lemma QueryIsAnswered(all: Bytes, n: nat, answer: Responder)
    requires |all| == n + 3 && all[n] == ESC && all[n + 1] == BRACKET && all[n + 2] == 0x63
    ensures Replies(all, n, answer) == answer([], 0x63)
  {
    assert DigitsEnd(all, n + 2) == n + 2 && all[n + 2..n + 2] == [];
    ReadControl(all, n, n + 2, answer);
    assert Replies(all, n + 3, answer) == [];
  }

  /** Without its escape it is text. */
  lemma QueryTail(all: Bytes, n: nat, answer: Responder)
    requires |all| == n + 2 && all[n] != ESC
    ensures Replies(all, n, answer) == []
  {
    ReadPlain(all, n, answer);
    AtEnd(all, n + 1, answer);
  }

  lemma EscapeEndsControl(a: Bytes, i: nat)
    requires i + 2 <= |a| && a[i] == ESC && a[i + 1] == BRACKET && DigitsEnd(a, i + 2) == |a|
    ensures ItemAt(a, i).Unfinished? && ItemAt(a + QUERY, i) == Command(|a|)
    ensures (a + QUERY)[i + 2..|a|] == a[i + 2..] && (a + QUERY)[|a|] == ESC
  {
    DigitsEndStays(a, QUERY, i + 2);
  }

  lemma SilentControl(all: Bytes, i: nat, end: nat, answer: Responder)
    requires i < |all| && ItemAt(all, i) == Command(end) && answer(all[i + 2..end], all[end]) == []
    requires |all| == end + 3 && all[end + 1] != ESC
    ensures Replies(all, i, answer) == []
  {
    ReadControl(all, i, end, answer);
    QueryTail(all, end + 1, answer);
  }

  /** Cut inside a control sequence, a following query is taken for its final byte. */
  lemma UnfinishedControl(a: Bytes, i: nat, answer: Responder)
    requires i + 2 <= |a| && a[i] == ESC && a[i + 1] == BRACKET && DigitsEnd(a, i + 2) == |a|
    requires answer(a[i + 2..], ESC) == []
    ensures Replies(a, i, answer) == [] && Replies(a + QUERY, i, answer) == []
  {
    EscapeEndsControl(a, i);
    ReadUnfinished(a, i, answer);
    SilentControl(a + QUERY, i, |a|, answer);
  }

  lemma LoneEscape(a: Bytes, i: nat, b: Bytes, answer: Responder)
    requires i + 1 == |a| && a[i] == ESC && b == [0x5b, 0x63] && answer([], 0x63) != []
    ensures !Splits(a, i, b, answer)
  {
    AtEnd(a, i, answer);
    QueryTail(b, 0, answer);
    QueryIsAnswered(a + b, i, answer);
  }

  /** The device query is answered; a sequence that ends in an escape is not. */
  ghost predicate AnswersDevice(answer: Responder) {
    answer([], 0x63) != [] && forall params :: answer(params, ESC) == []
  }

  lemma UnfinishedSplits(a: Bytes, i: nat, answer: Responder)
    requires i + 2 <= |a| && a[i] == ESC && a[i + 1] == BRACKET && DigitsEnd(a, i + 2) == |a|
    requires AnswersDevice(answer)
    ensures !Splits(a, i, QUERY, answer)
  {
    UnfinishedControl(a, i, answer);
    QueryIsAnswered(QUERY, 0, answer);
  }

  lemma {:induction false} CutInsideItem(a: Bytes, i: nat, answer: Responder) returns (b: Bytes)
    requires i <= |a| && !EndsBetweenItems(a, i) && AnswersDevice(answer)
    ensures b != [] && !Splits(a, i, b, answer)
    decreases |a| - i
  {
    if a[i] == ESC && i + 1 == |a| {
      b := [0x5b, 0x63];
      LoneEscape(a, i, b, answer);
    } else if a[i] != ESC || a[i + 1] != BRACKET {
      b := CutInsideItem(a, i + 1, answer);
      PastPlain(a, i, b, answer);
    } else if DigitsEnd(a, i + 2) < |a| {
      var end := DigitsEnd(a, i + 2);
      b := CutInsideItem(a, end + 1, answer);
      PastControl(a, i, b, end, answer);
    } else {
      b := QUERY;
      UnfinishedSplits(a, i, answer);
    }
  }

  /** A chunk can be scanned apart from whatever follows it exactly when it ends between two items. */
  lemma SplitIff(a: Bytes, row: nat, col: nat)
    ensures (forall b :: Splits(a, 0, b, Answers(CursorReport(row, col)))) <==> EndsBetweenItems(a, 0)
  {
    var answer := Answers(CursorReport(row, col));
    if EndsBetweenItems(a, 0) {
      forall b ensures Splits(a, 0, b, answer) {
        if b == [] {
          assert a + b == a;
        } else {
          SplitBetweenItems(a, 0, b, answer);
        }
      }
    } else {
      var b := CutInsideItem(a, 0, answer);
    }
  }

  // --- what the answers say ---------------------------------------------------------------------------------------

  /** Below the largest 16-bit coordinate, the report reads as row and column counted from one, in this order. */
  lemma ReportSaysRowAndColumn(row: nat, col: nat)
    requires row < 0x1_0000 && col < 0x1_0000
    ensures ReadSequence(CursorReport(row, col)) ==
            Some(Control(if row == 0xffff then 0xffff else row + 1, if col == 0xffff then 0xffff else col + 1, 0x52))
  {
    SequenceReadsBack(OneBased(row), OneBased(col), 0x52);
  }

  /** The three queries that are answered, byte by byte: `ESC [ 6 n` by the report, `ESC [ c` and `ESC [ 0 c` by
      `ESC [ ? 6 c`; a control sequence with any other parameter or final byte is not. */
  lemma AnsweredQueries(params: Bytes, final: byte, row: nat, col: nat)
    requires !IsDigit(final) && forall i :: 0 <= i < |params| ==> IsDigit(params[i])
    ensures var b := [0x1b, 0x5b] + params + [final];
            Replies(b, 0, Answers(CursorReport(row, col))) ==
            if params == [0x36] && final == 0x6e then CursorReport(row, col)
            else if (params == [] || params == [0x30]) && final == 0x63 then [0x1b, 0x5b, 0x3f, 0x36, 0x63]
            else []
  {
    var b := [0x1b, 0x5b] + params + [final];
    var end := 2 + |params|;
    assert forall i :: 2 <= i < end ==> b[i] == params[i - 2];
    DigitsRun(b, 2, end);
    assert b[2..end] == params && b[end] == final;
    var answer := Answers(CursorReport(row, col));
    ReadControl(b, 0, end, answer);
    assert Replies(b, end + 1, answer) == [];
  }
}
