/** The constants of the tap's reader. */
module TapLimits {
  const MIN_COLS: nat := 1
  const MIN_CHILD_ROWS: nat := 2
  const RECONNECT_ATTEMPTS: nat := 5
}

/** The framed subscriber protocol the tap speaks: frames, resize payloads, screen snapshots and their repaint. */
module TapProtocol {
  import opened Basics
  import opened BigEndians
  import opened Terminal

  const MAX_FRAME_LEN: nat := 1024 * 1024
  const FRAME_HELLO: byte := 0x81
  const FRAME_KEYFRAME: byte := 0x82
  const FRAME_OUTPUT: byte := 0x83
  const FRAME_RESIZE: byte := 0x84
  const FRAME_END: byte := 0x85

  function U16(n: nat): (b: Bytes)
    ensures |b| == 2
  {
    BigEndian(n, 2)
  }

  function FromU16(b: Bytes): (n: nat)
    requires |b| == 2
    ensures n < 0x1_0000
  {
    Widths();
    FromBigEndianBound(b);
    FromBigEndian(b)
  }

  function U32(n: nat): (b: Bytes)
    ensures |b| == 4
  {
    BigEndian(n, 4)
  }

  function FromU32(b: Bytes): (n: nat) {
    FromBigEndian(b)
  }

  lemma U16RoundTrip(n: nat)
    requires n < 0x1_0000
    ensures FromU16(U16(n)) == n
  {
    Widths();
    BigEndianRoundTrip(n, 2);
  }

  lemma U32RoundTrip(n: nat)
    requires n < 0x1_0000_0000
    ensures FromU32(U32(n)) == n
  {
    Widths();
    BigEndianRoundTrip(n, 4);
  }

  // --- frames ---------------------------------------------------------------------------------------------

  datatype Frame = Frame(kind: byte, payload: Bytes)

  predicate Sendable(f: Frame) {
    |f.payload| <= MAX_FRAME_LEN
  }

  function EncodeFrame(f: Frame): Bytes
    requires Sendable(f)
  {
    [f.kind] + U32(|f.payload|) + f.payload
  }

  /** What one `read_frame` finds on a connection that will deliver exactly `stream` and then close. */
  datatype FrameRead = Got(frame: Frame, rest: Bytes) | Eof | Broken

  function ReadFrame(stream: Bytes): (r: FrameRead)
    ensures r.Got? ==> |r.rest| < |stream| && Sendable(r.frame)
  {
    if stream == [] then Eof
    else if |stream| < 5 then Broken
    else
      var len := FromU32(stream[1..5]);
      if len > MAX_FRAME_LEN || |stream| < 5 + len then Broken
      else Got(Frame(stream[0], stream[5..5 + len]), stream[5 + len..])
  }

  lemma ReadEncodedFrame(f: Frame, rest: Bytes)
    requires Sendable(f)
    ensures ReadFrame(EncodeFrame(f) + rest) == Got(f, rest)
  {
    var s := EncodeFrame(f) + rest;
    assert s[1..5] == U32(|f.payload|);
    U32RoundTrip(|f.payload|);
    assert s[5..5 + |f.payload|] == f.payload;
    assert s[5 + |f.payload|..] == rest;
  }

  /** Bytes in which no further frame can be read: the end of a connection, wherever it breaks off. */
  predicate BrokenOff(tail: Bytes) {
    !ReadFrame(tail).Got?
  }

  /** Every proper prefix of a frame is such an end. */
  lemma CutFrameBreaksOff(f: Frame, n: nat)
    requires Sendable(f) && n < |EncodeFrame(f)|
    ensures BrokenOff(EncodeFrame(f)[..n])
  {
    var s := EncodeFrame(f)[..n];
    if n >= 5 {
      assert s[1..5] == U32(|f.payload|);
      U32RoundTrip(|f.payload|);
    }
  }

  function EncodeFrames(fs: seq<Frame>): Bytes
    requires forall i :: 0 <= i < |fs| ==> Sendable(fs[i])
  {
    if fs == [] then [] else EncodeFrame(fs[0]) + EncodeFrames(fs[1..])
  }

  // --- payloads ----------------------------------------------------------------------------------------------

  function ResizePayload(rows: nat, cols: nat): Bytes
    requires rows < 0x1_0000 && cols < 0x1_0000
  {
    U16(rows) + U16(cols)
  }

  function DecodeResize(payload: Bytes): (r: Option<(nat, nat)>) {
    if |payload| != 4 then None else Some((FromU16(payload[..2]), FromU16(payload[2..])))
  }

  lemma ResizeRoundTrip(rows: nat, cols: nat)
    requires rows < 0x1_0000 && cols < 0x1_0000
    ensures DecodeResize(ResizePayload(rows, cols)) == Some((rows, cols))
  {
    var p := ResizePayload(rows, cols);
    assert p[..2] == U16(rows) && p[2..] == U16(cols);
    U16RoundTrip(rows);
    U16RoundTrip(cols);
  }

  /** `decode_hello`: version and whether input was granted; trailing bytes are tolerated. */
  function DecodeHello(payload: Bytes): (r: Option<bool>) {
    if |payload| < 2 then None else Some(payload[1] != 0)
  }

  datatype Snapshot = Snapshot(rows: nat, cols: nat, cursorRow: nat, cursorCol: nat, rowsData: seq<Bytes>)

  /** Sixteen-bit header fields and rows whose length fits the 32-bit prefix. */
  predicate Encodable(s: Snapshot) {
    && s.rows < 0x1_0000 && s.cols < 0x1_0000 && s.cursorRow < 0x1_0000 && s.cursorCol < 0x1_0000
    && forall i :: 0 <= i < |s.rowsData| ==> |s.rowsData[i]| < 0x1_0000_0000
  }

  function EncodeRows(rows: seq<Bytes>): Bytes
    requires forall i :: 0 <= i < |rows| ==> |rows[i]| < 0x1_0000_0000
  {
    if rows == [] then [] else U32(|rows[0]|) + rows[0] + EncodeRows(rows[1..])
  }

  function EncodeSnapshot(s: Snapshot): Bytes
    requires Encodable(s)
  {
    U16(s.rows) + U16(s.cols) + U16(s.cursorRow) + U16(s.cursorCol) + EncodeRows(s.rowsData)
  }

  function DecodeRows(data: Bytes): (r: Option<seq<Bytes>>)
    decreases |data|
  {
    if data == [] then Some([])
    else if |data| < 4 then None
    else
      var len := FromU32(data[..4]);
      if |data| < 4 + len then None
      else match DecodeRows(data[4 + len..])
           case None => None
           case Some(more) => Some([data[4..4 + len]] + more)
  }

  function DecodeSnapshot(data: Bytes): (r: Option<Snapshot>)
    ensures r.Some? ==> r.value.rows < 0x1_0000 && r.value.cols < 0x1_0000
  {
    if |data| < 8 then None
    else match DecodeRows(data[8..])
         case None => None
         case Some(rows) =>
           Some(Snapshot(FromU16(data[..2]), FromU16(data[2..4]), FromU16(data[4..6]), FromU16(data[6..8]), rows))
  }

  lemma RowPrefix(row: Bytes, more: Bytes)
    requires |row| < 0x1_0000_0000
    ensures var data := U32(|row|) + row + more;
            && |data| >= 4 + |row| && FromU32(data[..4]) == |row|
            && data[4..4 + |row|] == row && data[4 + |row|..] == more
  {
    var data := U32(|row|) + row + more;
    U32RoundTrip(|row|);
    assert data[..4] == U32(|row|);
  }

  lemma {:induction false} RowsRoundTrip(rows: seq<Bytes>)
    requires forall i :: 0 <= i < |rows| ==> |rows[i]| < 0x1_0000_0000
    ensures DecodeRows(EncodeRows(rows)) == Some(rows)
  {
    if rows != [] {
      RowsRoundTrip(rows[1..]);
      RowPrefix(rows[0], EncodeRows(rows[1..]));
      assert rows == [rows[0]] + rows[1..];
    }
  }

  /** A keyframe payload decodes to the snapshot it was made from. */
  lemma SnapshotRoundTrip(s: Snapshot)
    requires Encodable(s)
    ensures DecodeSnapshot(EncodeSnapshot(s)) == Some(s)
  {
    var data := EncodeSnapshot(s);
    RowsRoundTrip(s.rowsData);
    assert data[..2] == U16(s.rows) && data[2..4] == U16(s.cols);
    assert data[4..6] == U16(s.cursorRow) && data[6..8] == U16(s.cursorCol);
    assert data[8..] == EncodeRows(s.rowsData);
    U16RoundTrip(s.rows);
    U16RoundTrip(s.cols);
    U16RoundTrip(s.cursorRow);
    U16RoundTrip(s.cursorCol);
  }

  // --- the repaint -----------------------------------------------------------------------------------------------

  /** `ESC [ row ; col H`. */
  function CursorTo(row: nat, col: nat): Bytes {
    Sequence(row, col, 0x48)
  }

  function PaintRows(rows: seq<Bytes>, i: nat): Bytes
    requires i <= |rows|
    decreases |rows| - i
  {
    if i == |rows| then [] else CursorTo(i + 1, 1) + rows[i] + PaintRows(rows, i + 1)
  }

  /** Clear and home, every row at its absolute position, a style reset, the cursor restored. */
  function SnapshotToAnsi(s: Snapshot): (b: Bytes)
    ensures b != []
  {
    [0x1b] + Ascii("[H") + [0x1b] + Ascii("[2J")
    + PaintRows(s.rowsData, 0)
    + [0x1b] + Ascii("[0m") + CursorTo(s.cursorRow + 1, s.cursorCol + 1)
  }

  /** A cursor movement that a terminal reads as going to a line and a column, both counted from one. */
  predicate GoesTo(b: Bytes, line: nat, column: nat) {
    ReadSequence(b) == Some(Control(line, column, 0x48))
  }

  /** What is painted from row `i` on: each row behind a movement to the start of its line. */
  lemma RowsArePlaced(rows: seq<Bytes>, i: nat) returns (move: Bytes)
    requires i < |rows|
    ensures GoesTo(move, i + 1, 1) && PaintRows(rows, i) == move + rows[i] + PaintRows(rows, i + 1)
  {
    move := CursorTo(i + 1, 1);
    SequenceReadsBack(i + 1, 1, 0x48);
  }

  /** The repaint: home and clear, the rows from the first on, a style reset, and the cursor where the snapshot has
      it. */
  lemma RepaintRestoresCursor(s: Snapshot) returns (move: Bytes)
    ensures GoesTo(move, s.cursorRow + 1, s.cursorCol + 1)
    ensures SnapshotToAnsi(s) == [0x1b, 0x5b, 0x48, 0x1b, 0x5b, 0x32, 0x4a] + PaintRows(s.rowsData, 0)
                                 + [0x1b, 0x5b, 0x30, 0x6d] + move
  {
    move := CursorTo(s.cursorRow + 1, s.cursorCol + 1);
    SequenceReadsBack(s.cursorRow + 1, s.cursorCol + 1, 0x48);
    RepaintBytes(PaintRows(s.rowsData, 0), move);
  }

  lemma RepaintBytes(rows: Bytes, move: Bytes)
    ensures [0x1b] + Ascii("[H") + [0x1b] + Ascii("[2J") + rows + [0x1b] + Ascii("[0m") + move ==
            [0x1b, 0x5b, 0x48, 0x1b, 0x5b, 0x32, 0x4a] + rows + [0x1b, 0x5b, 0x30, 0x6d] + move
  {
    assert [0x1b] + Ascii("[H") + [0x1b] + Ascii("[2J") == [0x1b, 0x5b, 0x48, 0x1b, 0x5b, 0x32, 0x4a];
    assert [0x1b] + Ascii("[0m") == [0x1b, 0x5b, 0x30, 0x6d];
    var clear := [0x1b, 0x5b, 0x48, 0x1b, 0x5b, 0x32, 0x4a];
    Associative(clear + rows, [0x1b], Ascii("[0m"));
  }

  // --- the bytes of a frame ----------------------------------------------------------------------------------------

  /** A frame on the wire: its kind, four bytes of length and the payload. */
  lemma FrameBytesAre(f: Frame)
    requires Sendable(f)
    ensures var n := |f.payload|;
            EncodeFrame(f) == [f.kind, n / 0x100_0000, n / 0x1_0000 % 256, n / 256 % 256, n % 256] + f.payload
  {
    FourBytes(|f.payload|);
  }

  /** The payloads, byte by byte: rows before columns, and in a snapshot the cursor's row before its column. */
  lemma PayloadBytesAre(rows: nat, cols: nat, s: Snapshot)
    requires rows < 0x1_0000 && cols < 0x1_0000 && Encodable(s)
    ensures ResizePayload(rows, cols) == [rows / 256, rows % 256, cols / 256, cols % 256]
    ensures EncodeSnapshot(s) == [s.rows / 256, s.rows % 256, s.cols / 256, s.cols % 256,
                                  s.cursorRow / 256, s.cursorRow % 256, s.cursorCol / 256, s.cursorCol % 256]
                                 + EncodeRows(s.rowsData)
  {
    TwoBytes(rows);
    TwoBytes(cols);
    TwoBytes(s.rows);
    TwoBytes(s.cols);
    TwoBytes(s.cursorRow);
    TwoBytes(s.cursorCol);
  }
}
