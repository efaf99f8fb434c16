/**
 The tap's reader: from the bytes of successive proxy connections to one ordered stream of session events.

 The environment is the bytes the current connection will still deliver and, for every reconnect attempt the
 reader may make, what that attempt meets.
 */
module TapReader {
  import opened Basics
  import opened TapProtocol
  import opened BigEndians
  import opened TapLimits

  datatype Size = Size(cols: nat, rows: nat)

  datatype Event = Output(bytes: Bytes) | Resize(size: Size)

  function ClampTapSize(cols: nat, rows: nat): Size {
    Size(Max(cols, MIN_COLS), Max(rows, MIN_CHILD_ROWS))
  }

  function SnapshotSize(s: Snapshot): Size {
    ClampTapSize(s.cols, s.rows)
  }

  predicate Survivable(size: Size) {
    size.cols >= MIN_COLS && size.rows >= MIN_CHILD_ROWS
  }

  /** The attach geometry is refused, never floored: the size when it is granted is the proxy's own. */
  function AttachSize(s: Snapshot): (r: Option<Size>)
    ensures r.Some? <==> Survivable(Size(s.cols, s.rows))
    ensures r.Some? ==> r.value == Size(s.cols, s.rows) == SnapshotSize(s)
  {
    if s.cols < MIN_COLS || s.rows < MIN_CHILD_ROWS then None else Some(Size(s.cols, s.rows))
  }

  // --- the handshake ---------------------------------------------------------------------------------------

  datatype Handshake = Subscribed(snapshot: Snapshot, rest: Bytes) | TooOld | InputDenied | Malformed

  /** Frames after the Hello are skipped up to the first keyframe. */
  function AwaitKeyframe(stream: Bytes): Handshake
    decreases |stream|
  {
    match ReadFrame(stream)
    case Got(f, rest) =>
      if f.kind == FRAME_KEYFRAME then
        match DecodeSnapshot(f.payload)
        case Some(s) => Subscribed(s, rest)
        case None => Malformed
      else if f.kind == FRAME_END then Malformed
      else AwaitKeyframe(rest)
    case _ => Malformed
  }

  function Greet(stream: Bytes, wantInput: bool): Handshake {
    match ReadFrame(stream)
    case Got(f, rest) =>
      if f.kind != FRAME_HELLO then TooOld
      else (match DecodeHello(f.payload)
            case None => TooOld
            case Some(granted) => if wantInput && !granted then InputDenied else AwaitKeyframe(rest))
    case _ => TooOld
  }

  // --- reconnecting -----------------------------------------------------------------------------------------

  /** What one attempt of `resync` meets: the stop flag at its check, the bytes the peer will deliver if it can be
      connected to, whether the handle can be cloned, and the stop flag at the re-check. */
  datatype Attempt = Attempt(stopped: bool, answer: Option<Bytes>, cloned: bool, stoppedSince: bool)

  /** The attempt goes on to the next one: no connection, no subscription or no second handle. */
  predicate Fails(a: Attempt, wantInput: bool) {
    !a.stopped && (a.answer.None? || !Greet(a.answer.value, wantInput).Subscribed? || !a.cloned)
  }

  /** The attempt subscribes and nobody stopped the tap. */
  predicate Succeeds(a: Attempt, wantInput: bool) {
    !a.stopped && a.answer.Some? && Greet(a.answer.value, wantInput).Subscribed? && a.cloned && !a.stoppedSince
  }

  datatype Resynced = Lost | Restored(snapshot: Snapshot, stream: Bytes, later: seq<Attempt>)

  /** At most `tries` attempts; the list running out means that nothing answers any more. */
  function Resync(attempts: seq<Attempt>, wantInput: bool, tries: nat): (r: Resynced)
    ensures r.Restored? ==> |r.later| < |attempts|
    decreases tries
  {
    if tries == 0 || attempts == [] then Lost
    else if Fails(attempts[0], wantInput) then Resync(attempts[1..], wantInput, tries - 1)
    else if !Succeeds(attempts[0], wantInput) then Lost
    else
      var greeting := Greet(attempts[0].answer.value, wantInput);
      Restored(greeting.snapshot, greeting.rest, attempts[1..])
  }

  // --- the events a feed stands for -----------------------------------------------------------------------

  /** The geometry of a snapshot, then its repaint. */
  function Repaint(s: Snapshot): seq<Event> {
    [Resize(SnapshotSize(s)), Output(SnapshotToAnsi(s))]
  }

  /** The events of one frame. */
  function FrameEvents(f: Frame): seq<Event> {
    if f.kind == FRAME_OUTPUT then (if f.payload == [] then [] else [Output(f.payload)])
    else if f.kind == FRAME_RESIZE then
      match DecodeResize(f.payload)
      case Some((rows, cols)) => [Resize(ClampTapSize(cols, rows))]
      case None => []
    else if f.kind == FRAME_KEYFRAME then
      match DecodeSnapshot(f.payload)
      case Some(s) => Repaint(s)
      case None => []
    else []
  }

  /** All events of a feed: the current connection's frames up to its end, then, for as long as the feed can be
      restored, the repaint and the frames of the next connection. */
  function FeedEvents(stream: Bytes, attempts: seq<Attempt>, wantInput: bool): seq<Event>
    decreases |attempts|, |stream|, 1
  {
    match ReadFrame(stream)
    case Got(f, rest) =>
      if f.kind == FRAME_END then EventsAfterLoss(attempts, wantInput)
      else FrameEvents(f) + FeedEvents(rest, attempts, wantInput)
    case _ => EventsAfterLoss(attempts, wantInput)
  }

  function EventsAfterLoss(attempts: seq<Attempt>, wantInput: bool): seq<Event>
    decreases |attempts|, 0, 0
  {
    match Resync(attempts, wantInput, RECONNECT_ATTEMPTS)
    case Lost => []
    case Restored(s, stream, later) => Repaint(s) + FeedEvents(stream, later, wantInput)
  }

  /** Bytes waiting ahead of the socket are one output event. */
  function Queued(pending: Bytes): seq<Event> {
    if pending == [] then [] else [Output(pending)]
  }

  lemma RepaintFirst(s: Snapshot, later: seq<Event>)
    ensures Repaint(s) + later == [Resize(SnapshotSize(s))] + (Queued(SnapshotToAnsi(s)) + later)
  {
    Associative([Resize(SnapshotSize(s))], Queued(SnapshotToAnsi(s)), later);
  }

  // --- the reader --------------------------------------------------------------------------------------------

  class Reader {
    const wantInput: bool
    var stream: Bytes            // what the current connection will still deliver
    var attempts: seq<Attempt>   // what the next reconnect attempts will meet
    var pending: Bytes
    var ended: bool              // the end-of-feed sender was dropped

    constructor (stream: Bytes, attempts: seq<Attempt>, wantInput: bool)
      ensures !ended && Remaining() == FeedEvents(stream, attempts, wantInput)
    {
      this.stream, this.attempts, this.wantInput := stream, attempts, wantInput;
      this.pending, this.ended := [], false;
    }

    /** The events the session has not been given yet. */
    function Remaining(): seq<Event>
      reads this
    {
      Queued(pending) + FeedEvents(stream, attempts, wantInput)
    }

    /** Reconnect, at most RECONNECT_ATTEMPTS times: connect, shake hands, swap and look at the stop flag again.
        The fresh keyframe becomes `pending`, its size is returned. */
    method DoResync() returns (size: Option<Size>)
      requires pending == []
      modifies this`stream, this`attempts, this`pending
      ensures match Resync(old(attempts), wantInput, RECONNECT_ATTEMPTS)
              case Lost => size.None? && pending == [] && stream == old(stream)
              case Restored(s, bytes, later) =>
                size == Some(SnapshotSize(s)) && pending == SnapshotToAnsi(s) && stream == bytes && attempts == later
    {
      var tries: nat := RECONNECT_ATTEMPTS;
      while tries > 0
        invariant pending == [] && stream == old(stream)
        invariant Resync(attempts, wantInput, tries) == Resync(old(attempts), wantInput, RECONNECT_ATTEMPTS)
      {
        if attempts == [] || attempts[0].stopped {
          return None;
        }
        var a := attempts[0];
        tries, attempts := tries - 1, attempts[1..];
        if a.answer.None? {
          continue;
        }
        var greeting := Greet(a.answer.value, wantInput);
        if !greeting.Subscribed? || !a.cloned {
          continue;
        }
        if a.stoppedSince {
          return None;
        }
        stream := greeting.rest;
        pending := SnapshotToAnsi(greeting.snapshot);
        return Some(SnapshotSize(greeting.snapshot));
      }
      return None;
    }

    /** The arms for a frame other than End: the event to return, if any, and what it leaves pending. */
    method Deliver(f: Frame) returns (event: Option<Event>)
      requires pending == []
      modifies this`pending
      ensures event.None? ==> FrameEvents(f) == [] && pending == []
      ensures event.Some? ==> FrameEvents(f) == [event.value] + Queued(pending)
    {
      if f.kind == FRAME_OUTPUT {
        if f.payload != [] {
          return Some(Output(f.payload));
        }
      } else if f.kind == FRAME_RESIZE {
        var decoded := DecodeResize(f.payload);
        if decoded.Some? {
          return Some(Resize(ClampTapSize(decoded.value.1, decoded.value.0)));
        }
      } else if f.kind == FRAME_KEYFRAME {
        var decoded := DecodeSnapshot(f.payload);
        if decoded.Some? {
          pending := SnapshotToAnsi(decoded.value);
          return Some(Resize(SnapshotSize(decoded.value)));
        }
      }
      return None;
    }

    /** The arm for End, the end of the stream and errors. */
    method Recover() returns (event: Option<Event>)
      requires pending == [] && !ended
      modifies this
      ensures var left := EventsAfterLoss(old(attempts), wantInput);
              if left == [] then event.None? && ended
              else !ended && event.Some? && left == [event.value] + Remaining()
    {
      ghost var resynced := Resync(attempts, wantInput, RECONNECT_ATTEMPTS);
      var size := DoResync();
      if size.Some? {
        RepaintFirst(resynced.snapshot, FeedEvents(stream, attempts, wantInput));
        return Some(Resize(size.value));
      }
      ended := true;
      return None;
    }

    /** One turn of the read loop, with nothing pending: an event, the end, or a frame that stands for no event. */
    method Turn() returns (event: Option<Event>, skip: bool)
      requires !ended && pending == []
      modifies this
      ensures skip ==> !ended && pending == [] && |stream| < |old(stream)|
                       && FeedEvents(stream, attempts, wantInput) == FeedEvents(old(stream), old(attempts), wantInput)
      ensures !skip ==> if FeedEvents(old(stream), old(attempts), wantInput) == [] then event.None? && ended
                        else !ended && event.Some?
                             && FeedEvents(old(stream), old(attempts), wantInput) == [event.value] + Remaining()
    {
      var read := ReadFrame(stream);
      if !read.Got? || read.frame.kind == FRAME_END {
        event := Recover();
        return event, false;
      }
      stream := read.rest;
      event := Deliver(read.frame);
      skip := event.None?;
      if event.Some? {
        Associative([event.value], Queued(pending), FeedEvents(stream, attempts, wantInput));
      }
    }

    /** One event, or the end. What is returned is exactly the head of what remained, pending bytes included, and
        the end is signalled exactly when nothing remained. */
    method ReadEvent() returns (event: Option<Event>)
      requires !ended
      modifies this
      ensures if old(Remaining()) == [] then event.None? && ended
              else !ended && event.Some? && old(Remaining()) == [event.value] + Remaining()
    {
      if pending != [] {
        event := Some(Output(pending));
        pending := [];
        return;
      }
      event := None;
      var skip := true;
      while skip
        invariant skip ==> !ended && pending == [] && FeedEvents(stream, attempts, wantInput) == old(Remaining())
        invariant !skip ==> if old(Remaining()) == [] then event.None? && ended
                            else !ended && event.Some? && old(Remaining()) == [event.value] + Remaining()
        decreases skip, |stream|
      {
        event, skip := Turn();
      }
    }

    /** The reader thread: read until the end. */
    method ReadAll() returns (events: seq<Event>)
      requires !ended
      modifies this
      ensures ended && events == old(Remaining())
    {
      events := [];
      ghost var left := Remaining();
      while !ended
        invariant events + left == old(Remaining())
        invariant if ended then left == [] else left == Remaining()
        decreases !ended, |left|
      {
        var event := ReadEvent();
        if event.Some? {
          Associative(events, [event.value], Remaining());
          events := events + [event.value];
          left := Remaining();
        }
      }
    }
  }

  // --- what the feed promises -----------------------------------------------------------------------------------

  predicate Safe(e: Event) {
    match e
    case Output(bytes) => bytes != []
    case Resize(size) => Survivable(size)
  }

  predicate AllSafe(events: seq<Event>) {
    forall i :: 0 <= i < |events| ==> Safe(events[i])
  }

  /** Whatever bytes arrive on whatever connections, every size is at or above the floor and no output is empty. */
  lemma {:induction false} FeedIsSafe(stream: Bytes, attempts: seq<Attempt>, wantInput: bool)
    ensures AllSafe(FeedEvents(stream, attempts, wantInput))
    decreases |attempts|, |stream|
  {
    var read := ReadFrame(stream);
    if read.Got? && read.frame.kind != FRAME_END {
      FeedIsSafe(read.rest, attempts, wantInput);
    } else {
      var r := Resync(attempts, wantInput, RECONNECT_ATTEMPTS);
      if r.Restored? {
        FeedIsSafe(r.stream, r.later, wantInput);
      }
    }
  }

  predicate AllSendable(fs: seq<Frame>) {
    forall i :: 0 <= i < |fs| ==> Sendable(fs[i])
  }

  /** The flattening specification: frame after frame up to an End frame. */
  function FlattenFrames(fs: seq<Frame>): seq<Event> {
    if fs == [] || fs[0].kind == FRAME_END then [] else FrameEvents(fs[0]) + FlattenFrames(fs[1..])
  }

  /** A connection gives the events of its whole frames up to an End, however it breaks off behind them. */
  lemma {:induction false} FramesFlatten(fs: seq<Frame>, tail: Bytes, attempts: seq<Attempt>, wantInput: bool)
    requires AllSendable(fs) && BrokenOff(tail)
    ensures FeedEvents(EncodeFrames(fs) + tail, attempts, wantInput) ==
            FlattenFrames(fs) + EventsAfterLoss(attempts, wantInput)
  {
    if fs == [] {
      assert EncodeFrames(fs) + tail == tail;
    } else {
      ReadEncodedFrame(fs[0], EncodeFrames(fs[1..]) + tail);
      Associative(EncodeFrame(fs[0]), EncodeFrames(fs[1..]), tail);
      FramesFlatten(fs[1..], tail, attempts, wantInput);
    }
  }

  // --- connections as their peer writes them -----------------------------------------------------------------------

  /** One reconnect: attempts that fail, then a greeting, frames to be skipped, a keyframe, the feed, and where it
      breaks off. */
  datatype Link = Link(failures: seq<Attempt>, hello: Frame, skipped: seq<Frame>, snapshot: Snapshot,
                       frames: seq<Frame>, tail: Bytes)

  predicate GoodHello(hello: Frame, wantInput: bool) {
    && Sendable(hello) && hello.kind == FRAME_HELLO && |hello.payload| >= 2
    && (wantInput ==> hello.payload[1] != 0)
  }

  predicate Skippable(f: Frame) {
    Sendable(f) && f.kind != FRAME_KEYFRAME && f.kind != FRAME_END
  }

  predicate GoodLink(l: Link, wantInput: bool) {
    && |l.failures| < RECONNECT_ATTEMPTS
    && (forall i :: 0 <= i < |l.failures| ==> Fails(l.failures[i], wantInput))
    && GoodHello(l.hello, wantInput)
    && (forall i :: 0 <= i < |l.skipped| ==> Skippable(l.skipped[i]))
    && Encodable(l.snapshot) && Sendable(Keyframe(l.snapshot))
    && AllSendable(l.frames) && BrokenOff(l.tail)
  }

  function Keyframe(s: Snapshot): Frame
    requires Encodable(s)
  {
    Frame(FRAME_KEYFRAME, EncodeSnapshot(s))
  }

  /** What the peer writes behind its keyframe. */
  function LinkFeed(l: Link): Bytes
    requires AllSendable(l.frames)
  {
    EncodeFrames(l.frames) + l.tail
  }

  /** The bytes the answering peer of a link writes. */
  function LinkBytes(l: Link, wantInput: bool): Bytes
    requires GoodLink(l, wantInput)
  {
    EncodeFrame(l.hello) + (EncodeFrames(l.skipped) + (EncodeFrame(Keyframe(l.snapshot)) + LinkFeed(l)))
  }

  /** An attempt that is answered with these bytes while the stop flag stays clear. */
  function Answered(bytes: Bytes): Attempt {
    Attempt(false, Some(bytes), true, false)
  }

  function LinkAttempts(links: seq<Link>, wantInput: bool): seq<Attempt>
    requires forall i :: 0 <= i < |links| ==> GoodLink(links[i], wantInput)
  {
    if links == [] then []
    else links[0].failures + [Answered(LinkBytes(links[0], wantInput))] + LinkAttempts(links[1..], wantInput)
  }

  function FlattenLinks(links: seq<Link>): seq<Event> {
    if links == [] then [] else Repaint(links[0].snapshot) + FlattenFrames(links[0].frames) + FlattenLinks(links[1..])
  }

  lemma {:induction false} SkipsFrames(skipped: seq<Frame>, tail: Bytes)
    requires AllSendable(skipped) && forall i :: 0 <= i < |skipped| ==> Skippable(skipped[i])
    ensures AwaitKeyframe(EncodeFrames(skipped) + tail) == AwaitKeyframe(tail)
  {
    if skipped == [] {
      assert EncodeFrames(skipped) + tail == tail;
    } else {
      SkipsFrames(skipped[1..], tail);
      ReadEncodedFrame(skipped[0], EncodeFrames(skipped[1..]) + tail);
      assert EncodeFrames(skipped) + tail == EncodeFrame(skipped[0]) + (EncodeFrames(skipped[1..]) + tail);
    }
  }

  lemma FindsKeyframe(s: Snapshot, rest: Bytes)
    requires Encodable(s) && Sendable(Keyframe(s))
    ensures AwaitKeyframe(EncodeFrame(Keyframe(s)) + rest) == Subscribed(s, rest)
  {
    ReadEncodedFrame(Keyframe(s), rest);
    SnapshotRoundTrip(s);
  }

  /** The handshake of a well-behaved peer succeeds, with its keyframe and at the start of its feed. */
  lemma LinkGreets(l: Link, wantInput: bool)
    requires GoodLink(l, wantInput)
    ensures Greet(LinkBytes(l, wantInput), wantInput) == Subscribed(l.snapshot, LinkFeed(l))
  {
    var atKeyframe := EncodeFrame(Keyframe(l.snapshot)) + LinkFeed(l);
    ReadEncodedFrame(l.hello, EncodeFrames(l.skipped) + atKeyframe);
    SkipsFrames(l.skipped, atKeyframe);
    FindsKeyframe(l.snapshot, LinkFeed(l));
  }

  /** Fewer failures than tries, of whatever kind, do not keep a resync from the connection behind them. */
  lemma {:induction false} FailuresAreRetried(failures: seq<Attempt>, a: Attempt, later: seq<Attempt>, wantInput: bool,
                                              tries: nat)
    requires |failures| < tries && Succeeds(a, wantInput)
    requires forall i :: 0 <= i < |failures| ==> Fails(failures[i], wantInput)
    ensures var greeting := Greet(a.answer.value, wantInput);
            Resync(failures + [a] + later, wantInput, tries) == Restored(greeting.snapshot, greeting.rest, later)
    decreases tries
  {
    var attempts := failures + [a] + later;
    if failures == [] {
      assert attempts[0] == a && attempts[1..] == later;
    } else {
      FailuresAreRetried(failures[1..], a, later, wantInput, tries - 1);
      assert attempts[0] == failures[0] && attempts[1..] == failures[1..] + [a] + later;
    }
  }

  lemma LinkRestores(l: Link, later: seq<Attempt>, wantInput: bool)
    requires GoodLink(l, wantInput)
    ensures EventsAfterLoss(l.failures + [Answered(LinkBytes(l, wantInput))] + later, wantInput) ==
            Repaint(l.snapshot) + FeedEvents(LinkFeed(l), later, wantInput)
  {
    LinkGreets(l, wantInput);
    FailuresAreRetried(l.failures, Answered(LinkBytes(l, wantInput)), later, wantInput, RECONNECT_ATTEMPTS);
  }

  lemma {:induction false} LinksFlatten(links: seq<Link>, wantInput: bool)
    requires forall i :: 0 <= i < |links| ==> GoodLink(links[i], wantInput)
    ensures EventsAfterLoss(LinkAttempts(links, wantInput), wantInput) == FlattenLinks(links)
  {
    if links != [] {
      var l, later := links[0], LinkAttempts(links[1..], wantInput);
      calc {
        EventsAfterLoss(LinkAttempts(links, wantInput), wantInput);
        { LinkRestores(l, later, wantInput); }
        Repaint(l.snapshot) + FeedEvents(LinkFeed(l), later, wantInput);
        { FramesFlatten(l.frames, l.tail, later, wantInput); }
        Repaint(l.snapshot) + (FlattenFrames(l.frames) + EventsAfterLoss(later, wantInput));
        { LinksFlatten(links[1..], wantInput); }
        Repaint(l.snapshot) + (FlattenFrames(l.frames) + FlattenLinks(links[1..]));
        Repaint(l.snapshot) + FlattenFrames(l.frames) + FlattenLinks(links[1..]);
      }
    }
  }

  /** Frames to events across reconnects: for every first connection and every list of later ones, each preceded by
      fewer than RECONNECT_ATTEMPTS failures and breaking off at any byte, the feed's events are the flattening of the
      whole frames. */
  lemma FeedFlattens(fs: seq<Frame>, tail: Bytes, links: seq<Link>, wantInput: bool)
    requires AllSendable(fs) && BrokenOff(tail) && forall i :: 0 <= i < |links| ==> GoodLink(links[i], wantInput)
    ensures FeedEvents(EncodeFrames(fs) + tail, LinkAttempts(links, wantInput), wantInput) ==
            FlattenFrames(fs) + FlattenLinks(links)
  {
    FramesFlatten(fs, tail, LinkAttempts(links, wantInput), wantInput);
    LinksFlatten(links, wantInput);
  }

  /** The output bytes of an event list, and those a frame list carries, both in order. */
  function OutputBytes(events: seq<Event>): Bytes {
    if events == [] then [] else (if events[0].Output? then events[0].bytes else []) + OutputBytes(events[1..])
  }

  /** The bytes a frame puts on the screen. */
  function FrameBytes(f: Frame): Bytes {
    if f.kind == FRAME_OUTPUT then f.payload
    else if f.kind == FRAME_KEYFRAME && DecodeSnapshot(f.payload).Some?
        then SnapshotToAnsi(DecodeSnapshot(f.payload).value)
    else []
  }

  function WireBytes(fs: seq<Frame>): Bytes {
    if fs == [] || fs[0].kind == FRAME_END then [] else FrameBytes(fs[0]) + WireBytes(fs[1..])
  }

  lemma {:induction false} OutputBytesAppend(a: seq<Event>, b: seq<Event>)
    ensures OutputBytes(a + b) == OutputBytes(a) + OutputBytes(b)
  {
    if a == [] {
      assert a + b == b;
    } else {
      OutputBytesAppend(a[1..], b);
      assert (a + b)[1..] == a[1..] + b;
    }
  }

  lemma OutputOfOne(e: Event)
    ensures OutputBytes([e]) == if e.Output? then e.bytes else []
  {
    assert [e][1..] == [];
  }

  lemma OutputOfTwo(a: Event, b: Event)
    ensures OutputBytes([a, b]) == OutputBytes([a]) + OutputBytes([b])
  {
    OutputBytesAppend([a], [b]);
    assert [a] + [b] == [a, b];
  }

  lemma OutputOfEvents(events: seq<Event>)
    requires |events| <= 2
    ensures |events| == 1 ==> OutputBytes(events) == if events[0].Output? then events[0].bytes else []
    ensures |events| == 2 && events[0].Resize? && events[1].Output? ==> OutputBytes(events) == events[1].bytes
  {
    if |events| == 1 {
      OutputOfOne(events[0]);
      assert events == [events[0]];
    } else if |events| == 2 {
      OutputOfTwo(events[0], events[1]);
      OutputOfOne(events[0]);
      OutputOfOne(events[1]);
      assert events == [events[0], events[1]];
    }
  }

  lemma OutputOfFrame(f: Frame)
    ensures OutputBytes(FrameEvents(f)) == FrameBytes(f)
  {
    OutputOfEvents(FrameEvents(f));
  }

  /** No output byte is lost, repeated or reordered, whatever resizes and unknown frames stand between. */
  lemma {:induction false} OutputStaysInWireOrder(fs: seq<Frame>)
    ensures OutputBytes(FlattenFrames(fs)) == WireBytes(fs)
  {
    if fs != [] && fs[0].kind != FRAME_END {
      OutputStaysInWireOrder(fs[1..]);
      OutputBytesAppend(FrameEvents(fs[0]), FlattenFrames(fs[1..]));
      OutputOfFrame(fs[0]);
    }
  }

  // --- what the proxy means ----------------------------------------------------------------------------------------

  /** What a proxy has to say, apart from frames: text, a new geometry, or what the whole screen looks like. */
  datatype Saying = Said(text: Bytes) | Sized(rows: nat, cols: nat) | Shown(screen: Snapshot)

  predicate Sayable(m: Saying) {
    match m
    case Said(text) => |text| <= 1024 * 1024
    case Sized(rows, cols) => rows < 0x1_0000 && cols < 0x1_0000
    case Shown(screen) => Encodable(screen) && |EncodeSnapshot(screen)| <= 1024 * 1024
  }

  /** The frame that says it. */
  function FrameOf(m: Saying): (f: Frame)
    requires Sayable(m)
    ensures Sendable(f)
  {
    match m
    case Said(text) => Frame(0x83, text)
    case Sized(rows, cols) => Frame(0x84, [rows / 256, rows % 256, cols / 256, cols % 256])
    case Shown(screen) => Frame(0x82, EncodeSnapshot(screen))
  }

  predicate AllSayable(ms: seq<Saying>) {
    forall i :: 0 <= i < |ms| ==> Sayable(ms[i])
  }

  function FramesOf(ms: seq<Saying>): (fs: seq<Frame>)
    requires AllSayable(ms)
    ensures AllSendable(fs)
  {
    if ms == [] then [] else [FrameOf(ms[0])] + FramesOf(ms[1..])
  }

  /** What reaches the session of it: its text, its size with columns first and never below one column and two rows, or
      the size of its screen and then the repaint. */
  function Arrives(m: Saying): seq<Event> {
    match m
    case Said(text) => if text == [] then [] else [Output(text)]
    case Sized(rows, cols) =>
      [Resize(Size(if cols < 1 then 1 else cols, if rows < 2 then 2 else rows))]
    case Shown(screen) =>
      [Resize(Size(if screen.cols < 1 then 1 else screen.cols, if screen.rows < 2 then 2 else screen.rows)),
       Output(SnapshotToAnsi(screen))]
  }

  lemma SayingArrives(m: Saying)
    requires Sayable(m)
    ensures FrameOf(m).kind != FRAME_END && FrameEvents(FrameOf(m)) == Arrives(m)
  {
    match m
    case Said(text) =>
    case Sized(rows, cols) =>
      ResizeRoundTrip(rows, cols);
      TwoBytes(rows);
      TwoBytes(cols);
      assert ResizePayload(rows, cols) == [rows / 256, rows % 256, cols / 256, cols % 256];
    case Shown(screen) =>
      SnapshotRoundTrip(screen);
  }

  /** No other frame says anything, and the one that ends a connection hides what stands behind it. */
  lemma OtherFramesAreSilent(f: Frame, later: seq<Frame>)
    ensures f.kind != 0x82 && f.kind != 0x83 && f.kind != 0x84 ==> FrameEvents(f) == []
    ensures f.kind == 0x85 ==> FlattenFrames([f] + later) == []
  {
  }

  function Arrivals(ms: seq<Saying>): seq<Event> {
    if ms == [] then [] else Arrives(ms[0]) + Arrivals(ms[1..])
  }

  /** A whole connection: saying by saying, and then what follows its loss. */
  lemma {:induction false} SayingsArrive(ms: seq<Saying>, tail: Bytes, attempts: seq<Attempt>, wantInput: bool)
    requires AllSayable(ms) && BrokenOff(tail)
    ensures FeedEvents(EncodeFrames(FramesOf(ms)) + tail, attempts, wantInput) ==
            Arrivals(ms) + EventsAfterLoss(attempts, wantInput)
  {
    FramesFlatten(FramesOf(ms), tail, attempts, wantInput);
    SayingsFlatten(ms);
  }

  lemma {:induction false} SayingsFlatten(ms: seq<Saying>)
    requires AllSayable(ms)
    ensures FlattenFrames(FramesOf(ms)) == Arrivals(ms)
  {
    if ms != [] {
      SayingArrives(ms[0]);
      SayingsFlatten(ms[1..]);
      assert FramesOf(ms)[0] == FrameOf(ms[0]) && FramesOf(ms)[1..] == FramesOf(ms[1..]);
    }
  }

  // --- exactly when a feed is restored -----------------------------------------------------------------------------

  /** A lost feed is restored exactly when, within five attempts, one connects, gets through the handshake and keeps its
      handles while nobody stops the tap, and all before it failed without a stop. */
  lemma {:induction false} RestoredIff(attempts: seq<Attempt>, wantInput: bool, tries: nat)
    ensures Resync(attempts, wantInput, tries).Restored? <==>
            exists k :: 0 <= k < |attempts| && k < tries && RestoresAt(attempts, wantInput, k)
    decreases tries
  {
    if tries > 0 && attempts != [] {
      RestoredIff(attempts[1..], wantInput, tries - 1);
      if Fails(attempts[0], wantInput) {
        forall k | 0 < k < |attempts|
          ensures RestoresAt(attempts, wantInput, k) <==> RestoresAt(attempts[1..], wantInput, k - 1)
        {
          RestoresLater(attempts, wantInput, k);
        }
        if Resync(attempts, wantInput, tries).Restored? {
          var k :| 0 <= k < |attempts[1..]| && k < tries - 1 && RestoresAt(attempts[1..], wantInput, k);
          assert RestoresAt(attempts, wantInput, k + 1);
        }
        if exists k :: 0 <= k < |attempts| && k < tries && RestoresAt(attempts, wantInput, k) {
          var k :| 0 <= k < |attempts| && k < tries && RestoresAt(attempts, wantInput, k);
          assert k > 0 && RestoresAt(attempts[1..], wantInput, k - 1);
        }
      } else if Succeeds(attempts[0], wantInput) {
        assert RestoresAt(attempts, wantInput, 0);
      }
    }
  }

  /** The attempt at `k` is not stopped before or after, connects, is greeted and clones; those before it were not
      stopped either, and each lacked a connection, a greeting or a clone. */
  predicate RestoresAt(attempts: seq<Attempt>, wantInput: bool, k: nat)
    requires k < |attempts|
  {
    && (forall j :: 0 <= j < k ==>
          && !attempts[j].stopped
          && (attempts[j].answer.Some? && attempts[j].cloned ==>
                !Greet(attempts[j].answer.value, wantInput).Subscribed?))
    && !attempts[k].stopped && !attempts[k].stoppedSince && attempts[k].cloned
    && attempts[k].answer.Some? && Greet(attempts[k].answer.value, wantInput).Subscribed?
  }

  lemma RestoresLater(attempts: seq<Attempt>, wantInput: bool, k: nat)
    requires 0 < k < |attempts| && Fails(attempts[0], wantInput)
    ensures RestoresAt(attempts, wantInput, k) <==> RestoresAt(attempts[1..], wantInput, k - 1)
  {
    var rest := attempts[1..];
    assert forall j :: 0 <= j < |rest| ==> rest[j] == attempts[j + 1];
    if RestoresAt(rest, wantInput, k - 1) {
      forall j | 0 <= j < k
        ensures !attempts[j].stopped
        ensures attempts[j].answer.Some? && attempts[j].cloned ==>
                  !Greet(attempts[j].answer.value, wantInput).Subscribed?
      {
        assert j > 0 ==> rest[j - 1] == attempts[j];
      }
    }
  }

  /** A proxy that does not grant the input that is wanted is not subscribed to. */
  lemma DeniedInputFails(version: byte, later: Bytes)
    ensures Greet([0x81, 0, 0, 0, 2, version, 0] + later, true) == InputDenied
  {
    var hello := Frame(0x81, [version, 0]);
    FrameBytesAre(hello);
    assert EncodeFrame(hello) == [0x81, 0, 0, 0, 2, version, 0];
    ReadEncodedFrame(hello, later);
  }
}
