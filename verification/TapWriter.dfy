/** Writing a viewer's input to the proxy, in frames the protocol allows. */
module TapWriter {
  import opened Basics
  import opened TapProtocol

  const FRAME_INPUT: byte := 0x02

  function InputFrame(data: Bytes): (f: Frame)
    requires |data| <= MAX_FRAME_LEN
    ensures Sendable(f)
  {
    Frame(FRAME_INPUT, data)
  }

  /** The input the other end takes from a connection: the payloads of its input frames, up to a frame cut short. */
  function ReceivedInput(wire: Bytes): Bytes
    decreases |wire|
  {
    match ReadFrame(wire)
    case Got(f, rest) => (if f.kind == FRAME_INPUT then f.payload else []) + ReceivedInput(rest)
    case _ => []
  }

  lemma ReceivedFrame(data: Bytes, rest: Bytes)
    requires |data| <= MAX_FRAME_LEN
    ensures ReceivedInput(EncodeFrame(InputFrame(data)) + rest) == data + ReceivedInput(rest)
  {
    ReadEncodedFrame(InputFrame(data), rest);
  }

  /** A frame cut short is not taken for a frame. */
  lemma CutFrame(f: Frame, n: nat)
    requires Sendable(f) && n < |EncodeFrame(f)|
    ensures ReceivedInput(EncodeFrame(f)[..n]) == []
  {
    CutFrameBreaksOff(f, n);
  }

  /** Everything on the wire so far is whole frames that carry `sent`. */
  ghost predicate Carries(wire: Bytes, sent: Bytes) {
    forall rest :: ReceivedInput(wire + rest) == sent + ReceivedInput(rest)
  }

  lemma CarriesNothing()
    ensures Carries([], [])
  {
    forall rest ensures ReceivedInput([] + rest) == [] + ReceivedInput(rest) {
      assert [] + rest == rest;
    }
  }

  lemma CarriesMore(wire: Bytes, sent: Bytes, data: Bytes)
    requires Carries(wire, sent) && |data| <= MAX_FRAME_LEN
    ensures Carries(wire + EncodeFrame(InputFrame(data)), sent + data)
  {
    var frame := EncodeFrame(InputFrame(data));
    forall rest ensures ReceivedInput(wire + frame + rest) == sent + data + ReceivedInput(rest) {
      Associative(wire, frame, rest);
      ReceivedFrame(data, rest);
      Associative(sent, data, ReceivedInput(rest));
    }
  }

  lemma CarriesCut(wire: Bytes, sent: Bytes, f: Frame, n: nat)
    requires Carries(wire, sent) && Sendable(f) && n < |EncodeFrame(f)|
    ensures ReceivedInput(wire + EncodeFrame(f)[..n]) == sent
  {
    CutFrame(f, n);
    assert ReceivedInput(wire + EncodeFrame(f)[..n]) == sent + ReceivedInput(EncodeFrame(f)[..n]);
  }

  lemma CarriesAll(wire: Bytes, sent: Bytes)
    requires Carries(wire, sent)
    ensures ReceivedInput(wire) == sent
  {
    assert ReceivedInput(wire + []) == sent + ReceivedInput([]);
    assert wire + [] == wire && ReceivedInput([]) == [];
  }

  /** The frames of a buffer: as few as the protocol allows, all full but the last. */
  function OnWire(buf: Bytes): (wire: Bytes) {
    if buf == [] then []
    else if |buf| <= MAX_FRAME_LEN then EncodeFrame(InputFrame(buf))
    else EncodeFrame(InputFrame(buf[..MAX_FRAME_LEN])) + OnWire(buf[MAX_FRAME_LEN..])
  }

  /** A connection takes all bytes, or so many and then breaks. */
  predicate Takes(room: Option<nat>, n: nat) {
    room.None? || n <= room.value
  }

  lemma OnWireNext(buf: Bytes, at: nat, stop: nat)
    requires at < |buf| && stop == (if at + MAX_FRAME_LEN < |buf| then at + MAX_FRAME_LEN else |buf|)
    ensures OnWire(buf[at..]) == EncodeFrame(InputFrame(buf[at..stop])) + OnWire(buf[stop..])
  {
    if stop < |buf| {
      assert buf[at..][..MAX_FRAME_LEN] == buf[at..stop] && buf[at..][MAX_FRAME_LEN..] == buf[stop..];
    } else {
      assert buf[at..stop] == buf[at..] && buf[stop..] == [];
    }
  }

  /** The first `at` bytes are on the wire, and the frames of the others would complete it. */
  ghost predicate Sent(buf: Bytes, at: nat, wire: Bytes) {
    at <= |buf| && Carries(wire, buf[..at]) && wire + OnWire(buf[at..]) == OnWire(buf)
  }

  lemma SentNothing(buf: Bytes)
    ensures Sent(buf, 0, [])
  {
    CarriesNothing();
    assert buf[0..] == buf && buf[..0] == [] && [] + OnWire(buf) == OnWire(buf);
  }

  lemma SentAll(buf: Bytes, wire: Bytes)
    requires Sent(buf, |buf|, wire)
    ensures wire == OnWire(buf) && ReceivedInput(wire) == buf
  {
    CarriesAll(wire, buf[..|buf|]);
    assert buf[|buf|..] == [] && wire + [] == wire && buf[..|buf|] == buf;
  }

  /** Cut off inside a frame. */
  lemma ChunkBreaks(buf: Bytes, at: nat, f: Frame, rest: Bytes, wire: Bytes, cut: nat)
    requires Sent(buf, at, wire) && Sendable(f) && OnWire(buf[at..]) == EncodeFrame(f) + rest
    requires cut < |EncodeFrame(f)|
    ensures |wire| + cut < |OnWire(buf)| && wire + EncodeFrame(f)[..cut] == OnWire(buf)[..|wire| + cut]
    ensures ReceivedInput(wire + EncodeFrame(f)[..cut]) == buf[..at]
  {
    CarriesCut(wire, buf[..at], f, cut);
    CutOf(wire, EncodeFrame(f), rest, cut);
  }

  lemma CutOf(wire: Bytes, frame: Bytes, rest: Bytes, cut: nat)
    requires cut <= |frame|
    ensures (wire + (frame + rest))[..|wire| + cut] == wire + frame[..cut]
  {
  }

  lemma ChunkArrives(buf: Bytes, at: nat, stop: nat, wire: Bytes)
    requires at < |buf| && stop == (if at + MAX_FRAME_LEN < |buf| then at + MAX_FRAME_LEN else |buf|)
    requires Sent(buf, at, wire)
    ensures Sent(buf, stop, wire + EncodeFrame(InputFrame(buf[at..stop])))
  {
    OnWireNext(buf, at, stop);
    Associative(wire, EncodeFrame(InputFrame(buf[at..stop])), OnWire(buf[stop..]));
    CarriesMore(wire, buf[..at], buf[at..stop]);
    assert buf[..at] + buf[at..stop] == buf[..stop];
  }

  /** One chunk, up to `stop`, onto a connection that may break at any byte. */
  method WriteChunk(buf: Bytes, at: nat, stop: nat, wire: Bytes, room: Option<nat>)
    returns (wire': Bytes, broke: bool)
    requires at < |buf| && stop == (if at + MAX_FRAME_LEN < |buf| then at + MAX_FRAME_LEN else |buf|)
    requires Sent(buf, at, wire) && Takes(room, |wire|)
    ensures !broke ==> Sent(buf, stop, wire') && Takes(room, |wire'|)
    ensures broke ==> !Takes(room, |OnWire(buf)|) && wire' == OnWire(buf)[..room.value]
    ensures broke ==> ReceivedInput(wire') == buf[..at]
  {
    var f := InputFrame(buf[at..stop]);
    var frame := EncodeFrame(f);
    if !Takes(room, |wire| + |frame|) {
      OnWireNext(buf, at, stop);
      ChunkBreaks(buf, at, f, OnWire(buf[stop..]), wire, room.value - |wire|);
      return wire + frame[..room.value - |wire|], true;
    }
    ChunkArrives(buf, at, stop, wire);
    return wire + frame, false;
  }

  /**
   Always reports the whole buffer as written. On the wire are the frames of the buffer, or as much of them as the
   connection takes before it breaks; what the other end receives is a prefix of the buffer, and all of it exactly
   when the connection takes all frames.
   */
  method Write(buf: Bytes, room: Option<nat>) returns (n: nat, wire: Bytes, broke: bool)
    ensures n == |buf|
    ensures broke <==> !Takes(room, |OnWire(buf)|)
    ensures wire == if broke then OnWire(buf)[..room.value] else OnWire(buf)
    ensures ReceivedInput(wire) <= buf
    ensures broke <==> ReceivedInput(wire) != buf
  {
    wire, broke, n := [], false, |buf|;
    var at: nat := 0;
    SentNothing(buf);
    while at < |buf|
      invariant !broke && Takes(room, |wire|) && Sent(buf, at, wire)
      decreases |buf| - at
    {
      var stop := if at + MAX_FRAME_LEN < |buf| then at + MAX_FRAME_LEN else |buf|;
      wire, broke := WriteChunk(buf, at, stop, wire, room);
      if broke {
        return;
      }
      at := stop;
    }
    SentAll(buf, wire);
  }
}
