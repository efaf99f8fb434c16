/**
 The race between the proxy tap's `stop` closure and its reader's `resync`, as interleaved atomic steps.

 Three actors share one mutex-guarded stream and one flag. The reader consumes its own handle and, when the
 feed dies, reconnects and swaps a fresh connection in; `stop` sets the flag and then shuts the shared stream
 down; the peer delivers frames and may close. Every lock acquisition, flag access, connect, shutdown and read of one
 frame is one step; so the handshake, which reads frames until it finds a keyframe, is as many steps as it reads.
 */
module TapRace {
  import opened TapLimits

  /** One socket. A handle is a clone of the socket, so shutting one handle down shuts the socket down;
      frames that were already received can still be read afterwards. */
  datatype Conn = Conn(shut: bool, peerClosed: bool, buffered: nat)

  /** Where the reader stands: in `read_event`, or at one of the points of `resync`. */
  datatype Pc =
    | Reading
    | Check(attempt: nat)
    | Connecting(attempt: nat)
    | Handshaking(attempt: nat, conn: nat)
    | Ready(conn: nat)
    | Recheck(conn: nat)
    | Closing(conn: nat)
    | Adopting(conn: nat)
    | Finished
    | Dropped

  datatype State = State(
    conns: seq<Conn>,     // every connection ever made
    shared: nat,          // TapShared.stream
    stopped: bool,        // TapShared.stopped
    reader: nat,          // TapReader.stream
    pc: Pc,
    stopping: bool,       // a `stop` call stands between its two statements
    stopsDone: nat)       // completed `stop` calls

  datatype Actor = Reader | Stop | Peer

  ghost predicate Init(s: State) {
    && |s.conns| == 1 && !s.conns[0].shut
    && s.shared == 0 && s.reader == 0 && s.pc == Reading
    && !s.stopped && !s.stopping && s.stopsDone == 0
  }

  ghost predicate Bounded(s: State) {
    && s.shared < |s.conns| && s.reader < |s.conns|
    && (s.pc.Handshaking? || s.pc.Ready? || s.pc.Recheck? || s.pc.Closing? || s.pc.Adopting? ==> s.pc.conn < |s.conns|)
  }

  function ShutDown(s: State, k: nat): State
    requires k < |s.conns|
  {
    s.(conns := s.conns[k := s.conns[k].(shut := true)])
  }

  // --- the reader ----------------------------------------------------------------------------------

  /** `read_frame`: a buffered frame, which may be an `End` frame or garbage and so also lead to a resync,
      or the end of the stream once nothing is buffered. */
  ghost predicate ReadStep(s: State, s': State)
    requires Bounded(s)
  {
    var c := s.conns[s.reader];
    && s.pc == Reading
    && (|| (c.buffered > 0
            && (s'.pc == Reading || s'.pc == Check(0))
            && s' == s.(conns := s.conns[s.reader := c.(buffered := c.buffered - 1)], pc := s'.pc))
        || (c.buffered == 0 && (c.shut || c.peerClosed) && s' == s.(pc := Check(0))))
  }

  /** One point of `resync`. */
  ghost predicate ResyncStep(s: State, s': State)
    requires Bounded(s)
  {
    match s.pc
    case Check(a) =>
      s' == s.(pc := if s.stopped || a >= RECONNECT_ATTEMPTS then Finished else Connecting(a))
    case Connecting(a) =>
      || s' == s.(pc := Check(a + 1))
      || s' == s.(conns := s.conns + [Conn(false, false, 0)], pc := Handshaking(a, |s.conns|))
    case Handshaking(a, conn) =>
      var c := s.conns[conn];
      || s' == s.(pc := Check(a + 1))    // a failed write, the end of the stream or a read that timed out
      || (c.buffered > 0                 // a frame: one to skip, one that ends the attempt, or the keyframe
          && s'.pc in {Handshaking(a, conn), Check(a + 1), Ready(conn)}
          && s' == s.(conns := s.conns[conn := c.(buffered := c.buffered - 1)], pc := s'.pc))
    case Ready(conn) => s' == s.(shared := conn, pc := Recheck(conn))
    case Recheck(conn) => s' == s.(pc := if s.stopped then Closing(conn) else Adopting(conn))
    case Closing(conn) => s' == ShutDown(s, conn).(pc := Finished)
    case Adopting(conn) => s' == s.(reader := conn, pc := Reading)
    case Finished => s' == s.(pc := Dropped)
    case _ => false
  }

  ghost predicate ReaderStep(s: State, s': State)
    requires Bounded(s)
  {
    ReadStep(s, s') || ResyncStep(s, s')
  }

  // --- the `stop` closure and the peer ----------------------------------------------------------------

  ghost predicate StopStep(s: State, s': State)
    requires Bounded(s)
  {
    if s.stopping
    then s' == ShutDown(s, s.shared).(stopping := false, stopsDone := s.stopsDone + 1)
    else s' == s.(stopped := true, stopping := true)
  }

  ghost predicate PeerTouches(s: State, s': State, k: nat)
    requires k < |s.conns|
  {
    var c := s.conns[k];
    || (!c.shut && !c.peerClosed && s' == s.(conns := s.conns[k := c.(buffered := c.buffered + 1)]))
    || s' == s.(conns := s.conns[k := c.(peerClosed := true)])
  }

  ghost predicate PeerStep(s: State, s': State)
    requires Bounded(s)
  {
    exists k: nat :: k < |s.conns| && PeerTouches(s, s', k)
  }

  ghost predicate Next(s: State, who: Actor, s': State)
    requires Bounded(s)
  {
    match who
    case Reader => ReaderStep(s, s')
    case Stop => StopStep(s, s')
    case Peer => PeerStep(s, s')
  }

  /** A run: an initial state and one actor's step after another, in any interleaving. */
  ghost predicate Run(states: seq<State>, actors: seq<Actor>) {
    && |states| == |actors| + 1
    && Init(states[0])
    && (forall i :: 0 <= i < |actors| ==> Bounded(states[i]) && Next(states[i], actors[i], states[i + 1]))
  }

  // --- what every step keeps -----------------------------------------------------------------------------

  /** The shared stream is the reader's until the swap and the fresh one after it; a completed `stop` has shut
      the shared stream, except between a swap it did not see and the re-check that follows the swap. */
  ghost predicate Inv(s: State) {
    && Bounded(s)
    && (s.pc.Reading? || s.pc.Check? || s.pc.Connecting? || s.pc.Handshaking? || s.pc.Ready? ==> s.shared == s.reader)
    && (s.pc.Recheck? || s.pc.Closing? || s.pc.Adopting? ==> s.shared == s.pc.conn)
    && (s.stopping || s.stopsDone > 0 ==> s.stopped)
    && (s.pc.Closing? ==> s.stopped)
    && (s.stopsDone > 0 && !s.pc.Recheck? && !s.pc.Closing? ==> s.conns[s.shared].shut)
  }

  lemma InvStep(s: State, who: Actor, s': State)
    requires Inv(s) && Next(s, who, s')
    ensures Inv(s')
  {
  }

  lemma {:induction false} RunKeepsInv(states: seq<State>, actors: seq<Actor>, i: nat)
    requires Run(states, actors) && i < |states|
    ensures Inv(states[i])
  {
    if i > 0 {
      RunKeepsInv(states, actors, i - 1);
      InvStep(states[i - 1], actors[i - 1], states[i]);
    }
  }

  // --- no subscription outlives the detach -----------------------------------------------------------------

  /** Whether some part of the program still holds a handle of connection `k`. */
  predicate Held(s: State, k: nat) {
    || k == s.shared
    || (k == s.reader && !s.pc.Dropped?)
    || ((s.pc.Handshaking? || s.pc.Ready? || s.pc.Recheck? || s.pc.Closing? || s.pc.Adopting?) && k == s.pc.conn)
  }

  /** A live subscription: a connection that is held and was not shut down by us. */
  predicate Live(s: State, k: nat) {
    k < |s.conns| && Held(s, k) && !s.conns[k].shut
  }

  predicate InResync(s: State) {
    !s.pc.Reading? && !s.pc.Finished? && !s.pc.Dropped?
  }

  /** Once a `stop` has completed and no resync is in progress, the reader has finished or reads a stream that
      is shut down; the only connection that can still be live is the old handle of a finished reader, and
      none is once that reader is dropped. */
  lemma StopDetaches(states: seq<State>, actors: seq<Actor>, i: nat)
    requires Run(states, actors) && i < |states|
    requires states[i].stopsDone > 0 && !InResync(states[i])
    ensures var s := states[i];
            && s.reader < |s.conns|
            && (s.pc.Finished? || s.pc.Dropped? || s.conns[s.reader].shut)
            && (forall k: nat :: Live(s, k) ==> s.pc.Finished? && k == s.reader)
  {
    RunKeepsInv(states, actors, i);
  }

  // --- and the reader does come to an end ---------------------------------------------------------------------

  /** How many more steps the reader can take once a `stop` has completed, if nobody feeds its handshake. */
  function Rank(s: State): nat
    requires s.reader < |s.conns| && (s.pc.Adopting? || s.pc.Handshaking? ==> s.pc.conn < |s.conns|)
  {
    match s.pc
    case Dropped => 0
    case Finished => 1
    case Closing(_) => 2
    case Check(_) => 2
    case Recheck(_) => 3
    case Ready(_) => 4
    case Handshaking(_, conn) => 5 + s.conns[conn].buffered
    case Connecting(_) => 6
    case Reading => 3 + s.conns[s.reader].buffered
    case Adopting(conn) => 4 + s.conns[conn].buffered
  }

  function ReaderSteps(actors: seq<Actor>): nat {
    if actors == [] then 0 else (if actors[0] == Reader then 1 else 0) + ReaderSteps(actors[1..])
  }

  /** The peer sends a frame on the connection the reader is shaking hands on. */
  predicate Feeds(s: State, who: Actor, s': State) {
    && who == Peer && s.pc.Handshaking? && s.pc.conn < |s.conns| && s.pc.conn < |s'.conns|
    && s'.conns[s.pc.conn].buffered > s.conns[s.pc.conn].buffered
  }

  /** How many frames the peer feeds to a handshake from step `i` on. */
  function Fed(states: seq<State>, actors: seq<Actor>, i: nat): nat
    requires |states| == |actors| + 1 && i <= |actors|
    decreases |actors| - i
  {
    if i == |actors| then 0
    else (if Feeds(states[i], actors[i], states[i + 1]) then 1 else 0) + Fed(states, actors, i + 1)
  }

  lemma RankStep(s: State, who: Actor, s': State)
    requires Inv(s) && s.stopsDone > 0 && Next(s, who, s')
    ensures Inv(s') && s'.stopsDone > 0
    ensures Rank(s') + (if who == Reader then 1 else 0) <= Rank(s) + (if Feeds(s, who, s') then 1 else 0)
  {
    InvStep(s, who, s');
  }

  /** After a completed `stop` the reader takes at most as many further steps as it has buffered frames plus six, and
      one more for every frame the peer still feeds to a handshake in progress, however the steps interleave. */
  lemma {:induction false} StopBoundsTheReader(states: seq<State>, actors: seq<Actor>, i: nat)
    requires Run(states, actors) && i < |states| && states[i].stopsDone > 0
    ensures Inv(states[i]) && ReaderSteps(actors[i..]) <= Rank(states[i]) + Fed(states, actors, i)
    ensures var s := states[i];
            Rank(s) <= 6 + s.conns[if s.pc.Adopting? || s.pc.Handshaking? then s.pc.conn else s.reader].buffered
    decreases |states| - i
  {
    RunKeepsInv(states, actors, i);
    if i < |actors| {
      RankStep(states[i], actors[i], states[i + 1]);
      StopBoundsTheReader(states, actors, i + 1);
      assert actors[i..][1..] == actors[i + 1..];
    }
  }

  /** The reader is never blocked after a completed `stop`: unless it is gone it has a step to take. */
  lemma StoppedReaderCanMove(states: seq<State>, actors: seq<Actor>, i: nat)
    requires Run(states, actors) && i < |states|
    requires states[i].stopsDone > 0 && !states[i].pc.Dropped?
    ensures Bounded(states[i]) && exists s' :: ReaderStep(states[i], s')
  {
    RunKeepsInv(states, actors, i);
    var s := states[i];
    var s' := match s.pc
      case Reading =>
        var c := s.conns[s.reader];
        if c.buffered > 0 then s.(conns := s.conns[s.reader := c.(buffered := c.buffered - 1)]) else s.(pc := Check(0))
      case Check(a) => s.(pc := Finished)
      case Connecting(a) => s.(pc := Check(a + 1))
      case Handshaking(a, _) => s.(pc := Check(a + 1))
      case Ready(conn) => s.(shared := conn, pc := Recheck(conn))
      case Recheck(conn) => s.(pc := Closing(conn))
      case Closing(conn) => ShutDown(s, conn).(pc := Finished)
      case Adopting(conn) => s.(reader := conn, pc := Reading)
      case _ => s.(pc := Dropped);
    assert ReaderStep(s, s');
  }

  // --- unless the peer keeps its handshake going -------------------------------------------------------------------

  lemma Extend(states: seq<State>, actors: seq<Actor>, who: Actor, s': State)
    requires Run(states, actors) && Bounded(states[|actors|]) && Next(states[|actors|], who, s')
    ensures Run(states + [s'], actors + [who])
  {
  }

  lemma {:induction false} ReaderStepsAppend(a: seq<Actor>, b: seq<Actor>)
    ensures ReaderSteps(a + b) == ReaderSteps(a) + ReaderSteps(b)
  {
    if a == [] {
      assert a + b == b;
    } else {
      ReaderStepsAppend(a[1..], b);
      assert (a + b)[1..] == a[1..] + b;
    }
  }

  /** Stopped, in the middle of a handshake on a connection that is still open. */
  predicate StoppedInHandshake(s: State) {
    && s.shared == 0 && s.reader == 0 && s.stopped && !s.stopping && s.stopsDone == 1
    && s.pc == Handshaking(0, 1) && |s.conns| == 2 && s.conns[1] == Conn(false, false, 0)
  }

  /** The feed dies, the reader reconnects, and `stop` completes before the keyframe comes. */
  lemma StopDuringHandshake() returns (states: seq<State>, actors: seq<Actor>)
    ensures Run(states, actors) && StoppedInHandshake(states[|actors|])
  {
    var s0 := State([Conn(false, false, 0)], 0, false, 0, Reading, false, 0);
    var s1 := s0.(conns := [Conn(false, true, 0)]);
    states, actors := [s0], [];
    assert PeerTouches(s0, s1, 0);
    Extend(states, actors, Peer, s1);
    states, actors := states + [s1], actors + [Peer];
    var s2 := s1.(pc := Check(0));
    Extend(states, actors, Reader, s2);
    states, actors := states + [s2], actors + [Reader];
    states, actors := StopAfterConnect(states, actors);
  }

  lemma StopAfterConnect(states: seq<State>, actors: seq<Actor>) returns (states': seq<State>, actors': seq<Actor>)
    requires Run(states, actors)
    requires states[|actors|] == State([Conn(false, true, 0)], 0, false, 0, Check(0), false, 0)
    ensures Run(states', actors') && StoppedInHandshake(states'[|actors'|])
  {
    var s := states[|actors|];
    var s1 := s.(pc := Connecting(0));
    Extend(states, actors, Reader, s1);
    states', actors' := states + [s1], actors + [Reader];
    var s2 := s1.(conns := s1.conns + [Conn(false, false, 0)], pc := Handshaking(0, 1));
    Extend(states', actors', Reader, s2);
    states', actors' := states' + [s2], actors' + [Reader];
    var s3 := s2.(stopped := true, stopping := true);
    Extend(states', actors', Stop, s3);
    states', actors' := states' + [s3], actors' + [Stop];
    var s4 := ShutDown(s3, 0).(stopping := false, stopsDone := 1);
    Extend(states', actors', Stop, s4);
    states', actors' := states' + [s4], actors' + [Stop];
  }

  /** A frame that the handshake skips, fed and read. */
  lemma FeedOnce(states: seq<State>, actors: seq<Actor>) returns (states': seq<State>, actors': seq<Actor>)
    requires Run(states, actors) && StoppedInHandshake(states[|actors|])
    ensures Run(states', actors') && states <= states' && actors' == actors + [Peer, Reader]
    ensures StoppedInHandshake(states'[|actors'|])
  {
    var s := states[|actors|];
    var s1 := s.(conns := s.conns[1 := Conn(false, false, 1)]);
    assert PeerTouches(s, s1, 1);
    Extend(states, actors, Peer, s1);
    states', actors' := states + [s1], actors + [Peer];
    Extend(states', actors', Reader, s);
    states', actors' := states' + [s], actors' + [Reader];
  }

  lemma {:induction false} FeedMore(states: seq<State>, actors: seq<Actor>, n: nat)
    returns (states': seq<State>, actors': seq<Actor>)
    requires Run(states, actors) && StoppedInHandshake(states[|actors|])
    ensures Run(states', actors') && states <= states' && actors <= actors'
    ensures ReaderSteps(actors'[|actors|..]) == n
    ensures StoppedInHandshake(states'[|actors'|])
    decreases n
  {
    if n == 0 {
      states', actors' := states, actors;
      assert actors[|actors|..] == [];
    } else {
      var states1, actors1 := FeedMore(states, actors, n - 1);
      states', actors' := FeedOnce(states1, actors1);
      assert actors'[|actors|..] == actors1[|actors|..] + [Peer, Reader];
      ReaderStepsAppend(actors1[|actors|..], [Peer, Reader]);
      assert [Peer, Reader][1..] == [Reader] && [Reader][1..] == [];
      assert ReaderSteps([Reader]) == 1 && ReaderSteps([Peer, Reader]) == ReaderSteps([Reader]);
    }
  }

  /** No number of steps bounds the reader after a completed `stop` whatever the peer does: a peer that keeps sending
      frames the handshake skips keeps it in its resync for as long as it likes. */
  lemma FeedingPeerHoldsTheReader(n: nat) returns (states: seq<State>, actors: seq<Actor>, i: nat)
    ensures Run(states, actors) && i < |states| && states[i].stopsDone > 0
    ensures ReaderSteps(actors[i..]) >= n && InResync(states[|actors|])
  {
    states, actors := StopDuringHandshake();
    i := |actors|;
    states, actors := FeedMore(states, actors, n);
  }

  /** The re-check is what closes the race: a resync that swapped its connection in after the flag was set always
      ends the feed and leaves that connection shut, never adopts it. */
  lemma SwapAfterStopIsUndone(s: State, swapped: State, checked: State, closed: State)
    requires Inv(s) && s.stopped && s.pc.Ready?
    requires ReaderStep(s, swapped) && ReaderStep(swapped, checked) && Bounded(checked) && ReaderStep(checked, closed)
    ensures closed.pc == Finished && closed.reader == s.reader
    ensures closed.shared == s.pc.conn && closed.conns[s.pc.conn].shut
  {
  }
}
