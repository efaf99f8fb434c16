/** The bounded, latest-wins queue of outbound terminal frames: a class that follows a pure step, and what whole runs
    keep. */
module Backpressure {
  import opened Basics

  datatype Queue<F> = Queue(cap: nat, output: seq<F>, needs: bool, awaiting: bool) {
    predicate Bounded() {
      && |output| <= cap
      && (awaiting ==> output == [])
      && (needs ==> awaiting)
    }
  }

  datatype Op<F> = Push(frame: F) | Drain | KeyframeSent | ClearFlag

  function Empty<F>(cap: nat): (q: Queue<F>)
    ensures q.Bounded()
  {
    Queue(cap, [], false, false)
  }

  function Apply<F>(q: Queue<F>, op: Op<F>): (r: Queue<F>)
    ensures r.cap == q.cap
    ensures q.Bounded() ==> r.Bounded()
  {
    match op
    case Push(frame) =>
      if q.awaiting then q
      else if |q.output| + 1 > q.cap then q.(output := [], needs := true, awaiting := true)
      else q.(output := q.output + [frame])
    case Drain => q.(output := [])
    case KeyframeSent => q.(needs := false, awaiting := false)
    case ClearFlag => q.(needs := false)
  }

  class OutboundQueue<F> {
    const cap: nat
    var output: seq<F>
    var needsKeyframe: bool
    var awaitingKeyframe: bool

    function State(): Queue<F>
      reads this
    {
      Queue(cap, output, needsKeyframe, awaitingKeyframe)
    }

    ghost predicate Valid()
      reads this
    {
      State().Bounded()
    }

    constructor (cap: nat)
      ensures Valid() && State() == Empty(cap)
    {
      this.cap := cap;
      output, needsKeyframe, awaitingKeyframe := [], false, false;
    }

    method PushOutput(frame: F)
      requires Valid()
      modifies this
      ensures Valid() && State() == Apply(old(State()), Push(frame))
    {
      if awaitingKeyframe {
        return;
      }
      output := output + [frame];
      if |output| > cap {
        output := [];
        needsKeyframe := true;
        awaitingKeyframe := true;
      }
    }

    method OnKeyframeSent()
      requires Valid()
      modifies this
      ensures Valid() && State() == Apply(old(State()), KeyframeSent)
    {
      needsKeyframe := false;
      awaitingKeyframe := false;
    }

    method DrainOutput() returns (frames: seq<F>)
      requires Valid()
      modifies this
      ensures frames == old(output)
      ensures old(awaitingKeyframe) ==> frames == []
      ensures Valid() && State() == Apply(old(State()), Drain)
    {
      frames := output;
      output := [];
    }

    method ClearKeyframeFlag()
      requires Valid()
      modifies this
      ensures Valid() && State() == Apply(old(State()), ClearFlag)
    {
      needsKeyframe := false;
    }
  }

  // --- whole runs: every frame stands for the position of its push --------------------------------------------

  /** The queue after a run, and everything the drains handed out so far. */
  datatype World<F> = World(queue: Queue<F>, sent: seq<F>) {
    function Kept(): seq<F> { sent + queue.output }
  }

  function Step<F>(w: World<F>, op: Op<F>): World<F> {
    World(Apply(w.queue, op), if op.Drain? then w.sent + w.queue.output else w.sent)
  }

  function Run<F>(cap: nat, ops: seq<Op<F>>): (w: World<F>)
    ensures w.queue.cap == cap && w.queue.Bounded()
  {
    if ops == [] then World(Empty(cap), []) else Step(Run(cap, ops[..|ops| - 1]), ops[|ops| - 1])
  }

  /** The same operation with the frame replaced by its position. */
  function Positional<F>(op: Op<F>, at: nat): Op<nat> {
    match op
    case Push(_) => Push(at)
    case Drain => Drain
    case KeyframeSent => KeyframeSent
    case ClearFlag => ClearFlag
  }

  /** All of them are positions of pushes. */
  predicate Pushed<F>(ops: seq<Op<F>>, ids: seq<nat>) {
    forall k :: 0 <= k < |ids| ==> ids[k] < |ops| && ops[ids[k]].Push?
  }

  /** The run seen through positions. */
  function Track<F>(cap: nat, ops: seq<Op<F>>): (w: World<nat>)
    ensures w.queue.cap == cap && w.queue.Bounded()
    ensures Pushed(ops, w.sent) && Pushed(ops, w.queue.output)
  {
    if ops == [] then World(Empty(cap), [])
    else
      var w := Track(cap, ops[..|ops| - 1]);
      Step(w, Positional(ops[|ops| - 1], |ops| - 1))
  }

  /** These are the frames pushed at those positions. */
  predicate FramesAt<F(==)>(ops: seq<Op<F>>, ids: seq<nat>, frames: seq<F>) {
    && |frames| == |ids| && Pushed(ops, ids)
    && forall k :: 0 <= k < |ids| ==> frames[k] == ops[ids[k]].frame
  }

  lemma FramesLater<F>(ops: seq<Op<F>>, op: Op<F>, ids: seq<nat>, frames: seq<F>)
    requires FramesAt(ops, ids, frames)
    ensures FramesAt(ops + [op], ids, frames)
  {
  }

  lemma FramesJoin<F>(ops: seq<Op<F>>, a: seq<nat>, x: seq<F>, b: seq<nat>, y: seq<F>)
    requires FramesAt(ops, a, x) && FramesAt(ops, b, y)
    ensures FramesAt(ops, a + b, x + y)
  {
  }

  /** The positions tell the frames: what the queue holds and what it handed out are the frames pushed at those
      positions. */
  lemma {:induction false} TrackFollowsRun<F>(cap: nat, ops: seq<Op<F>>)
    ensures FramesAt(ops, Track(cap, ops).sent, Run(cap, ops).sent)
    ensures FramesAt(ops, Track(cap, ops).queue.output, Run(cap, ops).queue.output)
    ensures Run(cap, ops).queue.needs == Track(cap, ops).queue.needs
    ensures Run(cap, ops).queue.awaiting == Track(cap, ops).queue.awaiting
  {
    if ops != [] {
      var before, op := ops[..|ops| - 1], ops[|ops| - 1];
      assert ops == before + [op];
      TrackFollowsRun(cap, before);
      var w, r := Track(cap, before), Run(cap, before);
      FramesLater(before, op, w.sent, r.sent);
      FramesLater(before, op, w.queue.output, r.queue.output);
      if op.Drain? {
        FramesJoin(ops, w.sent, r.sent, w.queue.output, r.queue.output);
      } else if op.Push? {
        assert FramesAt(ops, [|before|], [op.frame]);
        FramesJoin(ops, w.queue.output, r.queue.output, [|before|], [op.frame]);
      }
    }
  }

  /** A keyframe went out after the operation at `i` and before the one at `j`. */
  predicate KeyframeBetween<F>(ops: seq<Op<F>>, i: int, j: int) {
    exists k :: 0 <= k < |ops| && i < k < j && ops[k].KeyframeSent?
  }

  predicate Lost<F>(cap: nat, ops: seq<Op<F>>, i: nat) {
    i < |ops| && ops[i].Push? && i !in Track(cap, ops).Kept()
  }

  predicate Increasing(s: seq<nat>) {
    forall a, b :: 0 <= a < b < |s| ==> s[a] < s[b]
  }

  ghost predicate Explained<F>(cap: nat, ops: seq<Op<F>>) {
    var w := Track(cap, ops);
    && Increasing(w.Kept())
    && (forall i: nat, j: nat :: Lost(cap, ops, i) && j in w.Kept() && i < j ==> KeyframeBetween(ops, i, j))
    && (w.queue.awaiting || forall i: nat :: Lost(cap, ops, i) ==> KeyframeBetween(ops, i, |ops|))
  }

  lemma BetweenExtends<F>(ops: seq<Op<F>>, op: Op<F>, i: int, j: int)
    requires j <= |ops|
    ensures KeyframeBetween(ops, i, j) <==> KeyframeBetween(ops + [op], i, j)
  {
    if KeyframeBetween(ops, i, j) {
      var k :| 0 <= k < |ops| && i < k < j && ops[k].KeyframeSent?;
      assert (ops + [op])[k].KeyframeSent?;
    }
    if KeyframeBetween(ops + [op], i, j) {
      var k :| 0 <= k < |ops + [op]| && i < k < j && (ops + [op])[k].KeyframeSent?;
      assert ops[k].KeyframeSent?;
    }
  }

  lemma TrackSnoc<F>(cap: nat, ops: seq<Op<F>>, op: Op<F>)
    ensures Track(cap, ops + [op]) == Step(Track(cap, ops), Positional(op, |ops|))
  {
    assert (ops + [op])[..|ops|] == ops;
  }

  /** A frame can only be lost when it is pushed or while it is queued. */
  lemma NewlyLost<F>(cap: nat, ops: seq<Op<F>>, op: Op<F>, i: nat)
    requires Lost(cap, ops + [op], i)
    ensures Lost(cap, ops, i) || (op.Push? && (i == |ops| || i in Track(cap, ops).queue.output))
    ensures !Lost(cap, ops, i) ==> Track(cap, ops + [op]).queue.awaiting
  {
    TrackSnoc(cap, ops, op);
    var w, w' := Track(cap, ops), Track(cap, ops + [op]);
    assert i < |ops| ==> (ops + [op])[i] == ops[i];
    assert op.Drain? ==> w'.Kept() == w.Kept();
    assert op.Push? && !w'.queue.awaiting ==> w'.queue.output == w.queue.output + [|ops|];
  }

  lemma IncreasingStep<F>(cap: nat, ops: seq<Op<F>>, op: Op<F>)
    requires Increasing(Track(cap, ops).Kept())
    ensures Increasing(Track(cap, ops + [op]).Kept())
    ensures forall j :: j in Track(cap, ops + [op]).Kept() ==>
              j in Track(cap, ops).Kept() || (j == |ops| && op.Push? && !Track(cap, ops).queue.awaiting)
    ensures !Track(cap, ops).queue.awaiting && Track(cap, ops + [op]).queue.awaiting ==>
              Track(cap, ops + [op]).Kept() == Track(cap, ops).sent
  {
    TrackSnoc(cap, ops, op);
    var w, w' := Track(cap, ops), Track(cap, ops + [op]);
    if op.Push? && !w.queue.awaiting {
      if w'.queue.awaiting {
        assert w'.Kept() == w.Kept()[..|w.sent|];
      } else {
        assert w'.Kept() == w.Kept() + [|ops|];
        forall a, b | 0 <= a < b < |w'.Kept()| ensures w'.Kept()[a] < w'.Kept()[b] {
          assert w.Kept()[a] in w.Kept();
        }
      }
    } else {
      assert w'.Kept() == w.Kept();
    }
  }

  /** What a queue that was not waiting loses in one step lies behind everything it handed out. */
  lemma LossIsBehind<F>(cap: nat, ops: seq<Op<F>>, op: Op<F>, i: nat, j: nat)
    requires Increasing(Track(cap, ops).Kept())
    requires Lost(cap, ops + [op], i) && !Lost(cap, ops, i) && j in Track(cap, ops + [op]).Kept()
    ensures j < i
  {
    NewlyLost(cap, ops, op, i);
    TrackSnoc(cap, ops, op);
    IncreasingStep(cap, ops, op);
    var w, w' := Track(cap, ops), Track(cap, ops + [op]);
    assert j != i;
    if i < |ops| {
      assert w'.Kept() == w.sent;
      var a :| 0 <= a < |w.sent| && w.sent[a] == j;
      var b :| 0 <= b < |w.queue.output| && w.queue.output[b] == i;
      assert w.Kept()[a] == j && w.Kept()[|w.sent| + b] == i;
    }
  }

  lemma ExplainedPair<F>(cap: nat, ops: seq<Op<F>>, op: Op<F>, i: nat, j: nat)
    requires Explained(cap, ops)
    requires Lost(cap, ops + [op], i) && j in Track(cap, ops + [op]).Kept() && i < j
    ensures KeyframeBetween(ops + [op], i, j)
  {
    IncreasingStep(cap, ops, op);
    if !Lost(cap, ops, i) {
      LossIsBehind(cap, ops, op, i, j);
    }
    BetweenExtends(ops, op, i, j);
  }

  lemma ExplainedRest<F>(cap: nat, ops: seq<Op<F>>, op: Op<F>, i: nat)
    requires Explained(cap, ops)
    requires !Track(cap, ops + [op]).queue.awaiting && Lost(cap, ops + [op], i)
    ensures KeyframeBetween(ops + [op], i, |ops| + 1)
  {
    NewlyLost(cap, ops, op, i);
    TrackSnoc(cap, ops, op);
    if Track(cap, ops).queue.awaiting {
      assert (ops + [op])[|ops|].KeyframeSent?;
    } else {
      BetweenExtends(ops, op, i, |ops|);
      var k :| 0 <= k < |ops + [op]| && i < k < |ops| && (ops + [op])[k].KeyframeSent?;
    }
  }

  lemma {:induction false} EveryRunIsExplained<F>(cap: nat, ops: seq<Op<F>>)
    ensures Explained(cap, ops)
  {
    if ops != [] {
      var before, op := ops[..|ops| - 1], ops[|ops| - 1];
      assert ops == before + [op];
      EveryRunIsExplained(cap, before);
      IncreasingStep(cap, before, op);
      forall i: nat, j: nat | Lost(cap, ops, i) && j in Track(cap, ops).Kept() && i < j
          ensures KeyframeBetween(ops, i, j) {
        ExplainedPair(cap, before, op, i, j);
      }
      if !Track(cap, ops).queue.awaiting {
        forall i: nat | Lost(cap, ops, i) ensures KeyframeBetween(ops, i, |ops|) {
          ExplainedRest(cap, before, op, i);
        }
      }
    }
  }

  /**
   Every hole is covered: when a frame is lost and a frame pushed later is handed out, a keyframe was sent between the
   two pushes. Frames are handed out in push order, each at most once.
   */
  lemma HolesAreCovered<F>(cap: nat, ops: seq<Op<F>>, i: nat, j: nat)
    requires Lost(cap, ops, i) && j in Track(cap, ops).sent && i < j
    ensures KeyframeBetween(ops, i, j)
    ensures Increasing(Track(cap, ops).Kept())
  {
    EveryRunIsExplained(cap, ops);
    assert j in Track(cap, ops).Kept();
  }

  // --- when nothing is lost ------------------------------------------------------------------------------------------

  /** Pushes since the last drain. */
  function Burst<F>(ops: seq<Op<F>>): nat {
    if ops == [] then 0
    else
      var before := Burst(ops[..|ops| - 1]);
      match ops[|ops| - 1]
      case Push(_) => before + 1
      case Drain => 0
      case _ => before
  }

  ghost predicate Paced<F>(cap: nat, ops: seq<Op<F>>) {
    forall n :: 0 <= n <= |ops| ==> Burst(ops[..n]) <= cap
  }

  ghost predicate Lossless<F>(cap: nat, ops: seq<Op<F>>) {
    forall i :: 0 <= i < |ops| && ops[i].Push? ==> i in Track(cap, ops).Kept()
  }

  lemma LossStays<F>(cap: nat, ops: seq<Op<F>>, op: Op<F>, i: nat)
    requires Lost(cap, ops, i)
    ensures Lost(cap, ops + [op], i)
  {
    TrackSnoc(cap, ops, op);
    assert (ops + [op])[i] == ops[i];
  }

  lemma LossyPrefix<F>(cap: nat, ops: seq<Op<F>>, op: Op<F>)
    requires Lossless(cap, ops + [op])
    ensures Lossless(cap, ops)
  {
    forall i | 0 <= i < |ops| && ops[i].Push? ensures i in Track(cap, ops).Kept() {
      if Lost(cap, ops, i) {
        LossStays(cap, ops, op, i);
        assert false;
      }
    }
  }

  lemma PacedSnoc<F>(cap: nat, ops: seq<Op<F>>, op: Op<F>)
    ensures Paced(cap, ops + [op]) <==> Paced(cap, ops) && Burst(ops + [op]) <= cap
  {
    var all := ops + [op];
    assert forall n :: 0 <= n <= |ops| ==> all[..n] == ops[..n];
    assert all[..|all|] == all;
    if Paced(cap, ops) && Burst(all) <= cap {
      forall n | 0 <= n <= |all| ensures Burst(all[..n]) <= cap {
        assert n <= |ops| ==> all[..n] == ops[..n];
        assert n == |all| ==> all[..n] == all;
      }
    }
    if Paced(cap, all) {
      assert Burst(all[..|all|]) <= cap;
      forall n | 0 <= n <= |ops| ensures Burst(ops[..n]) <= cap {
        assert all[..n] == ops[..n];
        assert Burst(all[..n]) <= cap;
      }
    }
  }

  /** Nothing is lost exactly when no more than `cap` frames are ever pushed between two drains. */
  lemma {:induction false} LosslessIffPaced<F>(cap: nat, ops: seq<Op<F>>)
    ensures Lossless(cap, ops) <==> Paced(cap, ops)
    ensures Lossless(cap, ops) ==> !Track(cap, ops).queue.awaiting && |Track(cap, ops).queue.output| == Burst(ops)
  {
    if ops != [] {
      var before, op := ops[..|ops| - 1], ops[|ops| - 1];
      assert ops == before + [op];
      LosslessIffPaced(cap, before);
      PacedSnoc(cap, before, op);
      TrackSnoc(cap, before, op);
      if Lossless(cap, ops) {
        LossyPrefix(cap, before, op);
        LosslessStep(cap, before, op);
      } else if Lossless(cap, before) {
        var i: nat :| i < |ops| && ops[i].Push? && i !in Track(cap, ops).Kept();
        assert Lost(cap, ops, i);
        if Lost(cap, before, i) {
          assert false;
        }
        NewlyLost(cap, before, op, i);
      }
    }
  }

  lemma LosslessStep<F>(cap: nat, ops: seq<Op<F>>, op: Op<F>)
    requires Lossless(cap, ops) && Lossless(cap, ops + [op])
    requires !Track(cap, ops).queue.awaiting && |Track(cap, ops).queue.output| == Burst(ops) && Burst(ops) <= cap
    ensures Burst(ops + [op]) <= cap
    ensures !Track(cap, ops + [op]).queue.awaiting && |Track(cap, ops + [op]).queue.output| == Burst(ops + [op])
  {
    TrackSnoc(cap, ops, op);
    assert (ops + [op])[..|ops|] == ops && (ops + [op])[|ops|] == op;
    if op.Push? {
      assert |ops| in Track(cap, ops + [op]).Kept();
      assert |ops| !in Track(cap, ops).sent;
    }
  }

  // --- what exactly is lost, and recovery ----------------------------------------------------------------------------

  /** The push at `p` finds the queue full. */
  predicate Overflows<F>(cap: nat, ops: seq<Op<F>>, p: nat) {
    && p < |ops| && ops[p].Push?
    && !Track(cap, ops[..p]).queue.awaiting
    && |Track(cap, ops[..p]).queue.output| + 1 > cap
  }

  predicate DrainBetween<F>(ops: seq<Op<F>>, i: int, j: int) {
    exists k :: 0 <= k < |ops| && i < k < j && ops[k].Drain?
  }

  predicate Cleared<F>(ops: seq<Op<F>>, p: int) {
    exists k :: 0 <= k < |ops| && p < k && (ops[k].KeyframeSent? || ops[k].ClearFlag?)
  }

  lemma OverflowsLater<F>(cap: nat, ops: seq<Op<F>>, op: Op<F>, p: nat)
    requires p < |ops|
    ensures Overflows(cap, ops + [op], p) <==> Overflows(cap, ops, p)
  {
    assert (ops + [op])[..p] == ops[..p];
  }

  lemma OverflowsNow<F>(cap: nat, ops: seq<Op<F>>, op: Op<F>)
    ensures Overflows(cap, ops + [op], |ops|) <==>
            !Track(cap, ops).queue.awaiting && Track(cap, ops + [op]).queue.awaiting
  {
    assert (ops + [op])[..|ops|] == ops;
    TrackSnoc(cap, ops, op);
  }

  lemma ClearedLater<F>(ops: seq<Op<F>>, op: Op<F>, p: int)
    requires p < |ops|
    ensures Cleared(ops + [op], p) <==> Cleared(ops, p) || op.KeyframeSent? || op.ClearFlag?
  {
    var all := ops + [op];
    if Cleared(ops, p) {
      var k :| 0 <= k < |ops| && p < k && (ops[k].KeyframeSent? || ops[k].ClearFlag?);
      assert all[k] == ops[k];
    }
    assert all[|ops|] == op;
  }

  lemma KeyframeLater<F>(ops: seq<Op<F>>, op: Op<F>, p: int)
    requires p < |ops|
    ensures KeyframeBetween(ops + [op], p, |ops| + 1) <==> KeyframeBetween(ops, p, |ops|) || op.KeyframeSent?
  {
    var all := ops + [op];
    if KeyframeBetween(ops, p, |ops|) {
      var k :| 0 <= k < |ops| && p < k < |ops| && ops[k].KeyframeSent?;
      assert all[k] == ops[k];
    }
    assert all[|ops|] == op;
  }

  ghost predicate OverflowUncovered<F>(cap: nat, ops: seq<Op<F>>) {
    exists p: nat :: Overflows(cap, ops, p) && !KeyframeBetween(ops, p, |ops|)
  }

  ghost predicate OverflowUncleared<F>(cap: nat, ops: seq<Op<F>>) {
    exists p: nat :: Overflows(cap, ops, p) && !Cleared(ops, p)
  }

  lemma UncoveredLater<F>(cap: nat, ops: seq<Op<F>>, op: Op<F>)
    ensures OverflowUncovered(cap, ops + [op]) <==>
            Overflows(cap, ops + [op], |ops|) || (OverflowUncovered(cap, ops) && !op.KeyframeSent?)
  {
    var all := ops + [op];
    if OverflowUncovered(cap, all) {
      var p: nat :| Overflows(cap, all, p) && !KeyframeBetween(all, p, |all|);
      if p < |ops| {
        OverflowsLater(cap, ops, op, p);
        KeyframeLater(ops, op, p);
      }
    }
    if OverflowUncovered(cap, ops) && !op.KeyframeSent? {
      var p: nat :| Overflows(cap, ops, p) && !KeyframeBetween(ops, p, |ops|);
      OverflowsLater(cap, ops, op, p);
      KeyframeLater(ops, op, p);
    }
    assert !KeyframeBetween(all, |ops|, |all|);
  }

  lemma UnclearedLater<F>(cap: nat, ops: seq<Op<F>>, op: Op<F>)
    ensures OverflowUncleared(cap, ops + [op]) <==>
            Overflows(cap, ops + [op], |ops|) || (OverflowUncleared(cap, ops) && !op.KeyframeSent? && !op.ClearFlag?)
  {
    var all := ops + [op];
    if OverflowUncleared(cap, all) {
      var p: nat :| Overflows(cap, all, p) && !Cleared(all, p);
      if p < |ops| {
        OverflowsLater(cap, ops, op, p);
        ClearedLater(ops, op, p);
      }
    }
    if OverflowUncleared(cap, ops) && !op.KeyframeSent? && !op.ClearFlag? {
      var p: nat :| Overflows(cap, ops, p) && !Cleared(ops, p);
      OverflowsLater(cap, ops, op, p);
      ClearedLater(ops, op, p);
    }
    assert !Cleared(all, |ops|);
  }

  /** The queue waits exactly while the last overflow has no keyframe behind it, and asks for one exactly while it has
      neither a keyframe nor a cleared flag behind it. */
  lemma {:induction false} FlagsIff<F>(cap: nat, ops: seq<Op<F>>)
    ensures Track(cap, ops).queue.awaiting <==> OverflowUncovered(cap, ops)
    ensures Track(cap, ops).queue.needs <==> OverflowUncleared(cap, ops)
  {
    if ops != [] {
      var before, op := ops[..|ops| - 1], ops[|ops| - 1];
      assert ops == before + [op];
      FlagsIff(cap, before);
      TrackSnoc(cap, before, op);
      OverflowsNow(cap, before, op);
      UncoveredLater(cap, before, op);
      UnclearedLater(cap, before, op);
    }
  }

  /** The queue waits exactly when a frame was lost with no keyframe since. */
  lemma AwaitingIff<F>(cap: nat, ops: seq<Op<F>>)
    ensures Track(cap, ops).queue.awaiting <==>
            exists i: nat :: Lost(cap, ops, i) && !KeyframeBetween(ops, i, |ops|)
  {
    EveryRunIsExplained(cap, ops);
    if Track(cap, ops).queue.awaiting {
      FlagsIff(cap, ops);
      var p: nat :| Overflows(cap, ops, p) && !KeyframeBetween(ops, p, |ops|);
      OverflowLoses(cap, ops, p, p);
    }
  }

  lemma {:induction false} LossLasts<F>(cap: nat, ops: seq<Op<F>>, n: nat, i: nat)
    requires n <= |ops| && Lost(cap, ops[..n], i)
    ensures Lost(cap, ops, i)
  {
    if n == |ops| {
      assert ops[..n] == ops;
    } else {
      var before, op := ops[..|ops| - 1], ops[|ops| - 1];
      assert ops == before + [op] && before[..n] == ops[..n];
      LossLasts(cap, before, n, i);
      LossStays(cap, before, op, i);
    }
  }

  /** A frame is queued exactly when it was pushed, was not lost, and no drain came since. */
  lemma {:induction false} QueuedIff<F>(cap: nat, ops: seq<Op<F>>, i: nat)
    requires i < |ops| && ops[i].Push? && !Lost(cap, ops, i)
    ensures i in Track(cap, ops).queue.output <==> !DrainBetween(ops, i, |ops|)
  {
    var before, op := ops[..|ops| - 1], ops[|ops| - 1];
    assert ops == before + [op];
    TrackSnoc(cap, before, op);
    if i < |before| {
      if Lost(cap, before, i) {
        LossStays(cap, before, op, i);
        assert false;
      }
      QueuedIff(cap, before, i);
      DrainLater(before, op, i);
      QueuedStays(cap, before, op, i);
    }
  }

  lemma DrainLater<F>(ops: seq<Op<F>>, op: Op<F>, i: int)
    requires i < |ops|
    ensures DrainBetween(ops + [op], i, |ops| + 1) <==> DrainBetween(ops, i, |ops|) || op.Drain?
  {
    var all := ops + [op];
    if DrainBetween(ops, i, |ops|) {
      var k :| 0 <= k < |ops| && i < k < |ops| && ops[k].Drain?;
      assert all[k] == ops[k];
    }
    assert all[|ops|] == op;
  }

  lemma KeptOnce(w: World<nat>)
    requires Increasing(w.Kept())
    ensures forall i :: i in w.queue.output ==> i !in w.sent
  {
    forall a, b | 0 <= a < |w.sent| && 0 <= b < |w.queue.output| ensures w.sent[a] != w.queue.output[b] {
      assert w.Kept()[a] == w.sent[a] && w.Kept()[|w.sent| + b] == w.queue.output[b];
    }
  }

  lemma QueuedStays<F>(cap: nat, ops: seq<Op<F>>, op: Op<F>, i: nat)
    requires i < |ops| && ops[i].Push? && !Lost(cap, ops + [op], i)
    ensures i in Track(cap, ops + [op]).queue.output <==> i in Track(cap, ops).queue.output && !op.Drain?
  {
    TrackSnoc(cap, ops, op);
    EveryRunIsExplained(cap, ops);
    assert (ops + [op])[i] == ops[i];
    KeptOnce(Track(cap, ops));
  }

  /** An overflow loses its own frame and every frame queued since the last drain. */
  lemma OverflowLoses<F>(cap: nat, ops: seq<Op<F>>, i: nat, p: nat)
    requires Overflows(cap, ops, p) && i <= p && ops[i].Push? && !DrainBetween(ops, i, p)
    ensures Lost(cap, ops, i)
  {
    var before, op := ops[..p], ops[p];
    assert ops[..p + 1] == before + [op];
    TrackSnoc(cap, before, op);
    if !Lost(cap, before + [op], i) && i < p {
      if Lost(cap, before, i) {
        LossStays(cap, before, op, i);
        assert false;
      }
      assert !DrainBetween(before, i, p);
      QueuedIff(cap, before, i);
      QueuedStays(cap, before, op, i);
      assert false;
    }
    LossLasts(cap, ops, p + 1, i);
  }

  lemma WaitingLoses<F>(cap: nat, ops: seq<Op<F>>, i: nat)
    requires i < |ops| && ops[i].Push? && Track(cap, ops[..i]).queue.awaiting
    ensures Lost(cap, ops, i)
  {
    assert ops[..i + 1] == ops[..i] + [ops[i]];
    TrackSnoc(cap, ops[..i], ops[i]);
    LossLasts(cap, ops, i + 1, i);
  }

  /** The push at `i` came after an overflow with no keyframe between the two. */
  ghost predicate PushedWhileWaiting<F>(cap: nat, ops: seq<Op<F>>, i: nat) {
    exists p: nat :: Overflows(cap, ops, p) && p < i && !KeyframeBetween(ops, p, i)
  }

  /** The push at `i` belongs to a burst that overflowed: no drain came before the overflow. */
  ghost predicate PartOfOverflow<F>(cap: nat, ops: seq<Op<F>>, i: nat) {
    exists p: nat :: Overflows(cap, ops, p) && i <= p && !DrainBetween(ops, i, p)
  }

  lemma KeyframePrefix<F>(ops: seq<Op<F>>, p: int, i: nat)
    requires i <= |ops|
    ensures KeyframeBetween(ops[..i], p, i) <==> KeyframeBetween(ops, p, i)
  {
    if KeyframeBetween(ops, p, i) {
      var k :| 0 <= k < |ops| && p < k < i && ops[k].KeyframeSent?;
      assert ops[..i][k].KeyframeSent?;
    }
  }

  lemma OverflowsPrefix<F>(cap: nat, ops: seq<Op<F>>, p: nat, i: nat)
    requires p < i <= |ops|
    ensures Overflows(cap, ops[..i], p) <==> Overflows(cap, ops, p)
  {
    assert ops[..i][..p] == ops[..p];
  }

  lemma WaitingAt<F>(cap: nat, ops: seq<Op<F>>, i: nat)
    requires i <= |ops|
    ensures PushedWhileWaiting(cap, ops, i) <==> Track(cap, ops[..i]).queue.awaiting
  {
    var before := ops[..i];
    FlagsIff(cap, before);
    if PushedWhileWaiting(cap, ops, i) {
      var p: nat :| Overflows(cap, ops, p) && p < i && !KeyframeBetween(ops, p, i);
      OverflowsPrefix(cap, ops, p, i);
      KeyframePrefix(ops, p, i);
    }
    if OverflowUncovered(cap, before) {
      var p: nat :| Overflows(cap, before, p) && !KeyframeBetween(before, p, i);
      OverflowsPrefix(cap, ops, p, i);
      KeyframePrefix(ops, p, i);
    }
  }

  lemma {:induction false} LossHasCause<F>(cap: nat, ops: seq<Op<F>>, i: nat)
    requires Lost(cap, ops, i)
    ensures Track(cap, ops[..i]).queue.awaiting || PartOfOverflow(cap, ops, i)
  {
    var before, op := ops[..|ops| - 1], ops[|ops| - 1];
    assert ops == before + [op];
    if Lost(cap, before, i) {
      LossHasCause(cap, before, i);
      assert before[..i] == ops[..i];
      if PartOfOverflow(cap, before, i) {
        var p: nat :| Overflows(cap, before, p) && i <= p && !DrainBetween(before, i, p);
        OverflowsLater(cap, before, op, p);
        assert !DrainBetween(ops, i, p);
      }
    } else {
      NewlyLost(cap, before, op, i);
      OverflowsNow(cap, before, op);
      assert i == |before| ==> ops[..i] == before;
      if i < |before| {
        QueuedIff(cap, before, i);
        assert !DrainBetween(ops, i, |before|);
      }
      assert !DrainBetween(ops, |before|, |before|);
    }
  }

  /** A push is lost exactly when an overflow before it had no keyframe yet, or it belongs to a burst that overflows. */
  lemma LostIff<F>(cap: nat, ops: seq<Op<F>>, i: nat)
    requires i < |ops| && ops[i].Push?
    ensures Lost(cap, ops, i) <==> PushedWhileWaiting(cap, ops, i) || PartOfOverflow(cap, ops, i)
  {
    WaitingAt(cap, ops, i);
    if Lost(cap, ops, i) {
      LossHasCause(cap, ops, i);
    } else if Track(cap, ops[..i]).queue.awaiting {
      WaitingLoses(cap, ops, i);
    } else if PartOfOverflow(cap, ops, i) {
      var p: nat :| Overflows(cap, ops, p) && i <= p && !DrainBetween(ops, i, p);
      OverflowLoses(cap, ops, i, p);
    }
  }

  function Pushes<F>(frames: seq<F>): (ops: seq<Op<F>>)
    ensures |ops| == |frames|
  {
    if frames == [] then [] else Pushes(frames[..|frames| - 1]) + [Push(frames[|frames| - 1])]
  }

  lemma RunSnoc<F>(cap: nat, ops: seq<Op<F>>, op: Op<F>)
    ensures Run(cap, ops + [op]) == Step(Run(cap, ops), op)
  {
    assert (ops + [op])[..|ops|] == ops;
  }

  /** What a burst makes of a queue. */
  predicate Took<F(==)>(q: Queue<F>, frames: seq<F>, q': Queue<F>) {
    if |q.output| + |frames| <= q.cap then q' == q.(output := q.output + frames) else q'.needs && q'.awaiting
  }

  lemma TakesOne<F>(q: Queue<F>, frames: seq<F>, frame: F, q': Queue<F>)
    requires !q.awaiting && q'.cap == q.cap && Took(q, frames, q')
    ensures Took(q, frames + [frame], Apply(q', Push(frame)))
  {
    assert q.output + (frames + [frame]) == q.output + frames + [frame];
  }

  lemma {:induction false} BurstRuns<F>(cap: nat, ops: seq<Op<F>>, frames: seq<F>)
    requires !Run(cap, ops).queue.awaiting
    ensures Run(cap, ops + Pushes(frames)).sent == Run(cap, ops).sent
    ensures Took(Run(cap, ops).queue, frames, Run(cap, ops + Pushes(frames)).queue)
  {
    if frames == [] {
      assert ops + Pushes(frames) == ops;
    } else {
      var init, last := frames[..|frames| - 1], frames[|frames| - 1];
      BurstRuns(cap, ops, init);
      assert ops + Pushes(frames) == (ops + Pushes(init)) + [Push(last)];
      RunSnoc(cap, ops + Pushes(init), Push(last));
      TakesOne(Run(cap, ops).queue, init, last, Run(cap, ops + Pushes(init)).queue);
      assert frames == init + [last];
    }
  }

  /** Recovery: after any run, once a keyframe went out a burst that fits is handed out whole behind what was queued;
      one that does not is dropped with the queue, and a keyframe is asked for again. */
  lemma AfterKeyframe<F>(cap: nat, ops: seq<Op<F>>, frames: seq<F>)
    ensures var w, w' := Run(cap, ops), Run(cap, ops + [KeyframeSent] + Pushes(frames) + [Drain]);
            if |w.queue.output| + |frames| <= cap
            then w'.sent == w.sent + w.queue.output + frames && !w'.queue.needs && !w'.queue.awaiting
            else w'.sent == w.sent && w'.queue.needs && w'.queue.awaiting
  {
    RunSnoc(cap, ops, KeyframeSent);
    BurstRuns(cap, ops + [KeyframeSent], frames);
    RunSnoc(cap, ops + [KeyframeSent] + Pushes(frames), Drain);
  }
}

/** Exponential reconnect backoff in milliseconds. */
module ReconnectBackoff {
  import opened Basics

  const U32_MAX: nat := 0xffff_ffff
  const BASE: nat := 500
  const CAP: nat := 10000

  /** `2u32.saturating_pow`. */
  function SaturatingPow2(n: nat): nat {
    Min(Pow2(n), U32_MAX)
  }

  lemma {:induction false} Pow2Grows(a: nat, b: nat)
    requires a <= b
    ensures Pow2(a) <= Pow2(b)
  {
    if a < b {
      Pow2Grows(a, b - 1);
    }
  }

  /** Neither the saturated attempt counter nor the saturated power shows in the capped delay. */
  lemma DelayIsExact(calls: nat)
    ensures Min(BASE * SaturatingPow2(Min(calls, U32_MAX)), CAP) == Min(BASE * Pow2(calls), CAP)
  {
    if calls >= 5 {
      Pow2Grows(5, calls);
      Pow2Grows(5, Min(calls, U32_MAX));
      assert Pow2(5) == 2 * Pow2(4) && Pow2(3) == 2 * Pow2(2);
    } else {
      Pow2Grows(calls, 5);
      assert Pow2(5) == 2 * Pow2(4) && Pow2(3) == 2 * Pow2(2);
    }
  }

  class Backoff {
    var attempt: nat
    /** Calls since the last reset. */
    ghost var calls: nat

    ghost predicate Valid()
      reads this
    {
      attempt == Min(calls, U32_MAX)
    }

    constructor ()
      ensures Valid() && calls == 0
    {
      attempt, calls := 0, 0;
    }

    method NextDelay() returns (delay: nat)
      requires Valid()
      modifies this
      ensures Valid() && calls == old(calls) + 1
      ensures delay == Min(500 * Pow2(old(calls)), 10000)
    {
      DelayIsExact(calls);
      delay := Min(BASE * SaturatingPow2(attempt), CAP);
      attempt := Min(attempt + 1, U32_MAX);
      calls := calls + 1;
    }

    method Reset()
      modifies this
      ensures Valid() && calls == 0
    {
      attempt, calls := 0, 0;
    }
  }
}
