/**
 The edit preview: raw hunks of a line diff are grouped, given context and numbered for both files.

 The diff algorithm is outside the model: the raw hunks are any valid edit script between the two token lists.
 */
module EditPreview {
  import opened Basics

  const CONTEXT_LINES: nat := 3

  /** A raw hunk: before[beforeStart..beforeEnd] is replaced by after[afterStart..afterEnd]. */
  datatype RawHunk = RawHunk(beforeStart: nat, beforeEnd: nat, afterStart: nat, afterEnd: nat)

  datatype DiffLine<T> = Context(text: T) | Added(text: T) | Removed(text: T)

  datatype DiffHunk<T> = DiffHunk(beforeStart: nat, afterStart: nat, lines: seq<DiffLine<T>>)

  /** The two tokenised files. */
  datatype Input<T> = Input(before: seq<T>, after: seq<T>)

  /** A token without its line ending. */
  function TokenText(token: string): string {
    var line := if token != [] && token[|token| - 1] == '\n' then token[..|token| - 1] else token;
    if line != [] && line[|line| - 1] == '\r' then line[..|line| - 1] else line
  }

  function Texts(tokens: seq<string>): (r: seq<string>)
    ensures |r| == |tokens|
  {
    seq(|tokens|, i requires 0 <= i < |tokens| => TokenText(tokens[i]))
  }

  // --- edit scripts --------------------------------------------------------------------------------------

  /** From position (b, a) on, the hunks are in order and everything between them is common to both files. */
  predicate Steps<T(==)>(hunks: seq<RawHunk>, input: Input<T>, b: nat, a: nat) {
    && b <= |input.before| && a <= |input.after|
    && (hunks != [] ==>
          var h := hunks[0];
          && b <= h.beforeStart <= h.beforeEnd <= |input.before|
          && a <= h.afterStart <= h.afterEnd <= |input.after|
          && input.before[b..h.beforeStart] == input.after[a..h.afterStart]
          && Steps(hunks[1..], input, h.beforeEnd, h.afterEnd))
  }

  function EndBefore(hunks: seq<RawHunk>, b: nat): nat {
    if hunks == [] then b else hunks[|hunks| - 1].beforeEnd
  }

  function EndAfter(hunks: seq<RawHunk>, a: nat): nat {
    if hunks == [] then a else hunks[|hunks| - 1].afterEnd
  }

  /** A valid edit script: applied from (b, a), it turns the rest of the old file into the rest of the new one. */
  predicate Script<T(==)>(hunks: seq<RawHunk>, input: Input<T>, b: nat, a: nat) {
    && Steps(hunks, input, b, a)
    && EndBefore(hunks, b) <= |input.before| && EndAfter(hunks, a) <= |input.after|
    && input.before[EndBefore(hunks, b)..] == input.after[EndAfter(hunks, a)..]
  }

  lemma {:induction false} StepsEnd<T>(hunks: seq<RawHunk>, input: Input<T>, b: nat, a: nat)
    requires Steps(hunks, input, b, a)
    ensures b <= EndBefore(hunks, b) <= |input.before| && a <= EndAfter(hunks, a) <= |input.after|
  {
    if hunks != [] {
      StepsEnd(hunks[1..], input, hunks[0].beforeEnd, hunks[0].afterEnd);
    }
  }

  lemma {:induction false} StepsSplit<T>(x: seq<RawHunk>, y: seq<RawHunk>, input: Input<T>, b: nat, a: nat)
    requires Steps(x + y, input, b, a)
    ensures Steps(x, input, b, a) && Steps(y, input, EndBefore(x, b), EndAfter(x, a))
  {
    if x == [] {
      assert x + y == y;
    } else {
      assert (x + y)[0] == x[0] && (x + y)[1..] == x[1..] + y;
      StepsSplit(x[1..], y, input, x[0].beforeEnd, x[0].afterEnd);
    }
  }

  /** The start may move forward through text that is common to both files. */
  lemma Advance<T>(hunks: seq<RawHunk>, input: Input<T>, b: nat, a: nat, n: nat)
    requires Script(hunks, input, b, a)
    requires b + n <= (if hunks == [] then |input.before| else hunks[0].beforeStart)
    ensures a + n <= |input.after| && input.before[b..b + n] == input.after[a..a + n]
    ensures Script(hunks, input, b + n, a + n)
  {
    if hunks == [] {
      var rest := input.before[b..];
      assert |rest| == |input.after[a..]|;
      assert input.before[b..b + n] == rest[..n] && input.after[a..a + n] == input.after[a..][..n];
      assert input.before[b + n..] == rest[n..] && input.after[a + n..] == input.after[a..][n..];
    } else {
      var h := hunks[0];
      var gap := input.before[b..h.beforeStart];
      assert |gap| == |input.after[a..h.afterStart]|;
      assert input.before[b..b + n] == gap[..n] && input.after[a..a + n] == input.after[a..h.afterStart][..n];
      assert input.before[b + n..h.beforeStart] == gap[n..];
      assert input.after[a + n..h.afterStart] == input.after[a..h.afterStart][n..];
    }
  }

  // --- grouping --------------------------------------------------------------------------------------------------

  function Gap(prev: RawHunk, next: RawHunk): nat {
    if next.beforeStart < prev.beforeEnd then 0 else next.beforeStart - prev.beforeEnd
  }

  predicate Near(prev: RawHunk, next: RawHunk) {
    Gap(prev, next) <= 2 * CONTEXT_LINES
  }

  /** Consecutive hunks of a group are near each other; the last of one group and the first of the next are not. */
  predicate Grouped(groups: seq<seq<RawHunk>>) {
    && (forall k :: 0 <= k < |groups| ==> groups[k] != [] && Chained(groups[k]))
    && (forall k :: 0 < k < |groups| ==> !Near(groups[k - 1][|groups[k - 1]| - 1], groups[k][0]))
  }

  predicate Chained(group: seq<RawHunk>) {
    forall k :: 0 < k < |group| ==> Near(group[k - 1], group[k])
  }

  lemma GrowLast(groups: seq<seq<RawHunk>>, current: seq<RawHunk>, h: RawHunk)
    requires current != [] && Grouped(groups + [current]) && Near(current[|current| - 1], h)
    ensures Grouped(groups + [current + [h]])
  {
    var was, grown := groups + [current], groups + [current + [h]];
    assert Chained(was[|groups|]);
    forall k | 0 <= k < |grown|
      ensures grown[k] != [] && Chained(grown[k])
    {
      assert k < |groups| ==> grown[k] == was[k];
    }
    forall k | 0 < k < |grown|
      ensures !Near(grown[k - 1][|grown[k - 1]| - 1], grown[k][0])
    {
      assert grown[k - 1] == was[k - 1] && grown[k][0] == was[k][0];
    }
  }

  /** The merge loop: the groups are the raw hunks in order, cut exactly where two are not near. */
  method Merge(raw: seq<RawHunk>) returns (groups: seq<seq<RawHunk>>)
    ensures Concat(groups) == raw && Grouped(groups)
  {
    if raw == [] {
      return [];
    }
    groups := [];
    var current := [raw[0]];
    var i := 1;
    while i < |raw|
      invariant 1 <= i <= |raw|
      invariant current != [] && current[|current| - 1] == raw[i - 1]
      invariant Concat(groups) + current == raw[..i]
      invariant Grouped(groups + [current])
    {
      if Near(current[|current| - 1], raw[i]) {
        GrowLast(groups, current, raw[i]);
        current := current + [raw[i]];
      } else {
        ConcatSnoc(groups, current);
        groups := groups + [current];
        current := [raw[i]];
      }
      i := i + 1;
    }
    ConcatSnoc(groups, current);
    groups := groups + [current];
    assert raw[..i] == raw;
  }

  // --- building one hunk -------------------------------------------------------------------------------------------

  function ContextStart(group: seq<RawHunk>): nat
    requires group != []
  {
    Max(group[0].beforeStart - CONTEXT_LINES, 0)
  }

  function ContextEnd<T>(group: seq<RawHunk>, input: Input<T>): nat
    requires group != []
  {
    Min(group[|group| - 1].beforeEnd + CONTEXT_LINES, |input.before|)
  }

  /** The context before the first change is common text, so the subtraction for the new file's start is a natural
      number and the group is a script from there. */
  predicate Anchored<T(==)>(group: seq<RawHunk>, input: Input<T>) {
    && group != []
    && group[0].beforeStart - ContextStart(group) <= group[0].afterStart
    && Steps(group, input, ContextStart(group), AfterContextStart(group))
  }

  function AfterContextStart(group: seq<RawHunk>): nat
    requires group != [] && group[0].beforeStart - ContextStart(group) <= group[0].afterStart
  {
    group[0].afterStart - (group[0].beforeStart - ContextStart(group))
  }

  datatype Kind = IsContext | IsAdded | IsRemoved

  function Line<T>(kind: Kind, text: T): DiffLine<T> {
    match kind
    case IsContext => Context(text)
    case IsAdded => Added(text)
    case IsRemoved => Removed(text)
  }

  function Marked<T>(kind: Kind, texts: seq<T>): (r: seq<DiffLine<T>>)
    ensures |r| == |texts|
  {
    seq(|texts|, i requires 0 <= i < |texts| => Line(kind, texts[i]))
  }

  /** The lines that stand for one change: the context before it, what it removes, what it adds. */
  function Change<T>(context: seq<T>, removed: seq<T>, added: seq<T>): seq<DiffLine<T>> {
    Marked(IsContext, context) + Marked(IsRemoved, removed) + Marked(IsAdded, added)
  }

  function ChangeOf<T>(h: RawHunk, shown: Input<T>, pos: nat): seq<DiffLine<T>>
    requires pos <= h.beforeStart <= h.beforeEnd <= |shown.before| && h.afterStart <= h.afterEnd <= |shown.after|
  {
    Change(shown.before[pos..h.beforeStart], shown.before[h.beforeStart..h.beforeEnd],
        shown.after[h.afterStart..h.afterEnd])
  }

  /** The lines of a group shown from `pos` to `end`: change after change, then the trailing context. */
  function Lines<T>(group: seq<RawHunk>, shown: Input<T>, pos: nat, ghost a: nat, end: nat): seq<DiffLine<T>>
    requires Steps(group, shown, pos, a) && EndBefore(group, pos) <= end <= |shown.before|
  {
    if group == [] then Marked(IsContext, shown.before[pos..end])
    else ChangeOf(group[0], shown, pos) + Lines(group[1..], shown, group[0].beforeEnd, group[0].afterEnd, end)
  }

  /** The hunk a group is shown as, line numbers counted from one. */
  function HunkOf<T>(group: seq<RawHunk>, shown: Input<T>): DiffHunk<T>
    requires Anchored(group, shown)
  {
    StepsEnd(group, shown, ContextStart(group), AfterContextStart(group));
    DiffHunk(ContextStart(group) + 1, AfterContextStart(group) + 1,
             Lines(group, shown, ContextStart(group), AfterContextStart(group), ContextEnd(group, shown)))
  }

  /** The files as they are displayed: every token without its line ending. */
  function Shown(input: Input<string>): Input<string> {
    Input(Texts(input.before), Texts(input.after))
  }

  lemma {:induction false} ShownSteps(hunks: seq<RawHunk>, input: Input<string>, b: nat, a: nat)
    requires Steps(hunks, input, b, a)
    ensures Steps(hunks, Shown(input), b, a)
  {
    if hunks != [] {
      var h := hunks[0];
      ShownSteps(hunks[1..], input, h.beforeEnd, h.afterEnd);
      ShownSlice(input.before, b, h.beforeStart);
      ShownSlice(input.after, a, h.afterStart);
    }
  }

  lemma ShownSlice(tokens: seq<string>, i: nat, j: nat)
    requires i <= j <= |tokens|
    ensures Texts(tokens)[i..j] == Texts(tokens[i..j])
  {
  }

  lemma ShownScript(hunks: seq<RawHunk>, input: Input<string>, b: nat, a: nat)
    requires Script(hunks, input, b, a)
    ensures Script(hunks, Shown(input), b, a)
  {
    ShownSteps(hunks, input, b, a);
    ShownSlice(input.before, EndBefore(hunks, b), |input.before|);
    ShownSlice(input.after, EndAfter(hunks, a), |input.after|);
  }

  method Push(lines: seq<DiffLine<string>>, kind: Kind, tokens: seq<string>, from: nat, to: nat)
      returns (r: seq<DiffLine<string>>)
    requires from <= to <= |tokens|
    ensures r == lines + Marked(kind, Texts(tokens)[from..to])
  {
    r := lines;
    var i := from;
    while i < to
      invariant from <= i <= to
      invariant r == lines + Marked(kind, Texts(tokens)[from..i])
    {
      r := r + [Line(kind, TokenText(tokens[i]))];
      i := i + 1;
    }
  }

  method PushChange(lines: seq<DiffLine<string>>, h: RawHunk, input: Input<string>, pos: nat)
      returns (r: seq<DiffLine<string>>)
    requires pos <= h.beforeStart <= h.beforeEnd <= |input.before| && h.afterStart <= h.afterEnd <= |input.after|
    ensures r == lines + ChangeOf(h, Shown(input), pos)
  {
    r := Push(lines, IsContext, input.before, pos, h.beforeStart);
    r := Push(r, IsRemoved, input.before, h.beforeStart, h.beforeEnd);
    r := Push(r, IsAdded, input.after, h.afterStart, h.afterEnd);
  }

  method BuildHunk(group: seq<RawHunk>, input: Input<string>) returns (hunk: DiffHunk<string>)
    requires Anchored(group, Shown(input))
    ensures hunk == HunkOf(group, Shown(input))
  {
    var first, last := group[0], group[|group| - 1];
    var contextStart := Max(first.beforeStart - CONTEXT_LINES, 0);
    var contextEnd := Min(last.beforeEnd + CONTEXT_LINES, |input.before|);
    var afterContextStart := first.afterStart - (first.beforeStart - contextStart);
    StepsEnd(group, Shown(input), contextStart, afterContextStart);
    var lines := BuildLines(group, input, contextStart, afterContextStart, contextEnd);
    hunk := DiffHunk(contextStart + 1, afterContextStart + 1, lines);
  }

  /** The lines built so far, followed by those of the remaining hunks, are the goal. */
  ghost predicate Remains<T>(goal: seq<DiffLine<T>>, lines: seq<DiffLine<T>>, todo: seq<RawHunk>, shown: Input<T>,
      pos: nat, a: nat, end: nat) {
    && Steps(todo, shown, pos, a) && EndBefore(todo, pos) <= end <= |shown.before|
    && goal == lines + Lines(todo, shown, pos, a, end)
  }

  lemma RemainsStep<T>(goal: seq<DiffLine<T>>, lines: seq<DiffLine<T>>, todo: seq<RawHunk>, shown: Input<T>, pos: nat,
      a: nat, end: nat)
    requires todo != [] && Remains(goal, lines, todo, shown, pos, a, end)
    ensures var h := todo[0];
            && pos <= h.beforeStart <= h.beforeEnd <= |shown.before| && h.afterStart <= h.afterEnd <= |shown.after|
            && Remains(goal, lines + ChangeOf(h, shown, pos), todo[1..], shown, h.beforeEnd, h.afterEnd, end)
  {
  }

  method BuildLines(group: seq<RawHunk>, input: Input<string>, start: nat, ghost a: nat, end: nat)
      returns (lines: seq<DiffLine<string>>)
    requires Steps(group, Shown(input), start, a) && EndBefore(group, start) <= end <= |input.before|
    ensures lines == Lines(group, Shown(input), start, a, end)
  {
    ghost var shown := Shown(input);
    ghost var goal := Lines(group, shown, start, a, end);
    lines := [];
    var pos: nat := start;
    ghost var at: nat := a;
    var k := 0;
    while k < |group|
      invariant 0 <= k <= |group| && Remains(goal, lines, group[k..], shown, pos, at, end)
    {
      RemainsStep(goal, lines, group[k..], shown, pos, at, end);
      assert group[k..][0] == group[k] && group[k..][1..] == group[k + 1..];
      lines := PushChange(lines, group[k], input, pos);
      pos := group[k].beforeEnd;
      at := group[k].afterEnd;
      k := k + 1;
    }
    lines := Push(lines, IsContext, input.before, pos, end);
  }

  // --- the preview is a patch --------------------------------------------------------------------------------------

  function KindOf<T>(line: DiffLine<T>): Kind {
    match line
    case Context(_) => IsContext
    case Added(_) => IsAdded
    case Removed(_) => IsRemoved
  }

  /** The texts of the lines that are not of the hidden kind. */
  function Without<T>(hidden: Kind, lines: seq<DiffLine<T>>): seq<T> {
    if lines == [] then []
    else if KindOf(lines[0]) == hidden then Without(hidden, lines[1..])
    else [lines[0].text] + Without(hidden, lines[1..])
  }

  /** The old side of a hunk is its lines without the added ones, the new side its lines without the removed ones. */
  function OldSide<T>(lines: seq<DiffLine<T>>): seq<T> {
    Without(IsAdded, lines)
  }

  function NewSide<T>(lines: seq<DiffLine<T>>): seq<T> {
    Without(IsRemoved, lines)
  }

  lemma {:induction false} WithoutAppend<T>(hidden: Kind, x: seq<DiffLine<T>>, y: seq<DiffLine<T>>)
    ensures Without(hidden, x + y) == Without(hidden, x) + Without(hidden, y)
  {
    if x == [] {
      assert x + y == y;
    } else {
      WithoutAppend(hidden, x[1..], y);
      assert (x + y)[1..] == x[1..] + y;
    }
  }

  lemma {:induction false} WithoutMarked<T>(hidden: Kind, kind: Kind, texts: seq<T>)
    ensures Without(hidden, Marked(kind, texts)) == if kind == hidden then [] else texts
  {
    if texts != [] {
      WithoutMarked(hidden, kind, texts[1..]);
      assert Marked(kind, texts)[1..] == Marked(kind, texts[1..]);
      assert texts == [texts[0]] + texts[1..];
    }
  }

  lemma WithoutChange<T>(hidden: Kind, context: seq<T>, removed: seq<T>, added: seq<T>)
    requires hidden != IsContext
    ensures Without(hidden, Change(context, removed, added)) == context + (if hidden == IsAdded then removed else added)
  {
    var c, r, d := Marked(IsContext, context), Marked(IsRemoved, removed), Marked(IsAdded, added);
    WithoutAppend(hidden, c + r, d);
    WithoutAppend(hidden, c, r);
    WithoutMarked(hidden, IsContext, context);
    WithoutMarked(hidden, IsRemoved, removed);
    WithoutMarked(hidden, IsAdded, added);
  }

  lemma Join<T>(s: seq<T>, i: nat, j: nat, k: nat)
    requires i <= j <= k <= |s|
    ensures s[i..j] + s[j..k] == s[i..k]
  {
  }

  lemma SidesOfChange<T>(h: RawHunk, shown: Input<T>, pos: nat, a: nat)
    requires Steps([h], shown, pos, a)
    ensures OldSide(ChangeOf(h, shown, pos)) == shown.before[pos..h.beforeEnd]
    ensures NewSide(ChangeOf(h, shown, pos)) == shown.after[a..h.afterEnd]
  {
    var context, removed := shown.before[pos..h.beforeStart], shown.before[h.beforeStart..h.beforeEnd];
    var added := shown.after[h.afterStart..h.afterEnd];
    WithoutChange(IsAdded, context, removed, added);
    WithoutChange(IsRemoved, context, removed, added);
    Join(shown.before, pos, h.beforeStart, h.beforeEnd);
    Join(shown.after, a, h.afterStart, h.afterEnd);
  }

  /** Where the new file stands when the old one stands at `end`, after the group. */
  function AfterAt(group: seq<RawHunk>, pos: nat, a: nat, end: nat): int {
    EndAfter(group, a) + (end - EndBefore(group, pos))
  }

  predicate CommonTail<T(==)>(group: seq<RawHunk>, shown: Input<T>, pos: nat, a: nat, end: nat) {
    && EndBefore(group, pos) <= end <= |shown.before|
        && EndAfter(group, a) <= AfterAt(group, pos, a, end) <= |shown.after|
    && shown.before[EndBefore(group, pos)..end] == shown.after[EndAfter(group, a)..AfterAt(group, pos, a, end)]
  }

  /** Without its added lines a shown group is the old file from `pos` to `end`; without its removed lines it is the new
      file from `a` for as long as the trailing context lasts. */
  lemma {:induction false} SidesOfLines<T>(group: seq<RawHunk>, shown: Input<T>, pos: nat, a: nat, end: nat)
    requires Steps(group, shown, pos, a) && CommonTail(group, shown, pos, a, end)
    ensures pos <= end && a <= AfterAt(group, pos, a, end)
    ensures OldSide(Lines(group, shown, pos, a, end)) == shown.before[pos..end]
    ensures NewSide(Lines(group, shown, pos, a, end)) == shown.after[a..AfterAt(group, pos, a, end)]
  {
    StepsEnd(group, shown, pos, a);
    if group == [] {
      WithoutMarked(IsAdded, IsContext, shown.before[pos..end]);
      WithoutMarked(IsRemoved, IsContext, shown.before[pos..end]);
    } else {
      var h, rest := group[0], group[1..];
      assert EndBefore(rest, h.beforeEnd) == EndBefore(group, pos) && EndAfter(rest, h.afterEnd) == EndAfter(group, a);
      SidesOfLines(rest, shown, h.beforeEnd, h.afterEnd, end);
      SidesOfChange(h, shown, pos, a);
      WithoutAppend(IsAdded, ChangeOf(h, shown, pos), Lines(rest, shown, h.beforeEnd, h.afterEnd, end));
      WithoutAppend(IsRemoved, ChangeOf(h, shown, pos), Lines(rest, shown, h.beforeEnd, h.afterEnd, end));
      Join(shown.before, pos, h.beforeEnd, end);
      Join(shown.after, a, h.afterEnd, AfterAt(group, pos, a, end));
    }
  }

  function HunksOf<T>(groups: seq<seq<RawHunk>>, shown: Input<T>): (r: seq<DiffHunk<T>>)
    requires AllAnchored(groups, shown)
    ensures |r| == |groups|
  {
    seq(|groups|, k requires 0 <= k < |groups| => HunkOf(groups[k], shown))
  }

  predicate AllAnchored<T(==)>(groups: seq<seq<RawHunk>>, shown: Input<T>) {
    forall k :: 0 <= k < |groups| ==> Anchored(groups[k], shown)
  }

  /** Applying a preview the way a patch is applied: copy up to the hunk, check its old side against the file and
      replace it by the new side, whose announced line number must be where the output stands; None if anything does
      not match. */
  function Patch<T(==)>(hunks: seq<DiffHunk<T>>, file: seq<T>, pos: nat, line: nat): (r: Option<seq<T>>)
    requires pos <= |file|
  {
    if hunks == [] then Some(file[pos..])
    else
      var h := hunks[0];
      var from, to := h.beforeStart - 1, h.beforeStart - 1 + |OldSide(h.lines)|;
      if from < pos || to > |file| || file[from..to] != OldSide(h.lines) || line + (from - pos) != h.afterStart - 1
          then None
      else
        match Patch(hunks[1..], file, to, h.afterStart - 1 + |NewSide(h.lines)|)
        case None => None
        case Some(rest) => Some(file[pos..from] + NewSide(h.lines) + rest)
  }

  lemma RestIsScript<T>(group: seq<RawHunk>, rest: seq<RawHunk>, shown: Input<T>, b: nat, a: nat)
    requires group != [] && Script(group + rest, shown, b, a)
    ensures Steps(group, shown, b, a)
    ensures Script(rest, shown, group[|group| - 1].beforeEnd, group[|group| - 1].afterEnd)
  {
    StepsSplit(group, rest, shown, b, a);
    assert EndBefore(rest, EndBefore(group, b)) == EndBefore(group + rest, b);
    assert EndAfter(rest, EndAfter(group, a)) == EndAfter(group + rest, a);
  }

  /** Seen from the end (b, a) of the previous group, a group is anchored: its leading context is common text, and the
      subtraction for its start in the new file does not underflow. */
  lemma GroupIsAnchored<T>(group: seq<RawHunk>, rest: seq<RawHunk>, shown: Input<T>, b: nat, a: nat)
    requires group != [] && b <= ContextStart(group) && Script(group + rest, shown, b, a)
    ensures Anchored(group, shown) && AfterContextStart(group) == a + (ContextStart(group) - b) <= |shown.after|
    ensures shown.before[b..ContextStart(group)] == shown.after[a..AfterContextStart(group)]
  {
    var all, start := group + rest, ContextStart(group);
    assert all[0] == group[0];
    assert |shown.before[b..group[0].beforeStart]| == |shown.after[a..group[0].afterStart]|;
    Advance(all, shown, b, a, start - b);
    RestIsScript(group, rest, shown, start, a + (start - b));
  }

  /** A group's hunk shows exactly the two slices it announces, and behind it the rest is again a script that begins
      before the next group's context. */
  lemma GroupShows<T>(group: seq<RawHunk>, rest: seq<RawHunk>, shown: Input<T>)
    requires Anchored(group, shown)
    requires Script(rest, shown, group[|group| - 1].beforeEnd, group[|group| - 1].afterEnd)
    requires rest != [] ==> !Near(group[|group| - 1], rest[0])
    ensures var start, end, afterStart := ContextStart(group), ContextEnd(group, shown), AfterContextStart(group);
            var afterEnd := AfterAt(group, start, afterStart, end);
            && start <= end && afterStart <= afterEnd <= |shown.after|
            && OldSide(HunkOf(group, shown).lines) == shown.before[start..end]
            && NewSide(HunkOf(group, shown).lines) == shown.after[afterStart..afterEnd]
            && Script(rest, shown, end, afterEnd)
            && (rest != [] ==> end <= ContextStart(rest))
  {
    var last, end := group[|group| - 1], ContextEnd(group, shown);
    StepsEnd(group, shown, ContextStart(group), AfterContextStart(group));
    Advance(rest, shown, last.beforeEnd, last.afterEnd, end - last.beforeEnd);
    SidesOfLines(group, shown, ContextStart(group), AfterContextStart(group), end);
  }

  lemma RestIsGrouped(groups: seq<seq<RawHunk>>)
    requires groups != [] && Grouped(groups)
    ensures Grouped(groups[1..])
    ensures |groups| > 1 ==>
              && Concat(groups[1..]) != [] && Concat(groups[1..])[0] == groups[1][0]
              && !Near(groups[0][|groups[0]| - 1], groups[1][0])
  {
    var more := groups[1..];
    forall k | 0 < k < |more|
      ensures !Near(more[k - 1][|more[k - 1]| - 1], more[k][0])
    {
      assert more[k] == groups[k + 1] && more[k - 1] == groups[k + 1 - 1];
    }
    if |groups| > 1 {
      assert more[0] == groups[1];
      assert Concat(more) == more[0] + Concat(more[1..]);
      assert !Near(groups[1 - 1][|groups[1 - 1]| - 1], groups[1][0]);
    }
  }

  lemma PatchOne<T>(h: DiffHunk<T>, more: seq<DiffHunk<T>>, shown: Input<T>, b: nat, a: nat,
                 start: nat, end: nat, afterStart: nat, afterEnd: nat)
    requires b <= start <= end <= |shown.before| && a <= afterStart <= afterEnd <= |shown.after|
    requires h.beforeStart == start + 1 && h.afterStart == afterStart + 1
    requires shown.before[b..start] == shown.after[a..afterStart]
    requires OldSide(h.lines) == shown.before[start..end] && NewSide(h.lines) == shown.after[afterStart..afterEnd]
    requires Patch(more, shown.before, end, afterEnd) == Some(shown.after[afterEnd..])
    ensures Patch([h] + more, shown.before, b, a) == Some(shown.after[a..])
  {
    assert ([h] + more)[1..] == more;
    assert |shown.before[b..start]| == |shown.after[a..afterStart]|;
    Join(shown.after, a, afterStart, afterEnd);
    Join(shown.after, a, afterEnd, |shown.after|);
    assert shown.after[a..|shown.after|] == shown.after[a..]
        && shown.after[afterEnd..|shown.after|] == shown.after[afterEnd..];
  }

  /** Every preview is a correct patch: grouped and given context, the hunks of any valid edit script apply cleanly, in
      order and without overlap, to the old file and turn it into the new one. */
  lemma {:induction false} PreviewIsPatch<T>(groups: seq<seq<RawHunk>>, shown: Input<T>, b: nat, a: nat)
    requires Grouped(groups) && Script(Concat(groups), shown, b, a)
    requires groups != [] ==> b <= ContextStart(groups[0])
    ensures b <= |shown.before| && a <= |shown.after| && AllAnchored(groups, shown)
    ensures Patch(HunksOf(groups, shown), shown.before, b, a) == Some(shown.after[a..])
  {
    if groups != [] {
      var group, more := groups[0], groups[1..];
      RestIsGrouped(groups);
      GroupIsAnchored(group, Concat(more), shown, b, a);
      RestIsScript(group, Concat(more), shown, b, a);
      GroupShows(group, Concat(more), shown);
      var start, end, afterStart := ContextStart(group), ContextEnd(group, shown), AfterContextStart(group);
      var afterEnd := AfterAt(group, start, afterStart, end);
      PreviewIsPatch(more, shown, end, afterEnd);
      FirstAndRest(groups, shown);
      PatchOne(HunkOf(group, shown), HunksOf(more, shown), shown, b, a, start, end, afterStart, afterEnd);
    }
  }

  lemma FirstAndRest<T>(groups: seq<seq<RawHunk>>, shown: Input<T>)
    requires groups != [] && Anchored(groups[0], shown) && AllAnchored(groups[1..], shown)
    ensures AllAnchored(groups, shown)
    ensures HunksOf(groups, shown) == [HunkOf(groups[0], shown)] + HunksOf(groups[1..], shown)
  {
    forall k | 0 <= k < |groups|
      ensures Anchored(groups[k], shown)
    {
      assert k > 0 ==> groups[k] == groups[1..][k - 1];
    }
  }

  method BuildHunks(groups: seq<seq<RawHunk>>, input: Input<string>) returns (hunks: seq<DiffHunk<string>>)
    requires AllAnchored(groups, Shown(input))
    ensures hunks == HunksOf(groups, Shown(input))
  {
    hunks := [];
    var k := 0;
    while k < |groups|
      invariant 0 <= k <= |groups|
      invariant hunks == HunksOf(groups, Shown(input))[..k]
    {
      var hunk := BuildHunk(groups[k], input);
      hunks := hunks + [hunk];
      k := k + 1;
    }
  }

  /** `EditPreview::compute` on the raw hunks of any valid edit script: a clean patch from the old file to the new one;
      no changes, no hunks. */
  method Compute(raw: seq<RawHunk>, input: Input<string>) returns (hunks: seq<DiffHunk<string>>)
    requires Script(raw, input, 0, 0)
    ensures Patch(hunks, Texts(input.before), 0, 0) == Some(Texts(input.after))
    ensures raw == [] <==> hunks == []
  {
    var groups := Merge(raw);
    ShownScript(raw, input, 0, 0);
    PreviewIsPatch(groups, Shown(input), 0, 0);
    hunks := BuildHunks(groups, input);
  }

  // --- the gutter --------------------------------------------------------------------------------------------------

  /** The last line number a hunk displays in either file. */
  function LastShown<T>(h: DiffHunk<T>): nat {
    Max(Max(h.beforeStart + |OldSide(h.lines)|, h.afterStart + |NewSide(h.lines)|) - 1, 0)
  }

  method LastNumber<T>(h: DiffHunk<T>) returns (n: nat)
    ensures n == LastShown(h)
  {
    var before, after := h.beforeStart, h.afterStart;
    var i := 0;
    while i < |h.lines|
      invariant 0 <= i <= |h.lines|
      invariant before == h.beforeStart + |OldSide(h.lines[..i])| && after == h.afterStart + |NewSide(h.lines[..i])|
    {
      WithoutAppend(IsAdded, h.lines[..i], [h.lines[i]]);
      WithoutAppend(IsRemoved, h.lines[..i], [h.lines[i]]);
      assert h.lines[..i + 1] == h.lines[..i] + [h.lines[i]];
      match h.lines[i] {
        case Context(_) => before, after := before + 1, after + 1;
        case Removed(_) => before := before + 1;
        case Added(_) => after := after + 1;
      }
      i := i + 1;
    }
    assert h.lines[..i] == h.lines;
    n := Max(Max(before, after) - 1, 0);
  }

  /** `max_line_number`: no hunk displays a higher number, and some hunk displays this one. */
  method MaxLineNumber<T>(hunks: seq<DiffHunk<T>>) returns (m: nat)
    ensures forall k :: 0 <= k < |hunks| ==> LastShown(hunks[k]) <= m
    ensures if hunks == [] then m == 0 else exists k :: 0 <= k < |hunks| && LastShown(hunks[k]) == m
  {
    m := 0;
    var i := 0;
    while i < |hunks|
      invariant 0 <= i <= |hunks|
      invariant forall k :: 0 <= k < i ==> LastShown(hunks[k]) <= m
      invariant if i == 0 then m == 0 else exists k :: 0 <= k < i && LastShown(hunks[k]) == m
    {
      var n := LastNumber(hunks[i]);
      m := if i == 0 || n > m then n else m;
      i := i + 1;
    }
  }

  // --- what is shown -----------------------------------------------------------------------------------------------

  predicate EndsIn(line: string, c: char) {
    line != [] && line[|line| - 1] == c
  }

  /** Every token is one of these four, so this says what each is shown as: the line without its ending, of which a
      carriage return is a part also when no newline follows. */
  lemma ShownLine(line: string)
    ensures TokenText(line + "\r\n") == line && TokenText(line + "\r") == line
    ensures !EndsIn(line, '\r') ==> TokenText(line + "\n") == line
    ensures !EndsIn(line, '\r') && !EndsIn(line, '\n') ==> TokenText(line) == line
  {
    var crlf := line + "\r\n";
    assert crlf[..|crlf| - 1] == line + "\r" && (line + "\r")[..|line|] == line;
    assert (line + "\n")[..|line|] == line;
  }

  /** A token is the text shown of it and a line ending. */
  lemma TokenIsTextAndEnding(token: string) returns (ending: string)
    ensures ending == "" || ending == "\r" || ending == "\n" || ending == "\r\n"
    ensures token == TokenText(token) + ending
  {
    var n := |TokenText(token)|;
    ending := token[n..];
    assert token[..n] == TokenText(token);
    assert token == token[..n] + token[n..];
  }

  /** So files that are shown alike are the same line by line, up to their line endings. */
  lemma ShownAlike(a: seq<string>, b: seq<string>, i: nat) returns (x: string, y: string)
    requires Texts(a) == Texts(b) && i < |a|
    ensures |b| == |a| && x in {"", "\r", "\n", "\r\n"} && y in {"", "\r", "\n", "\r\n"}
    ensures exists line :: a[i] == line + x && b[i] == line + y
  {
    assert |Texts(a)| == |Texts(b)| && Texts(a)[i] == Texts(b)[i];
    x := TokenIsTextAndEnding(a[i]);
    y := TokenIsTextAndEnding(b[i]);
    assert a[i] == TokenText(a[i]) + x && b[i] == TokenText(a[i]) + y;
  }

  /** A change is shown as the unchanged lines before it, then what it removes, then what it adds. */
  lemma ChangeIsShown<T>(h: RawHunk, shown: Input<T>, pos: nat, i: nat)
    requires pos <= h.beforeStart <= h.beforeEnd <= |shown.before| && h.afterStart <= h.afterEnd <= |shown.after|
    requires i < |ChangeOf(h, shown, pos)|
    ensures |ChangeOf(h, shown, pos)| == h.beforeEnd - pos + (h.afterEnd - h.afterStart)
    ensures ChangeOf(h, shown, pos)[i] ==
            if i < h.beforeStart - pos then Context(shown.before[pos + i])
            else if i < h.beforeEnd - pos then Removed(shown.before[pos + i])
            else Added(shown.after[h.afterStart + (i - (h.beforeEnd - pos))])
  {
  }

  /** Three lines of context on either side, as far as the file goes, and one group wherever at most six lines lie
      between two changes. */
  lemma ContextIsThreeLines<T>(group: seq<RawHunk>, shown: Input<T>, next: RawHunk)
    requires Anchored(group, shown)
    ensures var first, last := group[0], group[|group| - 1];
            && HunkOf(group, shown).beforeStart == (if first.beforeStart < 3 then 0 else first.beforeStart - 3) + 1
            && ContextEnd(group, shown) ==
               (if last.beforeEnd + 3 > |shown.before| then |shown.before| else last.beforeEnd + 3)
            && (Near(last, next) <==> next.beforeStart <= last.beforeEnd + 6)
  {
  }
}
