/** Splitting a command at its pipes. Graphemes are single characters here. */
module PipeSplit {
  import opened Basics

  /** What the scan does at one character: it flips the quoting, skips an escaped character or sees a pipe. */
  datatype Sight = Flip | Skip | Pipe | Other

  /** A quote that stands alone since `start` does not close: the text since `start` is just its own opening. */
  function Look(command: string, start: nat, quoted: bool, i: nat): Sight
    requires start <= i < |command|
  {
    var c := command[i];
    if c == '"' && command[start..i] != "\"" then Flip
    else if c == '\'' && command[start..i] != "'" then Flip
    else if c == '\\' && i + 1 < |command| then Skip
    else if c == '|' && !quoted then Pipe
    else Other
  }

  /** The pipes the scan sees from `i` on. */
  function Pipes(command: string, start: nat, quoted: bool, i: nat): (pipes: seq<nat>)
    requires start <= i <= |command|
    decreases |command| - i
  {
    if i == |command| then []
    else
      match Look(command, start, quoted, i)
      case Flip => Pipes(command, start, !quoted, i + 1)
      case Skip => Pipes(command, start, quoted, i + 2)
      case Pipe => [i] + Pipes(command, i, quoted, i + 1)
      case Other => Pipes(command, start, quoted, i + 1)
  }

  /** The texts between the pipes. */
  function Pieces(command: string, from: nat, pipes: seq<nat>): seq<string>
    requires from <= |command| && PipesAt(command, from, pipes)
    decreases |pipes|
  {
    if pipes == [] then [command[from..]]
    else [command[from..pipes[0]]] + Pieces(command, pipes[0] + 1, pipes[1..])
  }

  /** These are positions of pipes, in order, none before `from`. */
  predicate PipesAt(command: string, from: nat, pipes: seq<nat>)
    decreases |pipes|
  {
    if pipes == [] then true
    else from <= pipes[0] < |command| && command[pipes[0]] == '|' && PipesAt(command, pipes[0] + 1, pipes[1..])
  }

  function Join(pieces: seq<string>): string {
    if pieces == [] then "" else if |pieces| == 1 then pieces[0] else pieces[0] + "|" + Join(pieces[1..])
  }

  lemma {:induction false} PipesArePipes(command: string, start: nat, quoted: bool, i: nat, from: nat)
    requires start <= i <= |command| && from <= i
    ensures PipesAt(command, from, Pipes(command, start, quoted, i))
    decreases |command| - i
  {
    if i < |command| {
      match Look(command, start, quoted, i)
      case Flip => PipesArePipes(command, start, !quoted, i + 1, from);
      case Skip => PipesArePipes(command, start, quoted, i + 2, from);
      case Pipe => PipesArePipes(command, i, quoted, i + 1, i + 1);
      case Other => PipesArePipes(command, start, quoted, i + 1, from);
    }
  }

  /** Joined again the pieces are the command, and there is one more of them than pipes. */
  lemma {:induction false} JoinPieces(command: string, from: nat, pipes: seq<nat>)
    requires from <= |command| && PipesAt(command, from, pipes)
    ensures |Pieces(command, from, pipes)| == |pipes| + 1
    ensures Join(Pieces(command, from, pipes)) == command[from..]
    decreases |pipes|
  {
    if pipes != [] {
      var at := pipes[0];
      JoinPieces(command, at + 1, pipes[1..]);
      var rest := Pieces(command, at + 1, pipes[1..]);
      var all := [command[from..at]] + rest;
      assert all[1..] == rest;
      assert command[from..] == command[from..at] + "|" + command[at + 1..];
    }
  }

  /** Where the text of the current piece begins: behind the last pipe, if there was one. */
  function Begin(start: nat, pieces: seq<string>): nat {
    if pieces == [] then start else start + 1
  }

  /** The pieces so far and the pieces of the pipes still to come are all pieces. */
  ghost predicate Progress(command: string, pieces: seq<string>, start: nat, quoted: bool, i: nat) {
    && start <= i <= |command| && (i == 0 ==> !quoted)
    && (if pieces == [] then start == 0 && (i > 0 ==> command[0] != '|') else start < i && command[start] == '|')
    && var pipes := Pipes(command, start, quoted, i);
       && PipesAt(command, 0, Pipes(command, 0, false, 0))
       && PipesAt(command, Begin(start, pieces), pipes)
       && pieces + Pieces(command, Begin(start, pieces), pipes) == Pieces(command, 0, Pipes(command, 0, false, 0))
  }

  lemma ProgressPipe(command: string, pieces: seq<string>, start: nat, quoted: bool, i: nat)
    requires Progress(command, pieces, start, quoted, i) && i < |command| && Look(command, start, quoted, i) == Pipe
    ensures Begin(start, pieces) <= i
    ensures Progress(command, pieces + [command[Begin(start, pieces)..i]], i, quoted, i + 1)
  {
    var from := Begin(start, pieces);
    var later := Pipes(command, i, quoted, i + 1);
    var pipes := Pipes(command, start, quoted, i);
    assert pipes == [i] + later && pipes[1..] == later;
    var piece := command[from..i];
    assert Pieces(command, from, pipes) == [piece] + Pieces(command, i + 1, later);
    assert pieces + ([piece] + Pieces(command, i + 1, later)) == (pieces + [piece]) + Pieces(command, i + 1, later);
  }

  lemma ProgressOther(command: string, pieces: seq<string>, start: nat, quoted: bool, i: nat)
    requires Progress(command, pieces, start, quoted, i) && i < |command| && Look(command, start, quoted, i) != Pipe
    ensures match Look(command, start, quoted, i)
            case Flip => Progress(command, pieces, start, !quoted, i + 1)
            case Skip => i + 2 <= |command| && Progress(command, pieces, start, quoted, i + 2)
            case Other => Progress(command, pieces, start, quoted, i + 1)
            case Pipe => true
  {
  }

  /** One turn of the loop. */
  method Advance(command: string, pieces: seq<string>, start: nat, quoted: bool, i: nat)
    returns (pieces': seq<string>, start': nat, quoted': bool, i': nat)
    requires Progress(command, pieces, start, quoted, i) && i < |command|
    ensures i < i' && Progress(command, pieces', start', quoted', i')
  {
    pieces', start', quoted', i' := pieces, start, quoted, i + 1;
    var c := command[i];
    if c == '|' && !quoted {
      ProgressPipe(command, pieces, start, quoted, i);
      if i > start && command[start] == '|' {
        start' := start + 1;
      }
      pieces' := pieces + [command[start'..i]];
      start' := i;
      return;
    }
    ProgressOther(command, pieces, start, quoted, i);
    if c == '"' && command[start..i] != "\"" {
      quoted' := !quoted;
    } else if c == '\'' && command[start..i] != "'" {
      quoted' := !quoted;
    } else if c == '\\' && i + 1 < |command| {
      i' := i + 2;
    }
  }

  method SplitAtPipe(command: string) returns (result: seq<string>)
    ensures PipesAt(command, 0, Pipes(command, 0, false, 0))
    ensures result == Pieces(command, 0, Pipes(command, 0, false, 0))
    ensures Join(result) == command
    ensures |result| == |Pipes(command, 0, false, 0)| + 1
  {
    result := [];
    var quoted := false;
    var start: nat, i: nat := 0, 0;
    PipesArePipes(command, 0, false, 0, 0);
    JoinPieces(command, 0, Pipes(command, 0, false, 0));
    assert command[0..] == command;
    while i < |command|
      invariant Progress(command, result, start, quoted, i)
      decreases |command| - i
    {
      result, start, quoted, i := Advance(command, result, start, quoted, i);
    }
    if start < |command| && command[start] == '|' {
      start := start + 1;
    }
    result := result + [command[start..]];
  }

  // --- what the pieces hold ----------------------------------------------------------------------------------------

  lemma {:induction false} PipesFollow(command: string, from: nat, pipes: seq<nat>)
    requires PipesAt(command, from, pipes)
    ensures forall k :: k in pipes ==> from <= k < |command|
    decreases |pipes|
  {
    if pipes != [] {
      PipesFollow(command, pipes[0] + 1, pipes[1..]);
      assert pipes == [pipes[0]] + pipes[1..];
    }
  }

  lemma PipeInSlice(command: string, from: nat, to: nat)
    requires from <= to <= |command|
    ensures '|' in command[from..to] <==> exists k :: from <= k < to && command[k] == '|'
  {
    if '|' in command[from..to] {
      var i :| 0 <= i < to - from && command[from..to][i] == '|';
      assert command[from + i] == '|';
    }
    if exists k :: from <= k < to && command[k] == '|' {
      var k :| from <= k < to && command[k] == '|';
      assert command[from..to][k - from] == '|';
    }
  }

  /** No piece holds a pipe exactly when every pipe is a cut. */
  lemma {:induction false} PipeFreeIff(command: string, from: nat, pipes: seq<nat>)
    requires from <= |command| && PipesAt(command, from, pipes)
    ensures (forall p :: p in Pieces(command, from, pipes) ==> '|' !in p)
            <==> forall k :: from <= k < |command| && command[k] == '|' ==> k in pipes
    decreases |pipes|
  {
    if pipes == [] {
      PipeInSlice(command, from, |command|);
      assert command[from..|command|] == command[from..];
    } else {
      var at, rest := pipes[0], pipes[1..];
      PipeInSlice(command, from, at);
      PipesFollow(command, at + 1, rest);
      PipeFreeIff(command, at + 1, rest);
      assert pipes == [at] + rest;
      assert forall k :: k in pipes <==> k == at || k in rest;
      var first, others := command[from..at], Pieces(command, at + 1, rest);
      assert Pieces(command, from, pipes) == [first] + others;
      assert forall p :: p in Pieces(command, from, pipes) <==> p == first || p in others;
    }
  }

  /** The pieces are the parts between all pipes of the command exactly when the scan sees all of them. */
  lemma PiecesPipeFreeIff(command: string)
    ensures PipesAt(command, 0, Pipes(command, 0, false, 0))
    ensures (forall p :: p in Pieces(command, 0, Pipes(command, 0, false, 0)) ==> '|' !in p)
            <==> forall k :: 0 <= k < |command| && command[k] == '|' ==> k in Pipes(command, 0, false, 0)
  {
    PipesArePipes(command, 0, false, 0, 0);
    PipeFreeIff(command, 0, Pipes(command, 0, false, 0));
  }

  // --- the scan against plain quoting ------------------------------------------------------------------------------

  predicate IsQuote(c: char) { c == '"' || c == '\'' }

  /** The pipes outside quotations and escapes, where every quote opens or closes. */
  function TruePipes(command: string, quoted: bool, i: nat): (pipes: seq<nat>)
    requires i <= |command|
    decreases |command| - i
  {
    if i == |command| then []
    else if IsQuote(command[i]) then TruePipes(command, !quoted, i + 1)
    else if command[i] == '\\' && i + 1 < |command| then TruePipes(command, quoted, i + 2)
    else if command[i] == '|' && !quoted then [i] + TruePipes(command, quoted, i + 1)
    else TruePipes(command, quoted, i + 1)
  }

  /** A pipe from `i` on that no backslash escapes. */
  predicate HasUnescapedPipe(command: string, i: nat)
    requires i <= |command|
    decreases |command| - i
  {
    if i == |command| then false
    else if command[i] == '\\' && i + 1 < |command| then HasUnescapedPipe(command, i + 2)
    else command[i] == '|' || HasUnescapedPipe(command, i + 1)
  }

  /** The command begins with two equal quotes. */
  predicate BeginsEmptyQuotation(command: string) {
    |command| >= 2 && IsQuote(command[0]) && command[1] == command[0]
  }

  /** Where the text since `start` cannot be a single quote, the guard on quotes is idle and the scan is plain. */
  lemma {:induction false} GuardIsIdle(command: string, start: nat, quoted: bool, i: nat)
    requires start <= i <= |command| && (i > start + 1 || (start < i && command[start] == '|'))
    ensures Pipes(command, start, quoted, i) == TruePipes(command, quoted, i)
    decreases |command| - i
  {
    if i < |command| {
      assert command[start..i][0] == command[start];
      match Look(command, start, quoted, i)
      case Flip => GuardIsIdle(command, start, !quoted, i + 1);
      case Skip => GuardIsIdle(command, start, quoted, i + 2);
      case Pipe => GuardIsIdle(command, i, quoted, i + 1);
      case Other => GuardIsIdle(command, start, quoted, i + 1);
    }
  }

  lemma {:induction false} TruePipesFollow(command: string, quoted: bool, i: nat)
    requires i <= |command|
    ensures forall k :: k in TruePipes(command, quoted, i) ==> i <= k
    decreases |command| - i
  {
    if i < |command| {
      if IsQuote(command[i]) {
        TruePipesFollow(command, !quoted, i + 1);
      } else if command[i] == '\\' && i + 1 < |command| {
        TruePipesFollow(command, quoted, i + 2);
      } else {
        TruePipesFollow(command, quoted, i + 1);
      }
    }
  }

  /** In opposite states of quoting the plain scan sees the same only where there is nothing to see. */
  lemma {:induction false} OppositeQuoting(command: string, quoted: bool, i: nat)
    requires i <= |command|
    ensures TruePipes(command, quoted, i) == TruePipes(command, !quoted, i) <==> !HasUnescapedPipe(command, i)
    decreases |command| - i
  {
    if i < |command| {
      if IsQuote(command[i]) {
        OppositeQuoting(command, !quoted, i + 1);
      } else if command[i] == '\\' && i + 1 < |command| {
        OppositeQuoting(command, quoted, i + 2);
      } else if command[i] == '|' {
        TruePipesFollow(command, true, i + 1);
        var one, other := TruePipes(command, false, i), TruePipes(command, true, i);
        assert one[0] == i && i !in other;
      } else {
        OppositeQuoting(command, quoted, i + 1);
      }
    }
  }

  /** Past the first two characters the scan and plain quoting go the same way, in the same state unless the command
      begins with an empty quotation. */
  lemma PastTheStart(command: string)
    requires |command| >= 2
    ensures BeginsEmptyQuotation(command) ==>
              && Pipes(command, 0, false, 0) == TruePipes(command, true, 2)
              && TruePipes(command, false, 0) == TruePipes(command, false, 2)
    ensures !BeginsEmptyQuotation(command) ==> Pipes(command, 0, false, 0) == TruePipes(command, false, 0)
  {
    assert command[0..0] == [] && command[0..1] == [command[0]];
    match Look(command, 0, false, 0)
    case Skip => GuardIsIdle(command, 0, false, 2);
    case Pipe => GuardIsIdle(command, 0, false, 1);
    case Flip =>
      assert Pipes(command, 0, false, 0) == Pipes(command, 0, true, 1);
      SecondCharacter(command, true);
    case Other =>
      assert Pipes(command, 0, false, 0) == Pipes(command, 0, false, 1);
      SecondCharacter(command, false);
  }

  lemma SecondCharacter(command: string, quoted: bool)
    requires |command| >= 2 && command[0] != '|'
    ensures BeginsEmptyQuotation(command) ==> Pipes(command, 0, quoted, 1) == TruePipes(command, quoted, 2)
    ensures !BeginsEmptyQuotation(command) ==> Pipes(command, 0, quoted, 1) == TruePipes(command, quoted, 1)
  {
    assert command[0..1] == [command[0]];
    match Look(command, 0, quoted, 1)
    case Flip => GuardIsIdle(command, 0, !quoted, 2);
    case Skip => GuardIsIdle(command, 0, quoted, 3);
    case Pipe => GuardIsIdle(command, 1, quoted, 2);
    case Other => GuardIsIdle(command, 0, quoted, 2);
  }

  /** The scan sees exactly the pipes outside quotations and escapes, unless the command begins with an empty quotation
      and has an unescaped pipe behind it; then it is wrong about every one of those pipes. */
  lemma SeesTruePipesIff(command: string)
    ensures Pipes(command, 0, false, 0) == TruePipes(command, false, 0)
            <==> !(BeginsEmptyQuotation(command) && HasUnescapedPipe(command, 2))
  {
    if |command| < 2 {
      assert command != [] ==> command[0..0] == [];
    } else {
      PastTheStart(command);
      OppositeQuoting(command, true, 2);
    }
  }

  /** Such a command: its pipe is not seen. */
  lemma EmptyQuotesHideThePipe()
    ensures Pipes("\"\"|x", 0, false, 0) == [] && TruePipes("\"\"|x", false, 0) == [2]
  {
    var command := "\"\"|x";
    PastTheStart(command);
    assert TruePipes(command, true, 2) == TruePipes(command, true, 3) == TruePipes(command, true, 4);
    assert TruePipes(command, false, 2) == [2] + TruePipes(command, false, 3);
    assert TruePipes(command, false, 3) == TruePipes(command, false, 4);
  }

  // --- the scan against the shell's quoting ------------------------------------------------------------------------

  datatype Quoting = Bare | Single | Double

  /** The pipes a shell sees: a quotation is closed by its own kind of quote, and in single quotes nothing escapes. */
  function ShellPipes(command: string, state: Quoting, i: nat): (pipes: seq<nat>)
    requires i <= |command|
    decreases |command| - i
  {
    if i == |command| then []
    else if state.Single? then ShellPipes(command, if command[i] == '\'' then Bare else Single, i + 1)
    else if command[i] == '\\' && i + 1 < |command| then ShellPipes(command, state, i + 2)
    else if command[i] == '"' then ShellPipes(command, if state.Bare? then Double else Bare, i + 1)
    else if state.Double? then ShellPipes(command, Double, i + 1)
    else if command[i] == '\'' then ShellPipes(command, Single, i + 1)
    else (if command[i] == '|' then [i] else []) + ShellPipes(command, Bare, i + 1)
  }

  /**
   The quotes that mislead the scan: a quote inside a quotation of the other kind, and an apostrophe that closes a
   single quotation behind a backslash. Before every unescaped pipe from `i` on there is an even number of them, `odd`
   telling about those before `i`.
   */
  predicate Balanced(command: string, state: Quoting, odd: bool, i: nat)
    requires i <= |command|
    decreases |command| - i
  {
    if i == |command| then true
    else if command[i] == '\\' && i + 1 < |command| then
      if state.Single? && command[i + 1] == '\'' then Balanced(command, Bare, !odd, i + 2)
      else Balanced(command, state, odd, i + 2)
    else if !IsQuote(command[i]) then (command[i] == '|' ==> !odd) && Balanced(command, state, odd, i + 1)
    else if state.Bare? then Balanced(command, if command[i] == '"' then Double else Single, odd, i + 1)
    else if state.Double? == (command[i] == '"') then Balanced(command, Bare, odd, i + 1)
    else Balanced(command, state, !odd, i + 1)
  }

  lemma {:induction false} ShellPipesFollow(command: string, state: Quoting, i: nat)
    requires i <= |command|
    ensures forall k :: k in ShellPipes(command, state, i) ==> i <= k
    decreases |command| - i
  {
    if i < |command| {
      ShellPipesFollow(command, Bare, i + 1);
      ShellPipesFollow(command, Single, i + 1);
      ShellPipesFollow(command, Double, i + 1);
      if i + 1 < |command| {
        ShellPipesFollow(command, state, i + 2);
      }
    }
  }

  /** In single quotes a backslash and the character behind it are plain, but an apostrophe closes. */
  lemma BackslashInSingle(command: string, i: nat)
    requires i + 1 < |command| && command[i] == '\\'
    ensures ShellPipes(command, Single, i) ==
            ShellPipes(command, if command[i + 1] == '\'' then Bare else Single, i + 2)
  {
    assert ShellPipes(command, Single, i) == ShellPipes(command, Single, i + 1);
  }

  /** At an unescaped pipe, scans in different states of quoting part for good. */
  lemma PipeParts(command: string, state: Quoting, quoted: bool, i: nat)
    requires i < |command| && command[i] == '|' && quoted == state.Bare?
    ensures TruePipes(command, quoted, i) != ShellPipes(command, state, i)
  {
    var t, p := TruePipes(command, quoted, i), ShellPipes(command, state, i);
    TruePipesFollow(command, quoted, i + 1);
    if quoted {
      var rest := TruePipes(command, true, i + 1);
      assert i !in rest;
      assert t == rest && p[0] == i;
    } else {
      ShellPipesFollow(command, state, i + 1);
      var rest := ShellPipes(command, state, i + 1);
      assert i !in rest;
      assert p == rest && t[0] == i;
    }
  }

  lemma SameBehind(p: seq<nat>, x: seq<nat>, y: seq<nat>)
    ensures p + x == p + y <==> x == y
    ensures [] + x == x && [] + y == y
  {
    if p + x == p + y {
      assert x == (p + x)[|p|..] && y == (p + y)[|p|..];
    }
  }

  /** The plain scan, in a state of quoting that differs from the shell's by `odd`, sees the shell's pipes exactly when
      the misleading quotes are balanced. */
  lemma {:induction false} PlainIsShellIff(command: string, state: Quoting, odd: bool, i: nat)
    requires i <= |command|
    ensures TruePipes(command, state.Bare? == odd, i) == ShellPipes(command, state, i)
            <==> Balanced(command, state, odd, i)
    decreases |command| - i
  {
    if i < |command| {
      var c := command[i];
      if c == '\\' && i + 1 < |command| {
        if state.Single? {
          BackslashInSingle(command, i);
          if command[i + 1] == '\'' {
            PlainIsShellIff(command, Bare, !odd, i + 2);
          } else {
            PlainIsShellIff(command, state, odd, i + 2);
          }
        } else {
          PlainIsShellIff(command, state, odd, i + 2);
        }
      } else if IsQuote(c) {
        PlainIsShellAtQuote(command, state, odd, i);
      } else {
        PlainIsShellIff(command, state, odd, i + 1);
        if c == '|' && odd {
          PipeParts(command, state, state.Bare?, i);
        } else {
          SameBehind(if c == '|' && state.Bare? then [i] else [], TruePipes(command, state.Bare? == odd, i + 1),
                     ShellPipes(command, state, i + 1));
        }
      }
    }
  }

  lemma {:induction false} PlainIsShellAtQuote(command: string, state: Quoting, odd: bool, i: nat)
    requires i < |command| && IsQuote(command[i])
    ensures TruePipes(command, state.Bare? == odd, i) == ShellPipes(command, state, i)
            <==> Balanced(command, state, odd, i)
    decreases |command| - i, 0
  {
    if state.Bare? {
      PlainIsShellIff(command, if command[i] == '"' then Double else Single, odd, i + 1);
    } else if state.Double? == (command[i] == '"') {
      PlainIsShellIff(command, Bare, odd, i + 1);
    } else {
      PlainIsShellIff(command, state, !odd, i + 1);
    }
  }

  /** The scan cuts a command where the shell does exactly when the misleading quotes are balanced; an empty quotation
      at the start counts as one. */
  lemma SeesShellPipesIff(command: string)
    ensures Pipes(command, 0, false, 0) == ShellPipes(command, Bare, 0)
            <==> if BeginsEmptyQuotation(command) then Balanced(command, Bare, true, 2)
                 else Balanced(command, Bare, false, 0)
  {
    if BeginsEmptyQuotation(command) {
      PastTheStart(command);
      var quoted := if command[0] == '"' then Double else Single;
      assert ShellPipes(command, Bare, 0) == ShellPipes(command, quoted, 1) == ShellPipes(command, Bare, 2);
      PlainIsShellIff(command, Bare, true, 2);
    } else {
      SeesTruePipesIff(command);
      PlainIsShellIff(command, Bare, false, 0);
    }
  }

  /** A misleading quote: the apostrophe leaves the scan quoted to the end, and the shell's pipe is not seen. */
  lemma ApostropheHidesThePipe()
    ensures Pipes("\"'\"|x", 0, false, 0) == [] && ShellPipes("\"'\"|x", Bare, 0) == [3]
  {
    var command := "\"'\"|x";
    PastTheStart(command);
    assert TruePipes(command, false, 0) == TruePipes(command, true, 1) == TruePipes(command, false, 2);
    assert TruePipes(command, false, 2) == TruePipes(command, true, 3) == TruePipes(command, true, 4);
    assert TruePipes(command, true, 4) == TruePipes(command, true, 5);
    assert ShellPipes(command, Bare, 0) == ShellPipes(command, Double, 1) == ShellPipes(command, Double, 2);
    assert ShellPipes(command, Double, 2) == ShellPipes(command, Bare, 3);
    assert ShellPipes(command, Bare, 3) == [3] + ShellPipes(command, Bare, 4);
    assert ShellPipes(command, Bare, 4) == [] + ShellPipes(command, Bare, 5);
  }
}
