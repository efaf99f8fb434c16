/**
 The active-share lifecycle: any number of share processes, probes and clean-ups that coordinate only through the
 pidfile lock, the pid in that file and an atomically renamed URL file, and that may die at any step.

 A lock belongs to an inode, not to a path: opening creates or finds the path's inode, and unlinking the path
 leaves the open handles of the old inode behind. Every system call is one step.
 */
module ShareLifecycle {
  import opened Basics
  import Decimal
  import Text

  const ATTEMPTS: nat := 5
  const PID_BOUND: nat := 0x1_0000_0000

  /** Where a process stands. The first group is a share daemon, the second a probe, the third a `--stop`, which probes
      the lock for itself, cleans up when it finds it free and signals the recorded pid when it does not, and the
      fourth a parent that waits for the URL of the daemon it spawned, in two reads of the URL file. */
  datatype Pc =
    | Start
    | Trying(ino: nat, remaining: nat)
    | Locked(ino: nat)
    | Truncated(ino: nat)
    | PidWritten(ino: nat)
    | Cleaning(ino: nat)
    | Serving(ino: nat)
    | Writing(ino: nat, url: string, left: seq<string>)
    | Removing(ino: nat)
    | Releasing(ino: nat)
    | ProbeStart
    | ProbeOpen(ino: nat)
    | ProbeHolding(ino: nat)
    | StopStart
    | StopOpen(ino: nat)
    | StopHolding(ino: nat)
    | StopCleaning
    | StopUnlinking
    | StopReading
    | StopSignalled(target: nat)
    | Polling(id: string)
    | OwnerMatched(id: string)
    | Accepted(id: string, accepted: string)
    | Gone

  /** A process: its pid, the spawn id it was given, the URL of its last completed write. */
  datatype Proc = Proc(pid: nat, owner: Option<string>, published: Option<string>, pc: Pc)

  datatype State = State(
    path: Option<nat>,      // the pidfile path's inode
    inodes: seq<string>,    // the contents of every inode ever created there
    url: Option<string>,    // the URL file
    tmp: Option<string>,    // its temporary sibling
    procs: seq<Proc>)

  predicate IsShare(pc: Pc) {
    || pc.Start? || pc.Trying? || pc.Locked? || pc.Truncated? || pc.PidWritten? || pc.Cleaning? || pc.Serving?
    || pc.Writing? || pc.Removing? || pc.Releasing?
  }

  predicate HasHandle(pc: Pc) {
    (IsShare(pc) && !pc.Start?) || pc.ProbeOpen? || pc.ProbeHolding? || pc.StopOpen? || pc.StopHolding?
  }

  predicate Holds(pc: Pc) {
    HasHandle(pc) && !pc.Trying? && !pc.ProbeOpen? && !pc.StopOpen?
  }

  predicate Recorded(pc: Pc) {
    pc.PidWritten? || Cleaned(pc) || pc.Cleaning?
  }

  /** From the stale clean-up to the final removal, the URL file is this process's business. */
  predicate Cleaned(pc: Pc) {
    pc.Serving? || pc.Writing? || pc.Removing? || pc.Releasing?
  }

  predicate Busy(s: State, ino: nat) {
    exists q :: 0 <= q < |s.procs| && Holds(s.procs[q].pc) && s.procs[q].pc.ino == ino
  }

  /** What `write_url_file` writes, in the pieces it writes it in. */
  function Pieces(url: string, owner: Option<string>): seq<string> {
    [url, "\n"] + (if owner.Some? then [owner.value, "\n"] else [])
  }

  function FileText(url: string, owner: Option<string>): string {
    Concat(Pieces(url, owner))
  }

  function ReadUrl(contents: string): (r: Option<string>) {
    var line := Text.Trim(Text.Head(contents));
    if line == [] then None else Some(line)
  }

  function ReadOwner(contents: string): (r: Option<string>) {
    ReadUrl(Text.Tail(contents))
  }

  function ReadPid(contents: string): (r: Option<nat>) {
    Decimal.Parse(Text.Trim(Text.Head(contents)), PID_BOUND)
  }

  // --- steps ----------------------------------------------------------------------------------------------

  function Move(s: State, p: nat, pc: Pc): State
    requires p < |s.procs|
  {
    s.(procs := s.procs[p := s.procs[p].(pc := pc)])
  }

  function Fill(s: State, ino: nat, contents: string): State
    requires ino < |s.inodes|
  {
    s.(inodes := s.inodes[ino := contents])
  }

  /** One system call of a share daemon, other than its death. */
  ghost predicate ShareCall(s: State, p: nat, s': State)
    requires p < |s.procs| && (HasHandle(s.procs[p].pc) ==> s.procs[p].pc.ino < |s.inodes|)
  {
    var me := s.procs[p];
    match me.pc
    case Start =>
      if s.path.Some? then s' == Move(s, p, Trying(s.path.value, ATTEMPTS))
      else s' == Move(s.(path := Some(|s.inodes|), inodes := s.inodes + [""]), p, Trying(|s.inodes|, ATTEMPTS))
    case Trying(ino, remaining) =>
      s' == Move(s, p, if !Busy(s, ino) then Locked(ino) else if remaining == 0 then Gone
                       else Trying(ino, remaining - 1))
    case Locked(ino) => s' == Move(Fill(s, ino, ""), p, Truncated(ino))
    case Truncated(ino) => s' == Move(Fill(s, ino, Decimal.Print(me.pid)), p, PidWritten(ino))
    case PidWritten(ino) => s' == Move(Fill(s, ino, s.inodes[ino] + "\n"), p, Cleaning(ino))
    case Cleaning(ino) => s' == Move(s.(url := None), p, Serving(ino))
    case Serving(ino) =>
      || s' == Move(s, p, Removing(ino))
      || exists url: string :: s' == Move(s.(tmp := Some("")), p, Writing(ino, url, Pieces(url, me.owner)))
    case Writing(ino, url, left) =>
      || s' == Move(s, p, Serving(ino))    // a failed write does not end the session
      || (left != [] && s.tmp.Some?
          && s' == Move(s.(tmp := Some(s.tmp.value + left[0])), p, Writing(ino, url, left[1..])))
      || (left == [] && s.tmp.Some? && s' == Published(s, p, url, ino))
    case Removing(ino) => s' == Move(s.(url := None), p, Releasing(ino))
    case Releasing(ino) => s' == Move(s, p, Gone)
    case _ => false
  }

  /** The rename that completes a write of the URL file. */
  function Published(s: State, p: nat, url: string, ino: nat): State
    requires p < |s.procs|
  {
    s.(url := s.tmp, tmp := None, procs := s.procs[p := s.procs[p].(published := Some(url), pc := Serving(ino))])
  }

  /** Where a probe, a `--stop` or a waiting parent goes next. */
  function ToolPc(s: State, pc: Pc): (r: Pc)
    requires !IsShare(pc)
    ensures !IsShare(r)
    ensures Holds(r) ==> HasHandle(pc) && r.ino == pc.ino && !Busy(s, r.ino)
    ensures HasHandle(r) ==> (HasHandle(pc) && r.ino == pc.ino) || s.path == Some(r.ino)
  {
    match pc
    case ProbeStart => if s.path.Some? then ProbeOpen(s.path.value) else Gone
    case ProbeOpen(ino) => if !Busy(s, ino) then ProbeHolding(ino) else Gone
    case StopStart => if s.path.Some? then StopOpen(s.path.value) else StopCleaning
    case StopOpen(ino) => if !Busy(s, ino) then StopHolding(ino) else StopReading
    case StopHolding(_) => StopCleaning
    case StopCleaning => StopUnlinking
    case StopReading =>
      if s.path.Some? && s.path.value < |s.inodes| && ReadPid(s.inodes[s.path.value]).Some?
      then StopSignalled(ReadPid(s.inodes[s.path.value]).value) else Gone
    case Polling(id) =>
      if s.url.Some? && ReadOwner(s.url.value) == Some(id) then OwnerMatched(id) else Polling(id)
    case OwnerMatched(id) =>
      if s.url.Some? && ReadUrl(s.url.value).Some? then Accepted(id, ReadUrl(s.url.value).value) else Polling(id)
    case _ => Gone
  }

  /** One system call of such a process. Of the files, only a `--stop` that found the lock free removes any. */
  ghost predicate ToolCall(s: State, p: nat, s': State)
    requires p < |s.procs| && !IsShare(s.procs[p].pc)
  {
    var pc := s.procs[p].pc;
    && !pc.Gone? && !pc.Accepted?
    && s' == Move(s.(url := if pc.StopCleaning? then None else s.url,
                     path := if pc.StopUnlinking? then None else s.path), p, ToolPc(s, pc))
  }

  /** One system call of process `p`, other than its death. */
  ghost predicate Call(s: State, p: nat, s': State)
    requires p < |s.procs| && (HasHandle(s.procs[p].pc) ==> s.procs[p].pc.ino < |s.inodes|)
  {
    if IsShare(s.procs[p].pc) then ShareCall(s, p, s') else ToolCall(s, p, s')
  }

  datatype Step =
    | Does(p: nat)                                   // a system call of a running process
    | Dies(p: nat)                                   // a crash, a kill or an early error return: the lock is released
    | Spawns(pid: nat, owner: Option<string>)        // a new share daemon
    | Probes                                         // a new probe
    | Stops                                          // a new `--stop`
    | Awaits(id: string)                             // a new parent, waiting for the share it gave this spawn id
    | RemovesUrl                                     // a clean-up of the URL file from outside the lock

  ghost predicate Next(s: State, step: Step, s': State) {
    match step
    case Does(p) => p < |s.procs| && (HasHandle(s.procs[p].pc) ==> s.procs[p].pc.ino < |s.inodes|) && Call(s, p, s')
    case Dies(p) => p < |s.procs| && s' == Move(s, p, Gone)
    case Spawns(pid, owner) => pid < PID_BOUND && s' == s.(procs := s.procs + [Proc(pid, owner, None, Start)])
    case Probes => s' == s.(procs := s.procs + [Proc(0, None, None, ProbeStart)])
    case Stops => s' == s.(procs := s.procs + [Proc(0, None, None, StopStart)])
    case Awaits(id) => s' == s.(procs := s.procs + [Proc(0, None, None, Polling(id))])
    case RemovesUrl => s' == s.(url := None)
  }

  /** Any leftovers of earlier sessions may be lying around; nobody is running. */
  ghost predicate Init(s: State) {
    s.procs == [] && (s.path.Some? ==> s.path.value < |s.inodes|)
  }

  ghost predicate Run(states: seq<State>, steps: seq<Step>) {
    && |states| == |steps| + 1 && Init(states[0])
    && forall i :: 0 <= i < |steps| ==> Next(states[i], steps[i], states[i + 1])
  }

  predicate Unopened(s: State) {
    forall q :: 0 <= q < |s.procs| ==> !HasHandle(s.procs[q].pc)
  }

  /** The step by which a `--stop` that found the lock free removes the pidfile. */
  predicate Unlinks(s: State, step: Step) {
    step.Does? && step.p < |s.procs| && s.procs[step.p].pc.StopUnlinking?
  }

  /** The runs in which the pidfile is unlinked only while nobody has it open. */
  ghost predicate OrderlyRun(states: seq<State>, steps: seq<Step>) {
    && Run(states, steps)
    && forall i :: 0 <= i < |steps| && Unlinks(states[i], steps[i]) ==> Unopened(states[i])
  }

  // --- what every step of every run keeps -------------------------------------------------------------------

  predicate HoldsInode(pc: Pc, ino: nat) {
    Holds(pc) && pc.ino == ino
  }

  /** A handle names an existing inode, and a holder that has written its pid still finds it there. */
  predicate GoodProc(inodes: seq<string>, me: Proc) {
    && me.pid < PID_BOUND
    && (HasHandle(me.pc) ==> me.pc.ino < |inodes|)
    && (Recorded(me.pc) ==> inodes[me.pc.ino] == Decimal.Print(me.pid) + (if me.pc.PidWritten? then "" else "\n"))
  }

  /** All processes are good and no inode is held by two of them. */
  ghost predicate Inv(s: State) {
    && (s.path.Some? ==> s.path.value < |s.inodes|)
    && (forall p :: 0 <= p < |s.procs| ==> GoodProc(s.inodes, s.procs[p]))
    && (forall p, q, ino ::
          0 <= p < q < |s.procs| && HoldsInode(s.procs[p].pc, ino) ==> !HoldsInode(s.procs[q].pc, ino))
  }

  /** Process `p` may change only itself and the inode it holds, and starts to hold only an inode that is free. */
  ghost predicate Local(s: State, p: nat, s': State)
    requires p < |s.procs|
  {
    && |s'.procs| == |s.procs| && |s'.inodes| >= |s.inodes|
    && (forall q :: 0 <= q < |s.procs| && q != p ==> s'.procs[q] == s.procs[q])
    && (forall ino :: 0 <= ino < |s.inodes| && !HoldsInode(s.procs[p].pc, ino) ==> s'.inodes[ino] == s.inodes[ino])
    && (Holds(s'.procs[p].pc) ==> HoldsInode(s.procs[p].pc, s'.procs[p].pc.ino) || !Busy(s, s'.procs[p].pc.ino))
  }

  lemma OthersStayGood(s: State, p: nat, s': State, q: nat)
    requires Inv(s) && p < |s.procs| && q < |s.procs| && q != p && Local(s, p, s')
    ensures GoodProc(s'.inodes, s'.procs[q])
  {
    var me := s.procs[q];
    assert GoodProc(s.inodes, me);
    if Recorded(me.pc) {
      assert HoldsInode(me.pc, me.pc.ino);
      assert !HoldsInode(s.procs[p].pc, me.pc.ino);
    }
  }

  lemma LocalKeepsInv(s: State, p: nat, s': State)
    requires Inv(s) && p < |s.procs| && Local(s, p, s')
    requires s'.path.Some? ==> s'.path.value < |s'.inodes|
    requires GoodProc(s'.inodes, s'.procs[p])
    ensures Inv(s')
  {
    forall q | 0 <= q < |s.procs|
      ensures GoodProc(s'.inodes, s'.procs[q])
    {
      if q != p {
        OthersStayGood(s, p, s', q);
      }
    }
    forall a, b, ino | 0 <= a < b < |s'.procs| && HoldsInode(s'.procs[a].pc, ino)
      ensures !HoldsInode(s'.procs[b].pc, ino)
    {
      assert a != p ==> HoldsInode(s.procs[a].pc, ino);
    }
  }

  lemma ShareIsLocal(s: State, p: nat, s': State)
    requires Inv(s) && p < |s.procs| && GoodProc(s.inodes, s.procs[p]) && ShareCall(s, p, s')
    ensures Local(s, p, s')
  {
  }

  lemma ToolIsLocal(s: State, p: nat, s': State)
    requires Inv(s) && p < |s.procs| && !IsShare(s.procs[p].pc) && ToolCall(s, p, s')
    ensures Local(s, p, s')
  {
  }

  lemma ShareKeepsGood(s: State, p: nat, s': State)
    requires Inv(s) && p < |s.procs| && GoodProc(s.inodes, s.procs[p]) && ShareCall(s, p, s')
    ensures |s'.procs| == |s.procs| && GoodProc(s'.inodes, s'.procs[p])
    ensures s'.path.Some? ==> s'.path.value < |s'.inodes|
  {
  }

  lemma ToolKeepsGood(s: State, p: nat, s': State)
    requires Inv(s) && p < |s.procs| && !IsShare(s.procs[p].pc) && ToolCall(s, p, s')
    ensures |s'.procs| == |s.procs| && GoodProc(s'.inodes, s'.procs[p])
    ensures s'.path.Some? ==> s'.path.value < |s'.inodes|
  {
    assert GoodProc(s.inodes, s.procs[p]);
  }

  lemma CallKeepsInv(s: State, p: nat, s': State)
    requires Inv(s) && p < |s.procs| && GoodProc(s.inodes, s.procs[p]) && Call(s, p, s')
    ensures Inv(s')
  {
    if IsShare(s.procs[p].pc) {
      ShareIsLocal(s, p, s');
      ShareKeepsGood(s, p, s');
    } else {
      ToolIsLocal(s, p, s');
      ToolKeepsGood(s, p, s');
    }
    LocalKeepsInv(s, p, s');
  }

  /** A new process has nothing open yet. */
  lemma ArrivalKeepsInv(s: State, me: Proc)
    requires Inv(s) && me.pid < PID_BOUND && !HasHandle(me.pc)
    ensures Inv(s.(procs := s.procs + [me]))
  {
    var procs := s.procs + [me];
    assert forall q :: 0 <= q < |s.procs| ==> procs[q] == s.procs[q];
  }

  lemma InvStep(s: State, step: Step, s': State)
    requires Inv(s) && Next(s, step, s')
    ensures Inv(s')
  {
    match step
    case Does(p) => CallKeepsInv(s, p, s');
    case Dies(p) => LocalKeepsInv(s, p, s');
    case RemovesUrl =>
    case _ => ArrivalKeepsInv(s, s'.procs[|s.procs|]);
  }

  lemma {:induction false} RunKeepsInv(states: seq<State>, steps: seq<Step>, i: nat)
    requires Run(states, steps) && i < |states|
    ensures Inv(states[i])
  {
    if i > 0 {
      RunKeepsInv(states, steps, i - 1);
      InvStep(states[i - 1], steps[i - 1], states[i]);
    }
  }

  /** In every run, orderly or not, no inode is locked twice, and whoever holds one and has written its pid there can
      be aimed at: the file's first line is that pid. */
  lemma HolderIsRecorded(states: seq<State>, steps: seq<Step>, i: nat, p: nat)
    requires Run(states, steps) && i < |states| && p < |states[i].procs|
    requires Recorded(states[i].procs[p].pc)
    ensures var s := states[i];
            && s.procs[p].pc.ino < |s.inodes| && ReadPid(s.inodes[s.procs[p].pc.ino]) == Some(s.procs[p].pid)
            && (forall q :: 0 <= q < |s.procs| && HoldsInode(s.procs[q].pc, s.procs[p].pc.ino) ==> q == p)
  {
    RunKeepsInv(states, steps, i);
    var me := states[i].procs[p];
    assert GoodProc(states[i].inodes, me);
    PidReadsBack(me.pid);
    assert Decimal.Print(me.pid) + "" == Decimal.Print(me.pid);
    assert HoldsInode(me.pc, me.pc.ino);
  }

  lemma PidReadsBack(pid: nat)
    requires pid < PID_BOUND
    ensures ReadPid(Decimal.Print(pid)) == Some(pid) && ReadPid(Decimal.Print(pid) + "\n") == Some(pid)
  {
    var digits := Decimal.Print(pid);
    forall i | 0 <= i < |digits|
      ensures !Text.IsWhitespace(digits[i])
    {
      assert Decimal.IsDigit(digits[i]);
    }
    Text.WholeLine(digits);
    Text.SplitLine(digits, "");
    assert digits + "\n" == digits + ['\n'] + "";
    Decimal.ParsePrint(pid, PID_BOUND);
  }

  // --- giving up ----------------------------------------------------------------------------------------------

  /** Process `p` asks for the lock and finds it held. */
  predicate TriesInVain(s: State, step: Step, p: nat) {
    step == Does(p) && p < |s.procs| && s.procs[p].pc.Trying? && Busy(s, s.procs[p].pc.ino)
  }

  /** How often it did so among the first `i` steps. */
  ghost function VainTries(states: seq<State>, steps: seq<Step>, p: nat, i: nat): nat
    requires |states| == |steps| + 1 && i <= |steps|
  {
    if i == 0 then 0
    else VainTries(states, steps, p, i - 1) + (if TriesInVain(states[i - 1], steps[i - 1], p) then 1 else 0)
  }

  lemma OnlyItsOwnSteps(s: State, step: Step, s': State, p: nat)
    requires Next(s, step, s') && p < |s.procs| && step != Does(p) && step != Dies(p)
    ensures |s'.procs| >= |s.procs| && s'.procs[p] == s.procs[p]
  {
  }

  /** Where a process stands in its tries, by its own steps. */
  predicate Counted(s: State, p: nat, tries: nat) {
    if p >= |s.procs| || s.procs[p].pc.Start? then tries == 0
    else s.procs[p].pc.Trying? ==> tries + s.procs[p].pc.remaining == 5
  }

  lemma OwnStepCounts(s: State, step: Step, s': State, p: nat, tries: nat)
    requires Next(s, step, s') && step == Does(p) && Counted(s, p, tries)
    ensures Counted(s', p, tries + if TriesInVain(s, step, p) then 1 else 0)
  {
  }

  lemma StepCounts(s: State, step: Step, s': State, p: nat, tries: nat)
    requires Next(s, step, s') && Counted(s, p, tries)
    ensures Counted(s', p, tries + if TriesInVain(s, step, p) then 1 else 0)
  {
    if step == Does(p) {
      OwnStepCounts(s, step, s', p, tries);
    } else if p < |s.procs| && step != Dies(p) {
      OnlyItsOwnSteps(s, step, s', p);
    }
  }

  lemma {:induction false} TriesAreCounted(states: seq<State>, steps: seq<Step>, p: nat, i: nat)
    requires Run(states, steps) && i <= |steps|
    ensures Counted(states[i], p, VainTries(states, steps, p, i))
  {
    if i > 0 {
      TriesAreCounted(states, steps, p, i - 1);
      StepCounts(states[i - 1], steps[i - 1], states[i], p, VainTries(states, steps, p, i - 1));
    }
  }

  /** A share gives up only after six tries that all found the lock held: one that finds it free on any of them, a probe
      having let go, goes on. */
  lemma GivesUpAfterSixTries(states: seq<State>, steps: seq<Step>, p: nat, i: nat)
    requires Run(states, steps) && i < |steps| && steps[i] == Does(p)
    requires p < |states[i].procs| && states[i].procs[p].pc.Trying?
    ensures p < |states[i + 1].procs|
    ensures states[i + 1].procs[p].pc.Gone? <==>
            TriesInVain(states[i], steps[i], p) && VainTries(states, steps, p, i + 1) == 6
    ensures !TriesInVain(states[i], steps[i], p) ==> Holds(states[i + 1].procs[p].pc)
  {
    TriesAreCounted(states, steps, p, i);
    assert Next(states[i], steps[i], states[i + 1]);
  }

  // --- what orderly runs keep besides -----------------------------------------------------------------------

  predicate OneHolder(s: State) {
    forall p, q :: 0 <= p < |s.procs| && 0 <= q < |s.procs| && Holds(s.procs[p].pc) && Holds(s.procs[q].pc) ==> p == q
  }

  /** What a process may rely on while the URL file is its business. */
  predicate OwnsUrl(url: Option<string>, tmp: Option<string>, me: Proc) {
    && (Cleaned(me.pc) && url.Some? ==> me.published.Some? && url.value == FileText(me.published.value, me.owner))
    && (me.pc.Writing? ==> tmp.Some? && tmp.value + Concat(me.pc.left) == FileText(me.pc.url, me.owner))
    && (me.pc.Releasing? ==> url.None?)
  }

  predicate FromSomebody(url: Option<string>, before: Option<string>, procs: seq<Proc>) {
    url.None? || url == before
    || exists q :: 0 <= q < |procs| && procs[q].published.Some?
        && url.value == FileText(procs[q].published.value, procs[q].owner)
  }

  /** Every handle is of the path's present inode; the URL file is complete and is its holder's, if there is one.
      `before` is the URL file an earlier session left behind. */
  ghost predicate Orderly(s: State, before: Option<string>) {
    && Inv(s)
    && (forall p :: 0 <= p < |s.procs| && HasHandle(s.procs[p].pc) ==> s.path == Some(s.procs[p].pc.ino))
    && (forall p :: 0 <= p < |s.procs| ==> OwnsUrl(s.url, s.tmp, s.procs[p]))
    && FromSomebody(s.url, before, s.procs)
  }

  lemma OrderlyHasOneHolder(s: State, before: Option<string>)
    requires Orderly(s, before)
    ensures OneHolder(s)
  {
    forall p, q | 0 <= p < q < |s.procs| && Holds(s.procs[p].pc) && Holds(s.procs[q].pc)
      ensures false
    {
      assert HoldsInode(s.procs[p].pc, s.path.value);
      assert HoldsInode(s.procs[q].pc, s.path.value);
    }
  }

  lemma ShareKeepsOwnUrl(s: State, p: nat, s': State)
    requires p < |s.procs| && OwnsUrl(s.url, s.tmp, s.procs[p]) && GoodProc(s.inodes, s.procs[p])
    requires ShareCall(s, p, s')
    ensures |s'.procs| == |s.procs| && OwnsUrl(s'.url, s'.tmp, s'.procs[p])
  {
    var me := s.procs[p];
    if me.pc.Writing? && me.pc.left != [] && s.tmp.Some? {
      assert s.tmp.value + me.pc.left[0] + Concat(me.pc.left[1..]) == s.tmp.value + Concat(me.pc.left);
    }
  }

  /** Only a holder writes the URL file or its sibling; anybody else at most removes the file. */
  lemma OnlyHoldersWriteUrl(s: State, p: nat, s': State)
    requires p < |s.procs| && GoodProc(s.inodes, s.procs[p]) && Call(s, p, s')
    ensures |s'.procs| == |s.procs| && forall q :: 0 <= q < |s.procs| && q != p ==> s'.procs[q] == s.procs[q]
    ensures !Holds(s.procs[p].pc) || !IsShare(s.procs[p].pc) ==> s'.tmp == s.tmp && (s'.url == s.url || s'.url.None?)
  {
  }

  lemma CallKeepsUrl(s: State, before: Option<string>, p: nat, s': State)
    requires Orderly(s, before) && OneHolder(s) && p < |s.procs| && GoodProc(s.inodes, s.procs[p]) && Call(s, p, s')
    ensures |s'.procs| == |s.procs| && forall q :: 0 <= q < |s.procs| ==> OwnsUrl(s'.url, s'.tmp, s'.procs[q])
  {
    assert OwnsUrl(s.url, s.tmp, s.procs[p]);
    if IsShare(s.procs[p].pc) {
      ShareKeepsOwnUrl(s, p, s');
    }
    OnlyHoldersWriteUrl(s, p, s');
    forall q | 0 <= q < |s.procs| && q != p
      ensures OwnsUrl(s'.url, s'.tmp, s'.procs[q])
    {
      assert OwnsUrl(s.url, s.tmp, s.procs[q]);
    }
  }

  lemma ShareKeepsSource(s: State, before: Option<string>, p: nat, s': State)
    requires Orderly(s, before) && p < |s.procs| && GoodProc(s.inodes, s.procs[p]) && ShareCall(s, p, s')
    ensures FromSomebody(s'.url, before, s'.procs)
  {
    var me := s.procs[p];
    assert OwnsUrl(s.url, s.tmp, me);
    if s'.url == s.url && s.url.Some? && s.url != before {
      var q :| 0 <= q < |s.procs| && s.procs[q].published.Some?
               && s.url.value == FileText(s.procs[q].published.value, s.procs[q].owner);
      if s'.procs[p].published == me.published {
        assert s'.procs[q].published == s.procs[q].published && s'.procs[q].owner == s.procs[q].owner;
      } else {
        assert s'.procs[p].published.Some?;
      }
    } else if s'.url.Some? && s'.url != s.url {
      assert s'.url.value == FileText(s'.procs[p].published.value, s'.procs[p].owner);
    }
  }

  lemma ShareKeepsHandles(s: State, before: Option<string>, p: nat, s': State)
    requires Orderly(s, before) && p < |s.procs| && GoodProc(s.inodes, s.procs[p]) && ShareCall(s, p, s')
    ensures forall q :: 0 <= q < |s'.procs| && HasHandle(s'.procs[q].pc) ==> s'.path == Some(s'.procs[q].pc.ino)
  {
    assert |s'.procs| == |s.procs| && forall q :: 0 <= q < |s.procs| && q != p ==> s'.procs[q] == s.procs[q];
  }

  lemma ToolKeepsHandles(s: State, before: Option<string>, p: nat, s': State)
    requires Orderly(s, before) && p < |s.procs| && !IsShare(s.procs[p].pc) && ToolCall(s, p, s')
    requires s.procs[p].pc.StopUnlinking? ==> Unopened(s)
    ensures forall q :: 0 <= q < |s'.procs| && HasHandle(s'.procs[q].pc) ==> s'.path == Some(s'.procs[q].pc.ino)
  {
    assert |s'.procs| == |s.procs| && forall q :: 0 <= q < |s.procs| && q != p ==> s'.procs[q] == s.procs[q];
  }

  /** Where the URL file came from is untouched by whatever neither writes it nor publishes. */
  lemma SourceStays(s: State, before: Option<string>, s': State)
    requires FromSomebody(s.url, before, s.procs) && (s'.url == s.url || s'.url.None?) && |s.procs| <= |s'.procs|
    requires forall q :: 0 <= q < |s.procs| ==>
               s'.procs[q].published == s.procs[q].published && s'.procs[q].owner == s.procs[q].owner
    ensures FromSomebody(s'.url, before, s'.procs)
  {
    if s'.url.Some? && s.url != before {
      var q :| 0 <= q < |s.procs| && s.procs[q].published.Some?
               && s.url.value == FileText(s.procs[q].published.value, s.procs[q].owner);
      assert s'.procs[q].published == s.procs[q].published && s'.procs[q].owner == s.procs[q].owner;
    }
  }

  lemma OrderlyCall(s: State, before: Option<string>, p: nat, s': State)
    requires Orderly(s, before) && Inv(s') && p < |s.procs| && GoodProc(s.inodes, s.procs[p]) && Call(s, p, s')
    requires s.procs[p].pc.StopUnlinking? ==> Unopened(s)
    ensures Orderly(s', before)
  {
    OrderlyHasOneHolder(s, before);
    CallKeepsUrl(s, before, p, s');
    if IsShare(s.procs[p].pc) {
      ShareKeepsHandles(s, before, p, s');
      ShareKeepsSource(s, before, p, s');
    } else {
      ToolKeepsHandles(s, before, p, s');
      SourceStays(s, before, s');
    }
  }

  lemma ArrivalKeepsOrderly(s: State, before: Option<string>, me: Proc)
    requires Orderly(s, before) && me.pid < PID_BOUND && !HasHandle(me.pc)
    ensures Orderly(s.(procs := s.procs + [me]), before)
  {
    var s' := s.(procs := s.procs + [me]);
    ArrivalKeepsInv(s, me);
    assert forall q :: 0 <= q < |s.procs| ==> s'.procs[q] == s.procs[q];
    SourceStays(s, before, s');
  }

  lemma DeathKeepsOrderly(s: State, before: Option<string>, p: nat)
    requires Orderly(s, before) && p < |s.procs| && Inv(Move(s, p, Gone))
    ensures Orderly(Move(s, p, Gone), before)
  {
    SourceStays(s, before, Move(s, p, Gone));
  }

  lemma OrderlyStep(s: State, before: Option<string>, step: Step, s': State)
    requires Orderly(s, before) && Next(s, step, s') && (Unlinks(s, step) ==> Unopened(s))
    ensures Orderly(s', before)
  {
    InvStep(s, step, s');
    match step
    case Does(p) => OrderlyCall(s, before, p, s');
    case Dies(p) => DeathKeepsOrderly(s, before, p);
    case RemovesUrl =>
    case _ => ArrivalKeepsOrderly(s, before, s'.procs[|s.procs|]);
  }

  lemma {:induction false} OrderlyRunKeeps(states: seq<State>, steps: seq<Step>, i: nat)
    requires OrderlyRun(states, steps) && i < |states|
    ensures Orderly(states[i], states[0].url)
  {
    if i > 0 {
      OrderlyRunKeeps(states, steps, i - 1);
      OrderlyStep(states[i - 1], states[0].url, steps[i - 1], states[i]);
    }
  }

  // --- the promises ---------------------------------------------------------------------------------------------

  /** At most one process holds the lock, whatever dies when. */
  lemma AtMostOneHolder(states: seq<State>, steps: seq<Step>, i: nat)
    requires OrderlyRun(states, steps) && i < |states|
    ensures OneHolder(states[i])
  {
    OrderlyRunKeeps(states, steps, i);
    OrderlyHasOneHolder(states[i], states[0].url);
  }

  /** From its pid write until it lets go, a share finds its own pid on the first line of the file at the path. */
  lemma PidfileNamesTheHolder(states: seq<State>, steps: seq<Step>, i: nat, p: nat)
    requires OrderlyRun(states, steps) && i < |states| && p < |states[i].procs| && Recorded(states[i].procs[p].pc)
    ensures var s := states[i];
            s.path.Some? && s.path.value < |s.inodes| && ReadPid(s.inodes[s.path.value]) == Some(s.procs[p].pid)
  {
    OrderlyRunKeeps(states, steps, i);
    HolderIsRecorded(states, steps, i, p);
  }

  /** After its stale clean-up, any URL file a share finds is one it wrote itself, whole, with its own spawn id. */
  lemma UrlFileIsTheHolders(states: seq<State>, steps: seq<Step>, i: nat, p: nat)
    requires OrderlyRun(states, steps) && i < |states| && p < |states[i].procs|
    requires Cleaned(states[i].procs[p].pc) && states[i].url.Some?
    ensures var me := states[i].procs[p];
            && me.published.Some? && states[i].url.value == FileText(me.published.value, me.owner)
            && (me.published.value != [] && Text.NoWhitespace(me.published.value) ==>
                  ReadUrl(states[i].url.value) == me.published)
  {
    OrderlyRunKeeps(states, steps, i);
    var me := states[i].procs[p];
    assert OwnsUrl(states[i].url, states[i].tmp, me);
    if me.published.value != [] && Text.NoWhitespace(me.published.value) {
      FileReadsBack(me.published.value, me.owner);
    }
  }

  /** A share that held the lock and ends by itself leaves no URL file. */
  lemma EndedShareLeavesNoUrl(states: seq<State>, steps: seq<Step>, i: nat, p: nat)
    requires OrderlyRun(states, steps) && i < |steps| && steps[i] == Does(p) && p < |states[i].procs|
    requires IsShare(states[i].procs[p].pc) && Holds(states[i].procs[p].pc)
    requires p < |states[i + 1].procs| && states[i + 1].procs[p].pc.Gone?
    ensures states[i].url.None? && states[i + 1].url.None?
  {
    OrderlyRunKeeps(states, steps, i);
    assert Next(states[i], steps[i], states[i + 1]);
    assert OwnsUrl(states[i].url, states[i].tmp, states[i].procs[p]);
  }

  lemma FileReadsBack(url: string, owner: Option<string>)
    requires url != [] && Text.NoWhitespace(url)
    ensures ReadUrl(FileText(url, owner)) == Some(url)
    ensures owner.None? ==> ReadOwner(FileText(url, owner)) == None
    ensures owner.Some? && owner.value != [] && Text.NoWhitespace(owner.value)
        ==> ReadOwner(FileText(url, owner)) == owner
  {
    var rest := Concat(Pieces(url, owner)[2..]);
    assert FileText(url, owner) == url + ['\n'] + rest by {
      assert Pieces(url, owner)[1..][1..] == Pieces(url, owner)[2..];
      assert Concat(Pieces(url, owner)[1..]) == "\n" + rest;
    }
    Text.SplitLine(url, rest);
    if owner.Some? {
      assert Pieces(url, owner)[2..] == [owner.value, "\n"];
      assert Concat([owner.value, "\n"]) == owner.value + Concat(["\n"]) by {
        assert [owner.value, "\n"][1..] == ["\n"];
      }
      assert Concat(["\n"]) == "\n" by {
        assert ["\n"][1..] == [];
      }
      if Text.NoWhitespace(owner.value) {
        Text.SplitLine(owner.value, "");
        assert owner.value + "\n" == owner.value + ['\n'] + "";
      }
    } else {
      assert Pieces(url, owner)[2..] == [];
    }
  }

  predicate Tidy(s: string) {
    s != [] && Text.NoWhitespace(s)
  }

  /** The URL file is one that a process given this spawn id published. */
  predicate ChildsFile(s: State, id: string) {
    exists q :: && 0 <= q < |s.procs| && s.procs[q].owner == Some(id) && s.procs[q].published.Some?
                && s.url == Some(FileText(s.procs[q].published.value, Some(id)))
  }

  /** What processes write reads back: spawn ids and URLs are not empty and hold no white space. */
  predicate TidyProc(me: Proc) {
    && (me.owner.Some? ==> Tidy(me.owner.value)) && (me.published.Some? ==> Tidy(me.published.value))
    && (me.pc.Writing? ==> Tidy(me.pc.url))
  }

  predicate TidyState(s: State) {
    forall p :: 0 <= p < |s.procs| ==> TidyProc(s.procs[p])
  }

  /** A file carries a spawn id exactly when a process given that id published it. */
  lemma CarriesIdIff(states: seq<State>, steps: seq<Step>, i: nat, id: string)
    requires OrderlyRun(states, steps) && i < |states| && TidyState(states[i]) && states[i].url.Some?
    requires states[0].url.Some? ==> ReadOwner(states[0].url.value) != Some(id)
    ensures ReadOwner(states[i].url.value) == Some(id) <==> ChildsFile(states[i], id)
  {
    OrderlyRunKeeps(states, steps, i);
    var s := states[i];
    if ReadOwner(s.url.value) == Some(id) {
      var q :| 0 <= q < |s.procs| && s.procs[q].published.Some?
               && s.url.value == FileText(s.procs[q].published.value, s.procs[q].owner);
      assert TidyProc(s.procs[q]);
      FileReadsBack(s.procs[q].published.value, s.procs[q].owner);
      assert s.procs[q].owner == Some(id);
    }
    if ChildsFile(s, id) {
      var q :| 0 <= q < |s.procs| && s.procs[q].owner == Some(id) && s.procs[q].published.Some?
               && s.url == Some(FileText(s.procs[q].published.value, Some(id)));
      assert TidyProc(s.procs[q]);
      FileReadsBack(s.procs[q].published.value, Some(id));
    }
  }

  /** The parent, having matched the owner line, accepts whatever URL its second read finds; that is the URL of a
      process it gave its spawn id exactly when the file still carries the id at that read. */
  lemma AcceptedIsTheChildsIff(states: seq<State>, steps: seq<Step>, i: nat, parent: nat, id: string)
    requires OrderlyRun(states, steps) && i < |steps| && steps[i] == Does(parent) && TidyState(states[i])
    requires parent < |states[i].procs| && states[i].procs[parent].pc == OwnerMatched(id)
    requires states[0].url.Some? ==> ReadOwner(states[0].url.value) != Some(id)
    requires states[i].url.Some? && ReadUrl(states[i].url.value).Some?
    ensures |states[i + 1].procs| == |states[i].procs|
    ensures states[i + 1].procs[parent].pc == Accepted(id, ReadUrl(states[i].url.value).value)
    ensures ChildsFile(states[i], id) <==> ReadOwner(states[i].url.value) == Some(id)
  {
    CarriesIdIff(states, steps, i, id);
    assert Next(states[i], steps[i], states[i + 1]);
  }

  /** The step completes a write of the URL file. */
  predicate Publishes(s: State, step: Step, s': State) {
    && step.Does? && step.p < |s.procs| && s.procs[step.p].pc.Writing? && s.procs[step.p].pc.left == [] && s.tmp.Some?
    && s' == Published(s, step.p, s.procs[step.p].pc.url, s.procs[step.p].pc.ino)
  }

  /** Only a completed write puts anything into the URL file. */
  lemma UrlChanges(s: State, step: Step, s': State)
    requires Next(s, step, s')
    ensures s'.url == s.url || s'.url.None? || Publishes(s, step, s')
  {
  }

  predicate CarriesOrNone(s: State, id: string) {
    s.url.Some? ==> ReadOwner(s.url.value) == Some(id)
  }

  lemma PublishingKeepsId(s: State, before: Option<string>, step: Step, s': State, id: string)
    requires Orderly(s, before) && TidyState(s) && Publishes(s, step, s') && s.procs[step.p].owner == Some(id)
    ensures CarriesOrNone(s', id)
  {
    var me := s.procs[step.p];
    assert TidyProc(me) && OwnsUrl(s.url, s.tmp, me);
    assert s.tmp.value + Concat([]) == s.tmp.value;
    FileReadsBack(me.pc.url, me.owner);
  }

  /** It still does when nobody else completed a write since the first read: from a state in which the file carries the
      id, through steps whose completed writes are all by processes given the id. */
  lemma {:induction false} QuietBetweenReads(states: seq<State>, steps: seq<Step>, i: nat, j: nat, id: string)
    requires OrderlyRun(states, steps) && i <= j < |states| && CarriesOrNone(states[i], id)
    requires forall k :: i <= k < j ==> TidyState(states[k])
    requires forall k :: i <= k < j && Publishes(states[k], steps[k], states[k + 1]) ==>
               states[k].procs[steps[k].p].owner == Some(id)
    ensures CarriesOrNone(states[j], id)
    decreases j
  {
    if i < j {
      var k := j - 1;
      QuietBetweenReads(states, steps, i, k, id);
      OrderlyRunKeeps(states, steps, k);
      assert Next(states[k], steps[k], states[k + 1]);
      UrlChanges(states[k], steps[k], states[k + 1]);
      if Publishes(states[k], steps[k], states[k + 1]) {
        PublishingKeepsId(states[k], states[0].url, steps[k], states[k + 1], id);
      }
    }
  }

  /** So a parent whose two reads, at steps i and j, have no completed write of anybody else between them accepts a URL
      of its own child. */
  lemma AcceptedWhenQuiet(states: seq<State>, steps: seq<Step>, i: nat, j: nat, parent: nat, id: string)
    requires OrderlyRun(states, steps) && i < j < |steps| && steps[i] == Does(parent) && steps[j] == Does(parent)
    requires parent < |states[i].procs| && states[i].procs[parent].pc == Polling(id)
    requires parent < |states[i + 1].procs| && states[i + 1].procs[parent].pc == OwnerMatched(id)
    requires parent < |states[j].procs| && states[j].procs[parent].pc == OwnerMatched(id)
    requires states[0].url.Some? ==> ReadOwner(states[0].url.value) != Some(id)
    requires forall k :: i <= k <= j ==> TidyState(states[k])
    requires forall k :: i <= k < j && Publishes(states[k], steps[k], states[k + 1]) ==>
               states[k].procs[steps[k].p].owner == Some(id)
    requires states[j].url.Some?
    ensures ChildsFile(states[j], id)
  {
    assert Next(states[i], steps[i], states[i + 1]);
    assert CarriesOrNone(states[i], id);
    QuietBetweenReads(states, steps, i, j, id);
    CarriesIdIff(states, steps, j, id);
  }

  // --- going on with a run -----------------------------------------------------------------------------------------

  lemma Extend(states: seq<State>, steps: seq<Step>, step: Step, s': State)
    requires Run(states, steps) && Next(states[|steps|], step, s')
    ensures Run(states + [s'], steps + [step])
  {
  }

  lemma Go(states: seq<State>, steps: seq<Step>, step: Step, s': State) returns (states': seq<State>, steps': seq<Step>)
    requires OrderlyRun(states, steps) && Next(states[|steps|], step, s') && !Unlinks(states[|steps|], step)
    ensures OrderlyRun(states', steps') && states <= states' && states'[|steps'|] == s'
  {
    states', steps' := states + [s'], steps + [step];
  }

  lemma GoShare(states: seq<State>, steps: seq<Step>, p: nat, s': State)
    returns (states': seq<State>, steps': seq<Step>)
    requires OrderlyRun(states, steps) && p < |states[|steps|].procs| && IsShare(states[|steps|].procs[p].pc)
    requires HasHandle(states[|steps|].procs[p].pc) ==> states[|steps|].procs[p].pc.ino < |states[|steps|].inodes|
    requires ShareCall(states[|steps|], p, s')
    ensures OrderlyRun(states', steps') && states <= states' && states'[|steps'|] == s'
  {
    states', steps' := Go(states, steps, Does(p), s');
  }

  lemma GoTool(states: seq<State>, steps: seq<Step>, p: nat, s': State) returns (states': seq<State>, steps': seq<Step>)
    requires OrderlyRun(states, steps) && p < |states[|steps|].procs| && !IsShare(states[|steps|].procs[p].pc)
    requires HasHandle(states[|steps|].procs[p].pc) ==> states[|steps|].procs[p].pc.ino < |states[|steps|].inodes|
    requires ToolCall(states[|steps|], p, s') && !states[|steps|].procs[p].pc.StopUnlinking?
    ensures OrderlyRun(states', steps') && states <= states' && states'[|steps'|] == s'
  {
    states', steps' := Go(states, steps, Does(p), s');
  }

  /** The pidfile as an opening share finds or makes it. */
  function Opened(s: State): (r: State)
    ensures r.path.Some?
  {
    if s.path.Some? then s else s.(path := Some(|s.inodes|), inodes := s.inodes + [""])
  }

  /** Where nobody has the pidfile open, a new share wins its lock. */
  lemma ShareStarts(states: seq<State>, steps: seq<Step>, pid: nat, owner: Option<string>)
    returns (states': seq<State>, steps': seq<Step>)
    requires OrderlyRun(states, steps) && Unopened(states[|steps|]) && pid < PID_BOUND
    ensures OrderlyRun(states', steps') && states <= states'
    ensures var s, r := states[|steps|], Opened(states[|steps|]);
            && states'[|steps'|] == r.(procs := s.procs + [Proc(pid, owner, None, Locked(r.path.value))])
            && r.path.value < |r.inodes|
  {
    var s := states[|steps|];
    RunKeepsInv(states, steps, |steps|);
    var p, ino := |s.procs|, Opened(s).path.value;
    var s1 := s.(procs := s.procs + [Proc(pid, owner, None, Start)]);
    states', steps' := Go(states, steps, Spawns(pid, owner), s1);
    var s2 := Move(Opened(s1), p, Trying(ino, ATTEMPTS));
    states', steps' := GoShare(states', steps', p, s2);
    assert !Busy(s2, ino);
    var s3 := Move(s2, p, Locked(ino));
    states', steps' := GoShare(states', steps', p, s3);
    assert s3.procs == s.procs + [Proc(pid, owner, None, Locked(ino))];
  }

  /** With the lock it records its pid, removes any stale URL file and serves. */
  lemma ShareServes(states: seq<State>, steps: seq<Step>, p: nat) returns (states': seq<State>, steps': seq<Step>)
    requires OrderlyRun(states, steps) && p < |states[|steps|].procs| && states[|steps|].procs[p].pc.Locked?
    requires states[|steps|].procs[p].pc.ino < |states[|steps|].inodes|
    ensures OrderlyRun(states', steps') && states <= states'
    ensures var s, s' := states[|steps|], states'[|steps'|];
            s'.procs == s.procs[p := s.procs[p].(pc := Serving(s.procs[p].pc.ino))] && s'.url == None
  {
    var s := states[|steps|];
    var ino := s.procs[p].pc.ino;
    var s1 := Move(Fill(s, ino, ""), p, Truncated(ino));
    states', steps' := GoShare(states, steps, p, s1);
    var s2 := Move(Fill(s1, ino, Decimal.Print(s.procs[p].pid)), p, PidWritten(ino));
    states', steps' := GoShare(states', steps', p, s2);
    var s3 := Move(Fill(s2, ino, s2.inodes[ino] + "\n"), p, Cleaning(ino));
    states', steps' := GoShare(states', steps', p, s3);
    var s4 := Move(s3.(url := None), p, Serving(ino));
    states', steps' := GoShare(states', steps', p, s4);
  }

  lemma {:induction false} WritePieces(states: seq<State>, steps: seq<Step>, p: nat)
    returns (states': seq<State>, steps': seq<Step>)
    requires OrderlyRun(states, steps) && p < |states[|steps|].procs| && states[|steps|].procs[p].pc.Writing?
    requires states[|steps|].tmp.Some?
    ensures OrderlyRun(states', steps') && states <= states'
    ensures var s := states[|steps|];
            var pc := s.procs[p].pc;
            states'[|steps'|] == Move(s.(tmp := Some(s.tmp.value + Concat(pc.left))), p, Writing(pc.ino, pc.url, []))
    decreases |states[|steps|].procs[p].pc.left|
  {
    var s := states[|steps|];
    var pc := s.procs[p].pc;
    RunKeepsInv(states, steps, |steps|);
    assert GoodProc(s.inodes, s.procs[p]);
    if pc.left == [] {
      states', steps' := states, steps;
      assert s.tmp.value + [] == s.tmp.value && s.procs[p := s.procs[p]] == s.procs;
    } else {
      var s1 := Move(s.(tmp := Some(s.tmp.value + pc.left[0])), p, Writing(pc.ino, pc.url, pc.left[1..]));
      states', steps' := GoShare(states, steps, p, s1);
      states', steps' := WritePieces(states', steps', p);
      Associative(s.tmp.value, pc.left[0], Concat(pc.left[1..]));
    }
  }

  /** And it publishes any URL. */
  lemma ShareWrites(states: seq<State>, steps: seq<Step>, p: nat, url: string)
    returns (states': seq<State>, steps': seq<Step>)
    requires OrderlyRun(states, steps) && p < |states[|steps|].procs| && states[|steps|].procs[p].pc.Serving?
    ensures OrderlyRun(states', steps') && states <= states'
    ensures var s, s' := states[|steps|], states'[|steps'|];
            && s'.procs == s.procs[p := s.procs[p].(published := Some(url))]
            && s'.url == Some(FileText(url, s.procs[p].owner))
  {
    var s := states[|steps|];
    var me := s.procs[p];
    var ino := me.pc.ino;
    RunKeepsInv(states, steps, |steps|);
    assert GoodProc(s.inodes, me);
    var s1 := Move(s.(tmp := Some("")), p, Writing(ino, url, Pieces(url, me.owner)));
    states', steps' := GoShare(states, steps, p, s1);
    states', steps' := WritePieces(states', steps', p);
    var s2 := states'[|steps'|];
    assert "" + FileText(url, me.owner) == FileText(url, me.owner);
    RunKeepsInv(states', steps', |steps'|);
    states', steps' := GoShare(states', steps', p, Published(s2, p, url, ino));
  }

  /** The three together. */
  lemma SharePublishes(states: seq<State>, steps: seq<Step>, pid: nat, owner: Option<string>, url: string)
    returns (states': seq<State>, steps': seq<Step>, ino: nat)
    requires OrderlyRun(states, steps) && Unopened(states[|steps|]) && pid < PID_BOUND
    ensures OrderlyRun(states', steps') && states <= states'
    ensures states'[|steps'|].procs == states[|steps|].procs + [Proc(pid, owner, Some(url), Serving(ino))]
    ensures states'[|steps'|].url == Some(FileText(url, owner))
  {
    var s := states[|steps|];
    var p := |s.procs|;
    ino := Opened(s).path.value;
    states', steps' := ShareStarts(states, steps, pid, owner);
    states', steps' := ShareServes(states', steps', p);
    states', steps' := ShareWrites(states', steps', p, url);
  }

  // --- where the two reads part ------------------------------------------------------------------------------------

  /** The parent's first read matches its child's file. */
  lemma ParentMatches(s: State, id: string, url: string) returns (states: seq<State>, steps: seq<Step>)
    requires Init(s) && Tidy(id) && Tidy(url)
    ensures OrderlyRun(states, steps) && states[0] == s && |states[|steps|].procs| == 2
    ensures var procs := states[|steps|].procs;
            && procs[0] == Proc(0, None, None, OwnerMatched(id))
            && procs[1].owner == Some(id) && procs[1].published == Some(url)
  {
    states, steps := Go([s], [], Awaits(id), s.(procs := [Proc(0, None, None, Polling(id))]));
    var ino;
    states, steps, ino := SharePublishes(states, steps, 1, Some(id), url);
    states, steps := ParentReadsOwner(states, steps, id, url);
  }

  lemma ParentReadsOwner(states: seq<State>, steps: seq<Step>, id: string, url: string)
    returns (states': seq<State>, steps': seq<Step>)
    requires OrderlyRun(states, steps) && states[|steps|].procs != [] && states[|steps|].procs[0].pc == Polling(id)
    requires states[|steps|].url == Some(FileText(url, Some(id))) && Tidy(url) && Tidy(id)
    ensures OrderlyRun(states', steps') && states <= states'
    ensures states'[|steps'|] == Move(states[|steps|], 0, OwnerMatched(id))
  {
    FileReadsBack(url, Some(id));
    states', steps' := GoTool(states, steps, 0, Move(states[|steps|], 0, OwnerMatched(id)));
  }

  /** So the parent's check is not sound: from every initial state, and for all ids and URLs, there is a run in which a
      parent accepts the URL of a share that is not its own. Its child dies between the two reads and another share
      publishes. */
  lemma ParentCanAcceptAnothers(s: State, id: string, url: string, other: string)
    returns (states: seq<State>, steps: seq<Step>)
    requires Init(s) && Tidy(id) && Tidy(url) && Tidy(other)
    ensures OrderlyRun(states, steps) && states[0] == s && |states[|steps|].procs| == 3
    ensures var procs := states[|steps|].procs;
            && procs[0].pc == Accepted(id, other)
            && procs[1].owner == Some(id) && procs[1].published == Some(url)
            && procs[2].owner == None && procs[2].published == Some(other)
  {
    states, steps := ParentMatches(s, id, url);
    var s1 := states[|steps|];
    states, steps := Go(states, steps, Dies(1), Move(s1, 1, Gone));
    var ino;
    states, steps, ino := SharePublishes(states, steps, 2, None, other);
    states, steps := ParentReadsUrl(states, steps, id, other, None);
  }

  lemma ParentReadsUrl(states: seq<State>, steps: seq<Step>, id: string, url: string, owner: Option<string>)
    returns (states': seq<State>, steps': seq<Step>)
    requires OrderlyRun(states, steps) && states[|steps|].procs != [] && states[|steps|].procs[0].pc == OwnerMatched(id)
    requires states[|steps|].url == Some(FileText(url, owner)) && Tidy(url)
    ensures OrderlyRun(states', steps') && states <= states'
    ensures states'[|steps'|] == Move(states[|steps|], 0, Accepted(id, url))
  {
    FileReadsBack(url, owner);
    states', steps' := GoTool(states, steps, 0, Move(states[|steps|], 0, Accepted(id, url)));
  }

  // --- whom `--stop` signals ---------------------------------------------------------------------------------------

  /** A `--stop` that reads the pidfile while a share that has recorded its pid holds the lock signals that share. */
  lemma StopSignalsTheHolder(states: seq<State>, steps: seq<Step>, i: nat, stopper: nat, q: nat)
    requires OrderlyRun(states, steps) && i < |steps| && steps[i] == Does(stopper)
    requires stopper < |states[i].procs| && states[i].procs[stopper].pc.StopReading?
    requires q < |states[i].procs| && Recorded(states[i].procs[q].pc)
    ensures |states[i + 1].procs| == |states[i].procs|
    ensures states[i + 1].procs[stopper].pc == StopSignalled(states[i].procs[q].pid)
  {
    PidfileNamesTheHolder(states, steps, i, q);
    assert Next(states[i], steps[i], states[i + 1]);
  }

  /** But one that finds the lock held by a share that has not recorded its pid yet signals whatever pid a dead share
      left in the file: from every initial state with such a pidfile there is a run to that. */
  lemma StopCanSignalTheDead(s: State, dead: nat, pid: nat) returns (states: seq<State>, steps: seq<Step>)
    requires Init(s) && s.path.Some? && ReadPid(s.inodes[s.path.value]) == Some(dead) && pid < PID_BOUND
    ensures OrderlyRun(states, steps) && states[0] == s && |states[|steps|].procs| == 2
    ensures var procs := states[|steps|].procs;
            procs[0].pid == pid && Holds(procs[0].pc) && procs[1].pc == StopSignalled(dead)
  {
    states, steps := ShareStarts([s], [], pid, None);
    states, steps := StopOpens(states, steps);
    states, steps := StopSignals(states, steps, 0, 1, dead);
  }

  /** A `--stop` begins its probe. */
  lemma StopOpens(states: seq<State>, steps: seq<Step>) returns (states': seq<State>, steps': seq<Step>)
    requires OrderlyRun(states, steps) && states[|steps|].path.Some?
    ensures OrderlyRun(states', steps') && states <= states'
    ensures var s := states[|steps|];
            states'[|steps'|] == s.(procs := s.procs + [Proc(0, None, None, StopOpen(s.path.value))])
  {
    var s := states[|steps|];
    var s1 := s.(procs := s.procs + [Proc(0, None, None, StopStart)]);
    states', steps' := Go(states, steps, Stops, s1);
    var s2 := Move(s1, |s.procs|, StopOpen(s.path.value));
    states', steps' := GoTool(states', steps', |s.procs|, s2);
    assert s2.procs == s.procs + [Proc(0, None, None, StopOpen(s.path.value))];
  }

  /** It finds the lock held, reads the pidfile and signals. */
  lemma StopSignals(states: seq<State>, steps: seq<Step>, q: nat, stopper: nat, target: nat)
    returns (states': seq<State>, steps': seq<Step>)
    requires OrderlyRun(states, steps) && stopper < |states[|steps|].procs| && q < |states[|steps|].procs|
    requires var s := states[|steps|];
             && s.path.Some? && s.path.value < |s.inodes| && ReadPid(s.inodes[s.path.value]) == Some(target)
             && s.procs[stopper].pc == StopOpen(s.path.value) && HoldsInode(s.procs[q].pc, s.path.value)
    ensures OrderlyRun(states', steps') && states <= states'
    ensures states'[|steps'|] == Move(states[|steps|], stopper, StopSignalled(target))
  {
    var s := states[|steps|];
    assert Busy(s, s.path.value);
    var s1 := Move(s, stopper, StopReading);
    states', steps' := GoTool(states, steps, stopper, s1);
    states', steps' := GoTool(states', steps', stopper, Move(s1, stopper, StopSignalled(target)));
  }

  // --- and why unlinking must be orderly -------------------------------------------------------------------------

  /** If a handle is open, its inode is held, or can be taken by its owner in one call. */
  lemma SomebodyHolds(s: State) returns (p: nat, s': State, step: Option<Step>)
    requires Inv(s) && s.path.None? && !Unopened(s)
    ensures Inv(s') && s'.path.None? && p < |s'.procs| && Holds(s'.procs[p].pc)
    ensures if step.None? then s' == s else Next(s, step.value, s')
  {
    p :| 0 <= p < |s.procs| && HasHandle(s.procs[p].pc);
    assert GoodProc(s.inodes, s.procs[p]);
    var ino := s.procs[p].pc.ino;
    if Busy(s, ino) {
      p :| 0 <= p < |s.procs| && Holds(s.procs[p].pc) && s.procs[p].pc.ino == ino;
      s', step := s, None;
    } else {
      assert HoldsInode(s.procs[p].pc, ino) ==> Busy(s, ino);
      var pc := s.procs[p].pc;
      step := Some(Does(p));
      s' := Move(s, p, if pc.Trying? then Locked(ino) else ToolPc(s, pc));
      InvStep(s, step.value, s');
    }
  }

  /** A new share opens a fresh inode, which nobody can be holding, and locks it. */
  lemma NewcomerLocksToo(states: seq<State>, steps: seq<Step>, p: nat) returns (states': seq<State>, steps': seq<Step>)
    requires Run(states, steps) && states[|steps|].path.None?
    requires p < |states[|steps|].procs| && Holds(states[|steps|].procs[p].pc)
    ensures Run(states', steps') && |steps'| == |steps| + 3 && steps <= steps' && states <= states'
    ensures !OneHolder(states'[|steps'|])
  {
    var s := states[|steps|];
    RunKeepsInv(states, steps, |steps|);
    var q, ino := |s.procs|, |s.inodes|;
    var s1 := s.(procs := s.procs + [Proc(0, None, None, Start)]);
    Extend(states, steps, Spawns(0, None), s1);
    var s2 := Move(s1.(path := Some(ino), inodes := s1.inodes + [""]), q, Trying(ino, ATTEMPTS));
    Extend(states + [s1], steps + [Spawns(0, None)], Does(q), s2);
    states', steps' := states + [s1] + [s2], steps + [Spawns(0, None)] + [Does(q)];
    assert !Busy(s2, ino) by {
      forall r | 0 <= r < |s2.procs|
        ensures !HoldsInode(s2.procs[r].pc, ino)
      {
        assert r < q ==> GoodProc(s.inodes, s.procs[r]);
      }
    }
    var s3 := Move(s2, q, Locked(ino));
    Extend(states', steps', Does(q), s3);
    states', steps' := states' + [s3], steps' + [Does(q)];
    assert Holds(s3.procs[p].pc) && Holds(s3.procs[q].pc) && p != q;
  }

  /** Unlinking the pidfile while any process has it open is never safe: every run that brings a `--stop` to its unlink
      in such a state can go on with the unlink and at most four more system calls to two processes that both hold
      "the" lock. Together with `AtMostOneHolder` this makes "nobody has it open" exactly the condition under which the
      lock-free removal keeps one holder. */
  lemma UnlinkingAnOpenPidfileBreaksTheLock(states: seq<State>, steps: seq<Step>, stopper: nat)
    returns (states': seq<State>, steps': seq<Step>)
    requires Run(states, steps) && Unlinks(states[|steps|], Does(stopper)) && !Unopened(states[|steps|])
    ensures Run(states', steps') && steps + [Does(stopper)] <= steps' && states <= states'
    ensures !OneHolder(states'[|steps'|])
  {
    var s := states[|steps|];
    var s1 := Move(s.(path := None), stopper, Gone);
    Extend(states, steps, Does(stopper), s1);
    states', steps' := states + [s1], steps + [Does(stopper)];
    RunKeepsInv(states', steps', |steps'|);
    var q :| 0 <= q < |s.procs| && HasHandle(s.procs[q].pc);
    assert s1.procs[q] == s.procs[q];
    var p, s2, more := SomebodyHolds(s1);
    if more.Some? {
      Extend(states', steps', more.value, s2);
      states', steps' := states' + [s2], steps' + [more.value];
    }
    states', steps' := NewcomerLocksToo(states', steps', p);
  }

  /** A `--stop` alone on a fresh start probes the lock and finds it free. */
  lemma StopFindsFree(s: State) returns (states: seq<State>, steps: seq<Step>)
    requires Init(s)
    ensures OrderlyRun(states, steps) && states[0] == s
    ensures states[|steps|] == s.(procs := [Proc(0, None, None, StopCleaning)])
  {
    if s.path.Some? {
      states, steps := StopOpens([s], []);
      states, steps := StopReleases(states, steps);
    } else {
      var s1 := s.(procs := [Proc(0, None, None, StopStart)]);
      states, steps := Go([s], [], Stops, s1);
      states, steps := GoTool(states, steps, 0, Move(s1, 0, StopCleaning));
    }
  }

  /** Alone, it takes the lock and lets go of it. */
  lemma StopReleases(states: seq<State>, steps: seq<Step>) returns (states': seq<State>, steps': seq<Step>)
    requires OrderlyRun(states, steps) && |states[|steps|].procs| == 1 && states[|steps|].procs[0].pc.StopOpen?
    ensures OrderlyRun(states', steps') && states <= states'
    ensures states'[|steps'|] == Move(states[|steps|], 0, StopCleaning)
  {
    var s := states[|steps|];
    var ino := s.procs[0].pc.ino;
    RunKeepsInv(states, steps, |steps|);
    assert GoodProc(s.inodes, s.procs[0]);
    assert !Busy(s, ino);
    var s1 := Move(s, 0, StopHolding(ino));
    states', steps' := GoTool(states, steps, 0, s1);
    states', steps' := GoTool(states', steps', 0, Move(s1, 0, StopCleaning));
  }

  /** It removes the URL file and stands before its unlink. */
  lemma StopProbesFree(s: State) returns (states: seq<State>, steps: seq<Step>)
    requires Init(s)
    ensures OrderlyRun(states, steps) && states[0] == s
    ensures states[|steps|] == s.(url := None, procs := [Proc(0, None, None, StopUnlinking)])
  {
    states, steps := StopFindsFree(s);
    states, steps := GoTool(states, steps, 0, Move(states[|steps|].(url := None), 0, StopUnlinking));
  }

  /** So the code can break its lock from every initial state: a `--stop` whose own probe found the lock free unlinks
      the file of a share that has locked it since, and a second share locks a new one. */
  lemma StopBreaksTheLock(s: State) returns (states: seq<State>, steps: seq<Step>)
    requires Init(s)
    ensures Run(states, steps) && states[0] == s && !OneHolder(states[|steps|])
  {
    states, steps := StopProbesFree(s);
    states, steps := ShareStarts(states, steps, 1, None);
    assert HasHandle(states[|steps|].procs[1].pc);
    states, steps := UnlinkingAnOpenPidfileBreaksTheLock(states, steps, 0);
  }
}
