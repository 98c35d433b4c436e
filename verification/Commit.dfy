/** The commit of a verified payload as a transition system: one step per system call of
    the receiver, each of which may fail, and between any two steps anything other
    processes may do. */
module Commit {
  import opened Common
  import opened FileTree

  datatype Snapshot =
    | Missing
    | Entry(id: Ino)
    | Link(id: Ino, text: Path, destination: Path)

  /** What does not change during a commit. */
  datatype Job = Job(path: Path, payload: seq<byte>, umask: Mode)

  /** The next system call. */
  datatype Pc =
    | Lstat | ReadLink(id: Ino) | RealPath(id: Ino, text: Path)
    | MkDirs | StatMode | MkTemp | Copy | Seal
    | CheckLstat | CheckLink | CheckReal
    | Publish | DropTemp
    | RecheckLstat | RecheckLink | RecheckReal
    | Cleanup(ok: bool) | End(ok: bool)

  /** `mine` is the inode of the temporary file.  The last two fields record history:
      whether a link or replace has taken effect, and whether someone else has rewritten
      the receiver's file after that. */
  datatype State = State(
    fs: Fs, pc: Pc, snap: Snapshot, mode: Mode, tmp: Option<Path>, mine: Option<Ino>,
    copied: nat, committed: bool, replaceStarted: bool, published: bool, rewritten: bool)

  const COPY_LENGTH := 1_048_576

  function Destination(j: Job, snap: Snapshot): Path {
    if snap.Link? then snap.destination else j.path
  }

  function Target(j: Job, s: State): Path {
    Destination(j, s.snap)
  }

  function Hidden(s: State): set<Path> {
    if s.tmp.Some? then {s.tmp.value} else {}
  }

  predicate Starts(s: State) {
    && WellFormed(s.fs)
    && s == State(s.fs, Lstat, Missing, 0, None, None, 0, false, false, false, false)
  }

  function Fail(s: State): State {
    s.(pc := Cleanup(false))
  }

  /** The comparison of the destination's entry with the snapshot, as far as `lstat`
      decides it; `None` means that the link itself must be compared too. */
  function EntryMatches(j: Job, s: State): Option<bool> {
    if j.path !in s.fs.names then Some(s.snap.Missing?)
    else if s.snap.Missing? then Some(false)
    else if s.fs.names[j.path] != s.snap.id then Some(false)
    else if s.snap.Link? then if IsLink(s.fs, j.path) then None else Some(false)
    else Some(!IsLink(s.fs, j.path))
  }

  predicate LinkMatches(j: Job, s: State) {
    s.snap.Link? && IsLink(s.fs, j.path) && LinkText(s.fs, j.path) == s.snap.text
  }

  predicate RealMatches(j: Job, s: State) {
    s.snap.Link? && Realpath(s.fs, j.path) == s.snap.destination
  }

  /** The receiver's own steps when the call at `pc` succeeds. */
  ghost predicate Act(j: Job, s: State, t: State) {
    match s.pc
    case Lstat =>
      && !ThroughFile(s.fs, Parent(j.path))
      && (if j.path !in s.fs.names then t == s.(pc := MkDirs)
          else if IsLink(s.fs, j.path) then t == s.(pc := ReadLink(s.fs.names[j.path]))
          else t == s.(pc := MkDirs, snap := Entry(s.fs.names[j.path])))
    case ReadLink(id) =>
      IsLink(s.fs, j.path) && t == s.(pc := RealPath(id, LinkText(s.fs, j.path)))
    case RealPath(id, text) =>
      t == s.(pc := MkDirs, snap := Link(id, text, Realpath(s.fs, j.path)))
    case MkDirs =>
      !ThroughFile(s.fs, Parent(Target(j, s))) && t == s.(pc := StatMode, fs := MakeDirs(s.fs, Parent(Target(j, s))))
    case StatMode =>
      (match Stat(s.fs, Target(j, s))
       case Found(node) => t == s.(pc := MkTemp, mode := Permissions(node))
       case NotFound => t == s.(pc := MkTemp, mode := NewFileMode(j.umask))
       case Loop => false)
    case MkTemp =>
      && t.tmp.Some? && t.tmp.value !in s.fs.names
      && Parent(t.tmp.value) == Parent(Target(j, s))
      && t.tmp.value != j.path && t.tmp.value != Target(j, s)
      && t == s.(pc := Copy, tmp := t.tmp, mine := Some(s.fs.next),
                 fs := Create(s.fs, t.tmp.value, File([], 0x0180)))
    case Copy =>
      && s.mine.Some?
      && (if s.copied < |j.payload| then
            var n := Min(s.copied + COPY_LENGTH, |j.payload|);
            t == s.(copied := n, fs := Write(s.fs, s.mine.value, File(j.payload[..n], 0x0180)))
          else t == s.(pc := Seal))
    case Seal =>
      && s.mine.Some?
      && t == s.(pc := CheckLstat, fs := Write(s.fs, s.mine.value, File(j.payload, s.mode)))
    case CheckLstat =>
      t == s.(pc := match EntryMatches(j, s)
                    case None => CheckLink
                    case Some(same) => if same then Publish else Cleanup(false))
    case CheckLink =>
      t == s.(pc := if LinkMatches(j, s) then CheckReal else Cleanup(false))
    case CheckReal =>
      t == s.(pc := if RealMatches(j, s) then Publish else Cleanup(false))
    case Publish =>
      && s.mine.Some? && s.tmp.Some?
      && (if s.snap.Missing? then
            && j.path !in s.fs.names
            && t == s.(pc := DropTemp, replaceStarted := true, published := true,
                       fs := Bind(s.fs, j.path, s.mine.value))
          else
            && !IsDirectory(s.fs, Target(j, s))
            && t == s.(pc := if s.snap.Link? then RecheckLstat else Cleanup(true),
                       replaceStarted := true, published := true, committed := true, tmp := None,
                       fs := Unbind(Bind(s.fs, Target(j, s), s.mine.value), s.tmp.value)))
    case DropTemp =>
      && s.tmp.Some?
      && t == s.(pc := Cleanup(true), committed := true, tmp := None, fs := Unbind(s.fs, s.tmp.value))
    case RecheckLstat =>
      t == s.(pc := match EntryMatches(j, s)
                    case None => RecheckLink
                    case Some(same) => Cleanup(same))
    case RecheckLink =>
      t == s.(pc := if LinkMatches(j, s) then RecheckReal else Cleanup(false))
    case RecheckReal =>
      t == s.(pc := Cleanup(RealMatches(j, s)))
    case Cleanup(ok) =>
      t == s.(pc := End(ok), fs := if s.tmp.Some? then Unbind(s.fs, s.tmp.value) else s.fs)
    case End(_) => false
  }

  /** A call that raises has no effect, except that `makedirs` may have created some of
      the directories and that `replace_started` is set before `os.replace` is called. */
  ghost predicate Fault(j: Job, s: State, t: State) {
    && !s.pc.Cleanup? && !s.pc.End?
    && (match s.pc
        case MkDirs =>
          exists k :: 0 <= k <= |Parent(Target(j, s))| && !ThroughFile(s.fs, Parent(Target(j, s))[..k])
            && t == Fail(s.(fs := MakeDirs(s.fs, Parent(Target(j, s))[..k])))
        case Publish => t == Fail(s.(replaceStarted := !s.snap.Missing?))
        case _ => t == Fail(s))
  }

  ghost predicate Others(s: State, t: State) {
    && Foreign(s.fs, t.fs, Hidden(s))
    && t == s.(fs := t.fs, rewritten := t.rewritten)
    && t.rewritten == (s.rewritten || (s.published && Rewrote(s, t)))
  }

  predicate Rewrote(s: State, t: State) {
    s.mine.Some? && s.mine.value in s.fs.nodes && s.mine.value in t.fs.nodes &&
    s.fs.nodes[s.mine.value] != t.fs.nodes[s.mine.value]
  }

  ghost predicate Own(j: Job, s: State, t: State) {
    Act(j, s, t) || Fault(j, s, t)
  }

  ghost predicate Next(j: Job, s: State, t: State) {
    Own(j, s, t) || Others(s, t)
  }

  /** Single steps, as the receiver takes them. */
  lemma MkTempActs(j: Job, s: State, name: Path)
    requires s.pc.MkTemp? && name !in s.fs.names && Parent(name) == Parent(Target(j, s))
    requires name != j.path && name != Target(j, s)
    ensures Act(j, s, s.(pc := Copy, tmp := Some(name), mine := Some(s.fs.next),
                         fs := Create(s.fs, name, File([], 0x0180))))
  {
    hide Target, Parent, Create;
  }

  lemma LinkActs(j: Job, s: State)
    requires s.pc.Publish? && s.mine.Some? && s.tmp.Some? && s.snap.Missing? && j.path !in s.fs.names
    ensures Act(j, s, s.(pc := DropTemp, replaceStarted := true, published := true,
                         fs := Bind(s.fs, j.path, s.mine.value)))
  {
  }

  lemma ReplaceActs(j: Job, s: State)
    requires s.pc.Publish? && s.mine.Some? && s.tmp.Some? && !s.snap.Missing? && !IsDirectory(s.fs, Target(j, s))
    ensures Act(j, s, s.(pc := if s.snap.Link? then RecheckLstat else Cleanup(true), replaceStarted := true,
                         published := true, committed := true, tmp := None,
                         fs := Unbind(Bind(s.fs, Target(j, s), s.mine.value), s.tmp.value)))
  {
    hide Target, IsDirectory, Bind, Unbind;
  }

  lemma PublishFails(j: Job, s: State)
    requires s.pc.Publish?
    ensures Own(j, s, Fail(s.(replaceStarted := !s.snap.Missing?)))
  {
  }

  lemma CallFails(j: Job, s: State)
    requires s.pc.MkTemp?
    ensures Own(j, s, Fail(s))
  {
  }

  ghost predicate Run(j: Job, run: seq<State>) {
    && run != [] && Starts(run[0])
    && forall i :: 0 <= i < |run| - 1 ==> Next(j, run[i], run[i + 1])
  }

  // ---------------------------------------------------------------------------
  // What every step keeps.

  predicate Before(pc: Pc) {
    pc.Lstat? || pc.ReadLink? || pc.RealPath? || pc.MkDirs? || pc.StatMode? || pc.MkTemp?
  }

  predicate Working(pc: Pc) {
    pc.Copy? || pc.Seal? || pc.CheckLstat? || pc.CheckLink? || pc.CheckReal? || pc.Publish?
  }

  predicate Rechecking(pc: Pc) {
    pc.RecheckLstat? || pc.RecheckLink? || pc.RecheckReal?
  }

  predicate Settled(s: State) {
    s.pc.Cleanup? || s.pc.End?
  }

  function Contents(j: Job, s: State): Node {
    if s.pc.Copy? || s.pc.Seal? then File(j.payload[..Min(s.copied, |j.payload|)], 0x0180)
    else File(j.payload, s.mode)
  }

  /** Where the receiver's inode may be found, and what it holds. */
  predicate OwnFile(j: Job, s: State) {
    match s.mine
    case None => s.tmp.None? && !s.published
    case Some(i) =>
      && i in s.fs.nodes && s.fs.nodes[i].File?
      && (!s.published ==> s.tmp.Some? && !Public(s.fs, i, Hidden(s)))
      && (s.published && !s.rewritten ==> s.fs.nodes[i] == File(j.payload, s.mode))
      && (Working(s.pc) ==> s.fs.nodes[i] == Contents(j, s))
  }

  predicate Inv(j: Job, s: State) {
    && WellFormed(s.fs)
    && OwnFile(j, s)
    && (Before(s.pc) ==> s.mine.None? && s.copied == 0)
    && (Working(s.pc) ==> s.mine.Some? && !s.published)
    && (s.pc.Seal? ==> s.copied == |j.payload|)
    && s.copied <= |j.payload|
    && (s.tmp.Some? ==>
          && s.mine.Some? && s.tmp.value != j.path && s.tmp.value != Target(j, s)
          && (!s.pc.End? ==> s.tmp.value in s.fs.names && s.fs.names[s.tmp.value] == s.mine.value)
          && (s.pc.End? ==> s.tmp.value !in s.fs.names))
    && (s.pc.DropTemp? ==> s.published && s.snap.Missing? && s.tmp.Some?)
    && (Rechecking(s.pc) ==> s.committed && s.snap.Link?)
    && (s.pc.CheckLink? || s.pc.CheckReal? ==> s.snap.Link?)
    && (s.committed ==> s.published && s.tmp.None?)
    && (s.published ==> s.replaceStarted)
    && (s.snap.Missing? && s.replaceStarted ==> s.published)
    && (s.pc == Cleanup(true) || s.pc == End(true) ==> s.committed)
    && (Before(s.pc) || Working(s.pc) ==> !s.replaceStarted && !s.committed)
    && (Before(s.pc) && !s.pc.MkDirs? && !s.pc.StatMode? && !s.pc.MkTemp? ==> s.snap.Missing?)
  }

  lemma StartInv(j: Job, s: State)
    requires Starts(s)
    ensures Inv(j, s)
  {
  }

  lemma OthersKeepInv(j: Job, s: State, t: State)
    requires Inv(j, s) && Others(s, t)
    ensures Inv(j, t)
  {
  }

  /** Giving up keeps the invariant wherever the file system only gained directories. */
  lemma GivingUpKeepsInv(j: Job, s: State, fs: Fs)
    requires Inv(j, s) && !Settled(s) && WellFormed(fs) && Extends(s.fs, fs, {})
    requires s.mine.Some? ==> fs == s.fs
    ensures Inv(j, Fail(s.(fs := fs)))
    ensures s.pc.Publish? ==> Inv(j, Fail(s.(replaceStarted := !s.snap.Missing?)))
  {
  }

  lemma FaultKeepsInv(j: Job, s: State, t: State)
    requires Inv(j, s) && Fault(j, s, t)
    ensures Inv(j, t)
  {
    hide OwnFile, MakeDirs;
    if s.pc.MkDirs? {
      var k :| 0 <= k <= |Parent(Target(j, s))| &&
        t == Fail(s.(fs := MakeDirs(s.fs, Parent(Target(j, s))[..k])));
      MakeDirsFrame(s.fs, Parent(Target(j, s))[..k]);
      GivingUpKeepsInv(j, s, MakeDirs(s.fs, Parent(Target(j, s))[..k]));
    } else {
      GivingUpKeepsInv(j, s, s.fs);
    }
  }

  lemma PreparingKeepsInv(j: Job, s: State, t: State)
    requires Inv(j, s) && Act(j, s, t) && Before(s.pc)
    ensures Inv(j, t)
  {
    hide EntryMatches, LinkMatches, RealMatches, Stat, Realpath, MakeDirs, Bind, Unbind, Write, Foreign, Permissions;
    hide ThroughFile, NewFileMode;
    if s.pc.MkDirs? {
      MakeDirsFrame(s.fs, Parent(Target(j, s)));
    } else if !s.pc.MkTemp? {
      assert t.fs == s.fs;
      hide Create;
    }
  }

  lemma WritingKeepsInv(j: Job, s: State, t: State)
    requires Inv(j, s) && Act(j, s, t) && (s.pc.Copy? || s.pc.Seal?)
    ensures Inv(j, t)
  {
  }

  lemma CheckingKeepsInv(j: Job, s: State, t: State)
    requires Inv(j, s) && Act(j, s, t) && (s.pc.CheckLstat? || s.pc.CheckLink? || s.pc.CheckReal?)
    ensures Inv(j, t)
  {
  }

  lemma PublishingKeepsInv(j: Job, s: State, t: State)
    requires Inv(j, s) && Act(j, s, t) && s.pc.Publish?
    ensures Inv(j, t)
  {
    hide MakeDirs, Stat, Realpath, EntryMatches, LinkMatches, RealMatches, Foreign;
  }

  lemma FinishingKeepsInv(j: Job, s: State, t: State)
    requires Inv(j, s) && Act(j, s, t) && !Before(s.pc) && !Working(s.pc)
    ensures Inv(j, t)
  {
  }

  lemma NextKeepsInv(j: Job, s: State, t: State)
    requires Inv(j, s) && Next(j, s, t)
    ensures Inv(j, t)
  {
    hide Act, Inv, Fault, Others;
    if Others(s, t) { OthersKeepInv(j, s, t); }
    else if Fault(j, s, t) { FaultKeepsInv(j, s, t); }
    else if Before(s.pc) { PreparingKeepsInv(j, s, t); }
    else if s.pc.Copy? || s.pc.Seal? { WritingKeepsInv(j, s, t); }
    else if s.pc.Publish? { PublishingKeepsInv(j, s, t); }
    else if Working(s.pc) { CheckingKeepsInv(j, s, t); }
    else { FinishingKeepsInv(j, s, t); }
  }

  lemma {:induction false} RunInv(j: Job, run: seq<State>, i: nat)
    requires Run(j, run) && i < |run|
    ensures Inv(j, run[i])
  {
    if i == 0 {
      StartInv(j, run[0]);
    } else {
      RunInv(j, run, i - 1);
      NextKeepsInv(j, run[i - 1], run[i]);
    }
  }

  // ---------------------------------------------------------------------------
  // Atomicity, and what the receiver never does to others.

  /** In every reachable state, under any interference, a name that leads to the
      receiver's file leads to the complete payload with its final mode, unless somebody
      else has rewritten that file since; no name but the private one ever leads to a
      partial file. */
  lemma Atomicity(j: Job, run: seq<State>, i: nat, p: Path)
    requires Run(j, run) && i < |run|
    requires p in run[i].fs.names && p !in Hidden(run[i]) && run[i].mine == Some(run[i].fs.names[p])
    ensures run[i].published && run[i].fs.names[p] in run[i].fs.nodes
    ensures run[i].rewritten || run[i].fs.nodes[run[i].fs.names[p]] == File(j.payload, run[i].mode)
  {
    RunInv(j, run, i);
  }

  /** Until it is sealed the receiver's file is its own: it holds no more than the beginning of the
      payload, and its mode is octal 600. */
  lemma PrivateUntilSealed(j: Job, run: seq<State>, i: nat)
    requires Run(j, run) && i < |run| && (run[i].pc.Copy? || run[i].pc.Seal?)
    ensures var s := run[i];
      && s.mine.Some? && s.mine.value in s.fs.nodes && s.tmp.Some? && s.tmp.value in s.fs.names
      && s.fs.names[s.tmp.value] == s.mine.value
      && (match s.fs.nodes[s.mine.value]
          case File(data, mode) => data <= j.payload && mode == 6 * 64
          case _ => false)
      && forall p :: p in s.fs.names && s.fs.names[p] == s.mine.value ==> p == s.tmp.value
  {
    RunInv(j, run, i);
    var s := run[i];
    assert forall p :: p in s.fs.names && s.fs.names[p] == s.mine.value ==> p in Hidden(s);
  }

  /** All names outside `except` that the receiver has not made private lead where they
      led, and every inode but the receiver's own holds what it held. */
  ghost predicate Untouched(s: State, t: State, except: set<Path>) {
    && (forall p | p in s.fs.names && p !in Hidden(s) && p !in except ::
          p in t.fs.names && t.fs.names[p] == s.fs.names[p])
    && (forall i | i in s.fs.nodes && Some(i) != s.mine ::
          i in t.fs.nodes && t.fs.nodes[i] == s.fs.nodes[i])
  }

  /** A step of the receiver disturbs at most one name, the destination, and that only in
      the `replace` of a destination that existed at the snapshot.  In particular an entry
      that others made where the snapshot found nothing is never overwritten or removed. */
  lemma OwnStepFrame(j: Job, s: State, t: State)
    requires Inv(j, s) && Own(j, s, t)
    ensures Untouched(s, t, {Target(j, s)})
    ensures s.published == t.published || s.snap.Missing? ==> Untouched(s, t, {})
  {
    if s.pc.MkDirs? {
      MkDirsFrame(j, s, t);
    } else if s.pc.MkTemp? || s.pc.Copy? || s.pc.Seal? {
      WritingFrame(j, s, t);
    } else {
      hide MakeDirs, Stat, Realpath, EntryMatches, LinkMatches, RealMatches, Foreign, Contents, Public;
    }
  }

  lemma WritingFrame(j: Job, s: State, t: State)
    requires Inv(j, s) && Own(j, s, t) && (s.pc.MkTemp? || s.pc.Copy? || s.pc.Seal?)
    ensures Untouched(s, t, {})
  {
    hide MakeDirs, Stat, Realpath, EntryMatches, LinkMatches, RealMatches, Foreign, Contents, Public;
  }

  lemma MkDirsFrame(j: Job, s: State, t: State)
    requires Inv(j, s) && Own(j, s, t) && s.pc.MkDirs?
    ensures Untouched(s, t, {})
  {
    hide Stat, Realpath, EntryMatches, LinkMatches, RealMatches, Foreign;
    var dir := Parent(Target(j, s));
    var k :| 0 <= k <= |dir| && t.fs == MakeDirs(s.fs, dir[..k]) by {
      assert dir[..|dir|] == dir;
    }
    MakeDirsFrame(s.fs, dir[..k]);
  }

  lemma NewcomersSurvive(j: Job, run: seq<State>, i: nat)
    requires Run(j, run) && i + 1 < |run|
    requires run[i].snap.Missing? && Own(j, run[i], run[i + 1])
    ensures Untouched(run[i], run[i + 1], {})
  {
    RunInv(j, run, i);
    OwnStepFrame(j, run[i], run[i + 1]);
  }

  lemma ActControl(j: Job, s: State, t: State)
    requires Act(j, s, t)
    ensures s.published ==> t.published
    ensures Settled(s) ==> Settled(t) && t.published == s.published
  {
    hide EntryMatches, LinkMatches, RealMatches, Stat, Realpath, MakeDirs, Create, Bind, Unbind, Write, IsLink,
      IsDirectory, LinkText, Permissions, Parent, Target, NewFileMode;
  }

  lemma StepControl(j: Job, s: State, t: State)
    requires Next(j, s, t)
    ensures s.published ==> t.published
    ensures Settled(s) ==> Settled(t) && t.published == s.published
  {
    if Act(j, s, t) {
      ActControl(j, s, t);
    } else {
      hide Act, MakeDirs, Foreign, Parent, Target, Rewrote, Hidden;
    }
  }

  /** Once the receiver has given up or finished, nothing more takes effect. */
  lemma {:induction false} SettledForGood(j: Job, run: seq<State>, i: nat, k: nat)
    requires Run(j, run) && i <= k < |run| && Settled(run[i])
    ensures Settled(run[k]) && run[k].published == run[i].published
  {
    hide Next;
    if i < k {
      SettledForGood(j, run, i, k - 1);
      StepControl(j, run[k - 1], run[k]);
    }
  }

  lemma {:induction false} PublishedForGood(j: Job, run: seq<State>, i: nat, k: nat)
    requires Run(j, run) && i <= k < |run| && run[i].published
    ensures run[k].published
  {
    hide Next;
    if i < k {
      PublishedForGood(j, run, i, k - 1);
      StepControl(j, run[k - 1], run[k]);
    }
  }

  /** When the receiver has stopped without publishing, then no step it took in the whole
      run, before or after, touched anything that was not its own. */
  lemma StoppedRunTouchesNothing(j: Job, run: seq<State>, i: nat, m: nat)
    requires Run(j, run) && i < |run| && Settled(run[i]) && !run[i].published
    requires m + 1 < |run| && Own(j, run[m], run[m + 1])
    ensures !run[m + 1].published && Untouched(run[m], run[m + 1], {})
  {
    if run[m + 1].published {
      if m + 1 <= i {
        PublishedForGood(j, run, m + 1, i);
      } else {
        SettledForGood(j, run, i, m + 1);
      }
      assert false;
    }
    if run[m].published { PublishedForGood(j, run, m, m + 1); }
    RunInv(j, run, m);
    OwnStepFrame(j, run[m], run[m + 1]);
  }

  predicate Checking(pc: Pc) {
    pc.CheckLstat? || pc.CheckLink? || pc.CheckReal?
  }

  /** A snapshot of any kind that no longer matches at the check leaves the destination
      alone for the rest of the run. */
  lemma MismatchLeavesDestination(j: Job, run: seq<State>, i: nat, m: nat)
    requires Run(j, run) && i + 1 < |run|
    requires Checking(run[i].pc) && Own(j, run[i], run[i + 1]) && run[i + 1].pc == Cleanup(false)
    requires m + 1 < |run| && Own(j, run[m], run[m + 1])
    ensures Untouched(run[m], run[m + 1], {})
  {
    RunInv(j, run, i);
    StoppedRunTouchesNothing(j, run, i + 1, m);
  }

  /** The receiver's report. */
  function ReportedState(s: State): DestinationState {
    if s.replaceStarted || s.committed then Unknown else Unchanged
  }

  /** `unchanged` is only reported when no link or replace has taken effect, and none ever
      will; when the destination was missing it is reported in exactly those cases. */
  lemma UnchangedIsSound(j: Job, run: seq<State>, i: nat, k: nat)
    requires Run(j, run) && i < |run| && k < |run| && run[i].pc == End(false)
    ensures ReportedState(run[i]) == Unchanged ==> !run[k].published
    ensures run[i].snap.Missing? ==> (ReportedState(run[i]) == Unchanged <==> !run[i].published)
  {
    RunInv(j, run, i);
    if run[k].published {
      if i <= k {
        SettledForGood(j, run, i, k);
      } else {
        PublishedForGood(j, run, k, i);
      }
    }
  }

  /** The destination holds exactly the payload. */
  predicate Holds(j: Job, s: State) {
    && Target(j, s) in s.fs.names && s.fs.names[Target(j, s)] in s.fs.nodes
    && s.fs.nodes[s.fs.names[Target(j, s)]] == File(j.payload, s.mode)
  }

  lemma PublishHolds(j: Job, s: State, t: State)
    requires Inv(j, s) && Next(j, s, t) && !s.published && t.published
    ensures Holds(j, t) && t.mine == Some(t.fs.names[Target(j, t)]) && Target(j, t) == Target(j, s)
  {
    PublishesAt(j, s, t);
    hide MakeDirs, Stat, Realpath, EntryMatches, LinkMatches, RealMatches, Foreign, ThroughFile, IsDirectory;
  }

  /** Only the one step publishes. */
  lemma PublishesAt(j: Job, s: State, t: State)
    requires Next(j, s, t) && !s.published && t.published
    ensures s.pc.Publish? && Act(j, s, t)
  {
    hide MakeDirs, Stat, Realpath, EntryMatches, LinkMatches, RealMatches, Foreign, ThroughFile, IsDirectory;
    hide Create, Write, Bind, Unbind, Permissions, NewFileMode, Destination, Parent;
  }

  /** A published payload was complete at the destination at the moment it appeared. */
  lemma {:induction false} PublishedOnce(j: Job, run: seq<State>, i: nat) returns (k: nat)
    requires Run(j, run) && i < |run| && run[i].published
    ensures k <= i && Holds(j, run[k])
  {
    RunInv(j, run, i - 1);
    if run[i - 1].published {
      k := PublishedOnce(j, run, i - 1);
    } else {
      PublishHolds(j, run[i - 1], run[i]);
      k := i;
    }
  }

  lemma DoneMeansHeld(j: Job, run: seq<State>, i: nat)
    requires Run(j, run) && i < |run| && run[i].pc == End(true)
    ensures exists k :: 0 <= k <= i && Holds(j, run[k])
  {
    RunInv(j, run, i);
    var k := PublishedOnce(j, run, i);
  }

  /** However the commit ends, its temporary name is gone; and unless it published, no name
      at all leads to its file. */
  lemma NoTemporaryRemains(j: Job, run: seq<State>, i: nat)
    requires Run(j, run) && i < |run| && run[i].pc.End?
    ensures run[i].tmp.Some? ==> run[i].tmp.value !in run[i].fs.names
    ensures !run[i].published && run[i].mine.Some? ==>
            forall p | p in run[i].fs.names :: run[i].fs.names[p] != run[i].mine.value
  {
    RunInv(j, run, i);
    var s := run[i];
    if !s.published && s.mine.Some? {
      forall p | p in s.fs.names
        ensures s.fs.names[p] != s.mine.value
      {
        assert p !in Hidden(s);
      }
    }
  }

  /** The step after which the temporary name is no longer private removes it. */
  lemma TemporaryReleased(j: Job, s: State, t: State)
    requires Inv(j, s) && Next(j, s, t) && s.tmp.Some? && t.tmp.None?
    ensures s.tmp.value !in t.fs.names
  {
  }
}
