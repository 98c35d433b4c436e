/** A commit that nobody disturbs and in which no call fails: exactly what it changes. */
module QuietCommit {
  import opened Common
  import opened FileTree
  import opened Commit

  ghost predicate QuietRun(j: Job, run: seq<State>) {
    && run != [] && Starts(run[0])
    && forall i :: 0 <= i < |run| - 1 ==> Act(j, run[i], run[i + 1])
  }

  /** The snapshot an undisturbed receiver takes. */
  function SnapshotOf(j: Job, a: Fs): Snapshot {
    if j.path !in a.names then Missing
    else if IsLink(a, j.path) then Link(a.names[j.path], LinkText(a, j.path), Realpath(a, j.path))
    else Entry(a.names[j.path])
  }

  function Resolved(j: Job, a: Fs): Path {
    Destination(j, SnapshotOf(j, a))
  }

  /** The mode of what was there, or a new file's mode under the umask. */
  function ExpectedMode(j: Job, a: Fs): Mode {
    if Resolved(j, a) in a.names && a.names[Resolved(j, a)] in a.nodes
    then Permissions(a.nodes[a.names[Resolved(j, a)]])
    else NewFileMode(j.umask)
  }

  predicate Snapping(pc: Pc) {
    pc.Lstat? || pc.ReadLink? || pc.RealPath?
  }

  ghost predicate QuietInv(j: Job, a: Fs, s: State) {
    var d := Resolved(j, a);
    && Inv(j, s) && WellFormed(a) && !s.rewritten
    && Extends(a, s.fs, if s.published then {d} else {})
    && (s.pc.ReadLink? ==> IsLink(a, j.path) && s.pc.id == a.names[j.path])
    && (s.pc.RealPath? ==> IsLink(a, j.path) && s.pc.id == a.names[j.path] && s.pc.text == LinkText(a, j.path))
    && (!Snapping(s.pc) ==> s.snap == SnapshotOf(j, a))
    && (Snapping(s.pc) ==> s.fs == a)
    && (!Snapping(s.pc) && !s.pc.MkDirs? && !s.pc.StatMode? ==> s.mode == ExpectedMode(j, a) && !IsLink(a, d))
    && (s.mine.Some? ==> s.mine.value >= a.next)
    && (forall p | p in s.fs.names && p !in a.names ::
          s.tmp == Some(p) || (s.published && p == d) || (p < d && IsDirectory(s.fs, p)))
    && (s.published ==> d in s.fs.names && s.mine == Some(s.fs.names[d]))
    && s.pc != Cleanup(false) && s.pc != End(false)
  }

  lemma QuietStart(j: Job, s: State)
    requires Starts(s)
    ensures QuietInv(j, s.fs, s)
  {
  }

  /** While only directories and the private file have been added, the path resolves as
      it did. */
  lemma StillResolves(j: Job, a: Fs, s: State)
    requires QuietInv(j, a, s) && !IsLink(a, Resolved(j, a))
    ensures !IsLink(s.fs, Resolved(j, a))
    ensures IsLink(a, j.path) ==> Realpath(s.fs, j.path) == Realpath(a, j.path)
    ensures Realpath(s.fs, Resolved(j, a)) == Resolved(j, a)
  {
    var d := Resolved(j, a);
    if d in s.fs.names && d !in a.names {
      if s.published {
        assert s.fs.nodes[s.mine.value].File?;
      }
    } else if d in s.fs.names && s.published {
      assert s.fs.nodes[s.mine.value].File?;
    }
    if IsLink(a, j.path) {
      ResolveStable(a, s.fs, j.path, a.next, s.fs.next, if s.published then {d} else {});
    }
  }

  lemma QuietSnapshot(j: Job, a: Fs, s: State, t: State)
    requires QuietInv(j, a, s) && Act(j, s, t) && Snapping(s.pc)
    ensures QuietInv(j, a, t)
  {
    NextKeepsInv(j, s, t);
  }

  lemma QuietMkDirs(j: Job, a: Fs, s: State, t: State)
    requires QuietInv(j, a, s) && Act(j, s, t) && s.pc.MkDirs?
    ensures QuietInv(j, a, t)
  {
    hide Stat, Realpath, EntryMatches, LinkMatches, RealMatches, Foreign, ThroughFile, MakeDirs;
    NextKeepsInv(j, s, t);
    MakeDirsFrame(s.fs, Parent(Target(j, s)));
  }

  /** A path that runs into a loop of links never gets past the `stat`. */
  lemma LoopsFailStat(j: Job, a: Fs, s: State)
    requires QuietInv(j, a, s) && !s.published && !Snapping(s.pc)
    requires IsLink(a, Resolved(j, a))
    ensures Stat(s.fs, Target(j, s)) == Loop
  {
    var d, n := Resolved(j, a), s.fs.next;
    assert d == Realpath(a, j.path);
    forall k: nat
      ensures IsLink(a, Resolve(a, d, k))
    {
      ResolveTwice(a, j.path, a.next, k);
      LoopsForever(a, j.path, a.next + k);
    }
    LoopStable(a, s.fs, d, n);
  }

  lemma QuietStat(j: Job, a: Fs, s: State, t: State)
    requires QuietInv(j, a, s) && Act(j, s, t) && s.pc.StatMode?
    ensures QuietInv(j, a, t)
  {
    NextKeepsInv(j, s, t);
    if IsLink(a, Resolved(j, a)) {
      LoopsFailStat(j, a, s);
    } else {
      StillResolves(j, a, s);
      assert Target(j, s) in s.fs.names <==> Target(j, s) in a.names;
    }
  }

  lemma QuietMkTemp(j: Job, a: Fs, s: State, t: State)
    requires QuietInv(j, a, s) && Act(j, s, t) && s.pc.MkTemp?
    ensures QuietInv(j, a, t)
  {
    hide MakeDirs, Stat, Realpath, EntryMatches, LinkMatches, RealMatches, Foreign, Inv;
    NextKeepsInv(j, s, t);
    assert WellFormed(s.fs) && !s.published && s.tmp.None? by { InvMkTemp(j, s); }
  }

  lemma InvMkTemp(j: Job, s: State)
    requires Inv(j, s) && s.pc.MkTemp?
    ensures WellFormed(s.fs) && !s.published && s.tmp.None?
  {
  }

  lemma QuietWriting(j: Job, a: Fs, s: State, t: State)
    requires QuietInv(j, a, s) && Act(j, s, t) && (s.pc.Copy? || s.pc.Seal?)
    ensures QuietInv(j, a, t)
  {
    hide MakeDirs, Stat, Realpath, EntryMatches, LinkMatches, RealMatches, Foreign, Inv;
    NextKeepsInv(j, s, t);
    PrivateInode(j, s);
  }

  lemma PrivateInode(j: Job, s: State)
    requires Inv(j, s) && Working(s.pc)
    ensures WellFormed(s.fs) && !s.published && s.mine.Some? && s.mine.value in s.fs.nodes
    ensures forall p | p in s.fs.names && s.fs.names[p] == s.mine.value :: s.tmp == Some(p)
  {
    assert forall p | p in s.fs.names && s.fs.names[p] == s.mine.value :: p in Hidden(s);
  }

  /** Undisturbed, the check succeeds: before and after the replacement. */
  lemma QuietMatch(j: Job, a: Fs, s: State)
    requires QuietInv(j, a, s) && (Checking(s.pc) || Rechecking(s.pc))
    ensures EntryMatches(j, s) == (if s.snap.Link? then None else Some(true))
    ensures s.snap.Link? ==> LinkMatches(j, s) && RealMatches(j, s)
  {
    StillResolves(j, a, s);
    if s.published {
      assert s.snap.Link? && j.path != Resolved(j, a);
    }
  }

  lemma QuietChecking(j: Job, a: Fs, s: State, t: State)
    requires QuietInv(j, a, s) && Act(j, s, t) && (Checking(s.pc) || Rechecking(s.pc))
    ensures QuietInv(j, a, t)
  {
    hide MakeDirs, Realpath, Foreign, LinkMatches, RealMatches, EntryMatches;
    NextKeepsInv(j, s, t);
    QuietMatch(j, a, s);
  }

  lemma QuietPublish(j: Job, a: Fs, s: State, t: State)
    requires QuietInv(j, a, s) && Act(j, s, t) && s.pc.Publish?
    ensures QuietInv(j, a, t)
  {
    hide MakeDirs, Realpath, Stat, LinkMatches, RealMatches, EntryMatches, Foreign, Inv;
    NextKeepsInv(j, s, t);
    PrivateInode(j, s);
    TemporaryInTree(j, s);
  }

  lemma TemporaryInTree(j: Job, s: State)
    requires Inv(j, s) && s.tmp.Some? && s.mine.Some? && !s.pc.End?
    ensures s.tmp.value in s.fs.names && s.fs.names[s.tmp.value] == s.mine.value
    ensures s.tmp.value != Target(j, s) && s.tmp.value != j.path && s.mine.value in s.fs.nodes
    ensures s.pc.DropTemp? ==> s.published
    ensures s.pc == Cleanup(true) ==> s.tmp.None?
  {
  }

  lemma QuietCleanup(j: Job, a: Fs, s: State, t: State)
    requires QuietInv(j, a, s) && Act(j, s, t) && (s.pc.DropTemp? || s.pc.Cleanup?)
    ensures QuietInv(j, a, t)
  {
    hide MakeDirs, Realpath, Stat, LinkMatches, RealMatches, EntryMatches, Foreign, Inv;
    NextKeepsInv(j, s, t);
    InvCleanup(j, s);
  }

  lemma InvCleanup(j: Job, s: State)
    requires Inv(j, s) && (s.pc.DropTemp? || s.pc == Cleanup(true))
    ensures s.published && s.mine.Some? && s.mine.value in s.fs.nodes
    ensures s.pc == Cleanup(true) ==> s.tmp.None?
    ensures s.tmp.Some? ==> s.tmp.value in s.fs.names && s.fs.names[s.tmp.value] == s.mine.value
    ensures s.tmp.Some? ==> s.tmp.value != Target(j, s)
  {
  }

  lemma {:induction false} QuietRunInv(j: Job, run: seq<State>, i: nat)
    requires QuietRun(j, run) && i < |run|
    ensures QuietInv(j, run[0].fs, run[i])
  {
    hide QuietInv, Act;
    var a := run[0].fs;
    if i == 0 {
      QuietStart(j, run[0]);
    } else {
      QuietRunInv(j, run, i - 1);
      QuietStepInv(j, a, run[i - 1], run[i]);
    }
  }

  lemma QuietStepInv(j: Job, a: Fs, s: State, t: State)
    requires QuietInv(j, a, s) && Act(j, s, t)
    ensures QuietInv(j, a, t)
  {
    hide QuietInv, Act;
    if Snapping(s.pc) { QuietSnapshot(j, a, s, t); }
    else if s.pc.MkDirs? { QuietMkDirs(j, a, s, t); }
    else if s.pc.StatMode? { QuietStat(j, a, s, t); }
    else if s.pc.MkTemp? { QuietMkTemp(j, a, s, t); }
    else if s.pc.Copy? || s.pc.Seal? { QuietWriting(j, a, s, t); }
    else if Checking(s.pc) || Rechecking(s.pc) { QuietChecking(j, a, s, t); }
    else if s.pc.Publish? { QuietPublish(j, a, s, t); }
    else { ActEnds(j, s, t); QuietCleanup(j, a, s, t); }
  }

  lemma ActEnds(j: Job, s: State, t: State)
    requires Act(j, s, t)
    ensures !s.pc.End?
  {
  }

  /** A place where an undisturbed commit can put a file: no regular file is on the way to it,
      nor on the way to the path that leads there, and it is neither a directory nor a link
      that never resolves. */
  predicate Placeable(j: Job, a: Fs) {
    var d := Resolved(j, a);
    !ThroughFile(a, Parent(j.path)) && !ThroughFile(a, Parent(d)) && !IsLink(a, d) && !IsDirectory(a, d)
  }

  /** How much of that has been found out. */
  predicate FoundOut(j: Job, a: Fs, s: State) {
    var d := Resolved(j, a);
    && (!s.pc.Lstat? ==> !ThroughFile(a, Parent(j.path)))
    && (!Snapping(s.pc) && !s.pc.MkDirs? ==> !ThroughFile(a, Parent(d)))
    && (s.published ==> !IsDirectory(a, d))
  }

  lemma FindsOut(j: Job, a: Fs, s: State, t: State)
    requires QuietInv(j, a, s) && FoundOut(j, a, s) && Act(j, s, t) && (s.pc.MkDirs? ==> s.fs == a)
    ensures FoundOut(j, a, t) && (t.pc.MkDirs? ==> t.fs == a)
  {
    if s.pc.Publish? {
      PublishedPlace(j, a, s, t);
    } else {
      hide ThroughFile, Inv, MakeDirs, Realpath, Stat, IsDirectory, Bind, Unbind, Create, Write, Permissions;
      hide LinkMatches, RealMatches, EntryMatches, NewFileMode, SnapshotOf, ExpectedMode, Extends;
      hide Act;
      if Snapping(s.pc) || s.pc.MkDirs? { EarlierPhases(j, s, t); } else { LaterPhases(j, s, t); }
    }
  }

  /** What a step may change of all this. */
  lemma EarlierPhases(j: Job, s: State, t: State)
    requires Act(j, s, t) && (Snapping(s.pc) || s.pc.MkDirs?)
    ensures t.published == s.published && !t.pc.Lstat?
    ensures t.pc.MkDirs? ==> t.fs == s.fs
    ensures s.pc.MkDirs? <==> !Snapping(t.pc) && !t.pc.MkDirs?
    ensures s.pc.Lstat? ==> !ThroughFile(s.fs, Parent(j.path))
    ensures s.pc.MkDirs? ==> !ThroughFile(s.fs, Parent(Target(j, s)))
  {
    hide ThroughFile, MakeDirs, Realpath;
  }

  lemma LaterPhases(j: Job, s: State, t: State)
    requires Act(j, s, t) && !s.pc.Publish? && !Snapping(s.pc) && !s.pc.MkDirs?
    ensures t.published == s.published && !Snapping(t.pc) && !t.pc.MkDirs?
  {
    if s.pc.StatMode? || s.pc.MkTemp? || s.pc.Copy? || s.pc.Seal? {
      WritingPhases(j, s, t);
    } else if Checking(s.pc) || Rechecking(s.pc) {
      hide LinkMatches, RealMatches, EntryMatches, MakeDirs, Stat, Create, Write, Bind, Unbind, Target, Parent;
    } else {
      EndingPhases(j, s, t);
    }
  }

  lemma EndingPhases(j: Job, s: State, t: State)
    requires Act(j, s, t) && (s.pc.DropTemp? || s.pc.Cleanup? || s.pc.End?)
    ensures t.published == s.published && !Snapping(t.pc) && !t.pc.MkDirs?
  {
    hide Unbind;
  }

  lemma WritingPhases(j: Job, s: State, t: State)
    requires Act(j, s, t) && (s.pc.StatMode? || s.pc.MkTemp? || s.pc.Copy? || s.pc.Seal?)
    ensures t.published == s.published && !Snapping(t.pc) && !t.pc.MkDirs?
  {
    hide Stat, Create, Write, Permissions, NewFileMode, Target, Parent;
  }

  lemma PublishedPlace(j: Job, a: Fs, s: State, t: State)
    requires QuietInv(j, a, s) && FoundOut(j, a, s) && Act(j, s, t) && s.pc.Publish?
    ensures FoundOut(j, a, t) && !t.pc.MkDirs?
  {
    hide ThroughFile, Inv, MakeDirs, Realpath, Stat, LinkMatches, RealMatches, EntryMatches, Bind, Unbind;
  }

  lemma {:induction false} FoundOutBy(j: Job, run: seq<State>, i: nat)
    requires QuietRun(j, run) && i < |run|
    ensures FoundOut(j, run[0].fs, run[i]) && (run[i].pc.MkDirs? ==> run[i].fs == run[0].fs)
  {
    if i > 0 {
      FoundOutBy(j, run, i - 1);
      QuietRunInv(j, run, i - 1);
      assert Act(j, run[i - 1], run[i]);
      hide QuietRun, QuietInv, FoundOut, Act;
      FindsOut(j, run[0].fs, run[i - 1], run[i]);
    }
  }

  /** Once the directories have been made, the one that the destination is in is there. */
  predicate Housed(j: Job, a: Fs, s: State) {
    !Snapping(s.pc) && !s.pc.MkDirs? ==>
      Parent(Resolved(j, a)) in s.fs.names && !IsFile(s.fs, Parent(Resolved(j, a)))
  }

  lemma StaysHoused(j: Job, a: Fs, s: State, t: State)
    requires QuietInv(j, a, s) && FoundOut(j, a, t) && Housed(j, a, s) && Act(j, s, t) && (s.pc.MkDirs? ==> s.fs == a)
    ensures Housed(j, a, t)
  {
    if s.pc.MkDirs? {
      HousedByMkDirs(j, a, s, t);
    } else if Snapping(s.pc) {
      EarlierPhases(j, s, t);
    } else if Before(s.pc) || s.pc.Copy? || s.pc.Seal? {
      HousedWhileWriting(j, a, s, t);
    } else {
      HousedAtTheEnd(j, a, s, t);
    }
  }

  lemma HousedByMkDirs(j: Job, a: Fs, s: State, t: State)
    requires QuietInv(j, a, s) && FoundOut(j, a, t) && Act(j, s, t) && s.pc.MkDirs? && s.fs == a
    ensures Housed(j, a, t)
  {
    var dir := Parent(Resolved(j, a));
    MakeDirsFrame(a, dir);
    MakeDirsMakes(a, dir, 0);
    assert dir[..|dir|] == dir;
    assert dir != [] ==> !IsFile(a, dir);
    hide Realpath;
  }

  lemma HousedWhileWriting(j: Job, a: Fs, s: State, t: State)
    requires QuietInv(j, a, s) && Housed(j, a, s) && Act(j, s, t)
    requires s.pc.StatMode? || s.pc.MkTemp? || s.pc.Copy? || s.pc.Seal?
    ensures Housed(j, a, t)
  {
    if s.pc.Copy? || s.pc.Seal? {
      PrivateInode(j, s);
      TemporaryInTree(j, s);
    } else {
      assert WellFormed(s.fs);
    }
    hide Inv, QuietInv, Stat, Realpath, Permissions, NewFileMode, Target, Resolved;
  }

  lemma HousedAtTheEnd(j: Job, a: Fs, s: State, t: State)
    requires QuietInv(j, a, s) && Housed(j, a, s) && Act(j, s, t)
    requires !Before(s.pc) && !s.pc.Copy? && !s.pc.Seal?
    ensures Housed(j, a, t)
  {
    if s.pc.Publish? {
      TemporaryStands(j, s);
    }
    if s.tmp.Some? && !s.pc.End? {
      MineIsThere(j, s);
      TemporaryInTree(j, s);
    }
    assert Target(j, s) == Resolved(j, a);
    hide Inv, QuietInv, Realpath, EntryMatches, LinkMatches, RealMatches;
  }

  lemma MineIsThere(j: Job, s: State)
    requires Inv(j, s) && s.tmp.Some?
    ensures s.mine.Some? && s.mine.value in s.fs.nodes && s.fs.nodes[s.mine.value].File?
  {
  }

  lemma {:induction false} HousedBy(j: Job, run: seq<State>, i: nat)
    requires QuietRun(j, run) && i < |run|
    ensures Housed(j, run[0].fs, run[i])
  {
    if i > 0 {
      assert Act(j, run[i - 1], run[i]);
      hide QuietRun, QuietInv, FoundOut, Act, Housed;
      HousedBy(j, run, i - 1);
      QuietRunInv(j, run, i - 1);
      FoundOutBy(j, run, i - 1);
      FoundOutBy(j, run, i);
      StaysHoused(j, run[0].fs, run[i - 1], run[i]);
    }
  }

  /** An undisturbed commit ends only in such a place. */
  lemma QuietCommitNeedsAPlace(j: Job, run: seq<State>)
    requires QuietRun(j, run) && run[|run| - 1].pc.End?
    ensures Placeable(j, run[0].fs)
  {
    QuietRunInv(j, run, |run| - 1);
    FoundOutBy(j, run, |run| - 1);
    hide ThroughFile;
    assert run[|run| - 1].committed && run[|run| - 1].published;
  }

  // ---------------------------------------------------------------------------
  // In such a place it always goes through.

  lemma {:induction false} LongestName(taken: set<Path>) returns (n: nat)
    ensures forall p | p in taken && p != [] :: |p[|p| - 1]| < n
    decreases taken
  {
    n := 0;
    if taken != {} {
      var q :| q in taken;
      n := LongestName(taken - {q});
      assert forall p :: p in taken ==> p == q || p in taken - {q};
      if q != [] && |q[|q| - 1]| >= n {
        n := |q[|q| - 1]| + 1;
      }
    }
  }

  /** There is always another name. */
  lemma FreshName(directory: Path, taken: set<Path>) returns (name: Path)
    ensures name !in taken && Parent(name) == directory
  {
    var n := LongestName(taken);
    name := directory + [seq(n, _ => 'x')];
  }

  /** How much is left to do. */
  function Rank(pc: Pc): nat {
    match pc
    case Lstat => 16 case ReadLink(_) => 15 case RealPath(_, _) => 14
    case MkDirs => 13 case StatMode => 12 case MkTemp => 11 case Copy => 10 case Seal => 9
    case CheckLstat => 8 case CheckLink => 7 case CheckReal => 6
    case Publish => 5 case DropTemp => 4
    case RecheckLstat => 4 case RecheckLink => 3 case RecheckReal => 2
    case Cleanup(_) => 1 case End(_) => 0
  }

  predicate Nearer(j: Job, t: State, s: State) {
    Rank(t.pc) < Rank(s.pc) || (t.pc == s.pc && |j.payload| - t.copied < |j.payload| - s.copied)
  }

  ghost predicate OnItsWay(j: Job, a: Fs, s: State) {
    && QuietInv(j, a, s) && FoundOut(j, a, s) && Placeable(j, a)
    && (s.pc.MkDirs? ==> s.fs == a) && (s.pc.DropTemp? ==> s.tmp.Some?)
  }

  /** It can always take another step. */
  lemma GoesOn(j: Job, a: Fs, s: State) returns (t: State)
    requires OnItsWay(j, a, s) && !s.pc.End?
    ensures Act(j, s, t) && Nearer(j, t, s) && (t.pc.DropTemp? ==> t.tmp.Some?)
  {
    if Before(s.pc) {
      t := PreparingGoesOn(j, a, s);
    } else if s.pc.Copy? || s.pc.Seal? {
      t := WritingGoesOn(j, a, s);
    } else if Checking(s.pc) || Rechecking(s.pc) {
      t := CheckingGoesOn(j, a, s);
    } else {
      t := PublishingGoesOn(j, a, s);
    }
  }

  lemma PreparingGoesOn(j: Job, a: Fs, s: State) returns (t: State)
    requires OnItsWay(j, a, s) && Before(s.pc)
    ensures Act(j, s, t) && Nearer(j, t, s) && !t.pc.DropTemp?
  {
    hide ThroughFile, MakeDirs, Inv;
    match s.pc
    case Lstat =>
      t := if j.path !in s.fs.names then s.(pc := MkDirs)
           else if IsLink(s.fs, j.path) then s.(pc := ReadLink(s.fs.names[j.path]))
           else s.(pc := MkDirs, snap := Entry(s.fs.names[j.path]));
    case ReadLink(id) => t := s.(pc := RealPath(id, LinkText(s.fs, j.path)));
    case RealPath(id, text) => t := s.(pc := MkDirs, snap := Link(id, text, Realpath(s.fs, j.path)));
    case MkDirs => t := s.(pc := StatMode, fs := MakeDirs(s.fs, Parent(Target(j, s))));
    case StatMode =>
      StillResolves(j, a, s);
      hide Realpath;
      match Stat(s.fs, Target(j, s)) {
        case Found(node) => t := s.(pc := MkTemp, mode := Permissions(node));
        case NotFound => t := s.(pc := MkTemp, mode := NewFileMode(j.umask));
      }
    case MkTemp =>
      var name := FreshName(Parent(Target(j, s)), s.fs.names.Keys + {j.path, Target(j, s)});
      t := s.(pc := Copy, tmp := Some(name), mine := Some(s.fs.next), fs := Create(s.fs, name, File([], 0x0180)));
      hide QuietInv;
      MkTempActs(j, s, name);
  }

  lemma WritingGoesOn(j: Job, a: Fs, s: State) returns (t: State)
    requires OnItsWay(j, a, s) && (s.pc.Copy? || s.pc.Seal?)
    ensures Act(j, s, t) && Nearer(j, t, s) && !t.pc.DropTemp?
  {
    PrivateInode(j, s);
    hide QuietInv;
    if s.pc.Seal? {
      t := s.(pc := CheckLstat, fs := Write(s.fs, s.mine.value, File(j.payload, s.mode)));
    } else if s.copied < |j.payload| {
      var n := Min(s.copied + COPY_LENGTH, |j.payload|);
      t := s.(copied := n, fs := Write(s.fs, s.mine.value, File(j.payload[..n], 0x0180)));
    } else {
      t := s.(pc := Seal);
    }
  }

  lemma CheckingGoesOn(j: Job, a: Fs, s: State) returns (t: State)
    requires OnItsWay(j, a, s) && (Checking(s.pc) || Rechecking(s.pc))
    ensures Act(j, s, t) && Nearer(j, t, s) && !t.pc.DropTemp?
  {
    QuietMatch(j, a, s);
    hide OnItsWay;
    t := ComparingActs(j, s);
  }

  lemma ComparingActs(j: Job, s: State) returns (t: State)
    requires Checking(s.pc) || Rechecking(s.pc)
    requires EntryMatches(j, s) == (if s.snap.Link? then None else Some(true))
    ensures Act(j, s, t) && Nearer(j, t, s) && !t.pc.DropTemp?
  {
    hide EntryMatches, LinkMatches, RealMatches, MakeDirs, Stat, Create, Write, Bind, Unbind, Target, Parent;
    hide ThroughFile, IsDirectory, IsLink, Permissions, NewFileMode;
    t := s.(pc := match s.pc
                  case CheckLstat => if s.snap.Link? then CheckLink else Publish
                  case CheckLink => if LinkMatches(j, s) then CheckReal else Cleanup(false)
                  case CheckReal => if RealMatches(j, s) then Publish else Cleanup(false)
                  case RecheckLstat => if s.snap.Link? then RecheckLink else Cleanup(true)
                  case RecheckLink => if LinkMatches(j, s) then RecheckReal else Cleanup(false)
                  case _ => Cleanup(RealMatches(j, s)));
  }

  /** Nothing has come to stand in the way of the link or the replace. */
  lemma NothingInTheWay(j: Job, a: Fs, s: State)
    requires OnItsWay(j, a, s) && s.pc.Publish?
    ensures s.mine.Some? && s.tmp.Some? && !s.published
    ensures if s.snap.Missing? then j.path !in s.fs.names else !IsDirectory(s.fs, Target(j, s))
  {
    hide ThroughFile, Realpath;
    TemporaryStands(j, s);
    TemporaryInTree(j, s);
    hide Inv;
  }

  lemma TemporaryStands(j: Job, s: State)
    requires Inv(j, s) && Working(s.pc)
    ensures s.mine.Some? && s.tmp.Some? && !s.published
  {
  }

  lemma PublishingGoesOn(j: Job, a: Fs, s: State) returns (t: State)
    requires OnItsWay(j, a, s) && (s.pc.Publish? || s.pc.DropTemp? || s.pc.Cleanup?)
    ensures Act(j, s, t) && Nearer(j, t, s) && (t.pc.DropTemp? ==> t.tmp.Some?)
  {
    if s.pc.Publish? {
      NothingInTheWay(j, a, s);
      hide OnItsWay;
      t := PublishActs(j, s);
    } else {
      hide QuietInv, FoundOut, Placeable;
      t := EndingActs(j, s);
    }
  }

  lemma PublishActs(j: Job, s: State) returns (t: State)
    requires s.pc.Publish? && s.mine.Some? && s.tmp.Some?
    requires if s.snap.Missing? then j.path !in s.fs.names else !IsDirectory(s.fs, Target(j, s))
    ensures Act(j, s, t) && Nearer(j, t, s) && (t.pc.DropTemp? ==> t.tmp.Some?)
  {
    if s.snap.Missing? {
      t := s.(pc := DropTemp, replaceStarted := true, published := true, fs := Bind(s.fs, j.path, s.mine.value));
      LinkActs(j, s);
    } else {
      t := s.(pc := if s.snap.Link? then RecheckLstat else Cleanup(true), replaceStarted := true,
              published := true, committed := true, tmp := None,
              fs := Unbind(Bind(s.fs, Target(j, s), s.mine.value), s.tmp.value));
      ReplaceActs(j, s);
    }
    hide Act;
  }

  lemma EndingActs(j: Job, s: State) returns (t: State)
    requires s.pc.Cleanup? || (s.pc.DropTemp? && s.tmp.Some?)
    ensures Act(j, s, t) && Nearer(j, t, s) && !t.pc.DropTemp?
  {
    if s.pc.Cleanup? {
      t := s.(pc := End(s.pc.ok), fs := if s.tmp.Some? then Unbind(s.fs, s.tmp.value) else s.fs);
    } else {
      t := s.(pc := Cleanup(true), committed := true, tmp := None, fs := Unbind(s.fs, s.tmp.value));
    }
  }

  lemma StaysOnItsWay(j: Job, a: Fs, s: State, t: State)
    requires OnItsWay(j, a, s) && Act(j, s, t) && (t.pc.DropTemp? ==> t.tmp.Some?)
    ensures OnItsWay(j, a, t)
  {
    hide QuietInv, FoundOut, Placeable, Act;
    QuietStepInv(j, a, s, t);
    FindsOut(j, a, s, t);
  }

  /** So an undisturbed commit can go through exactly where a file can be put. */
  lemma CommitsIff(j: Job, s: State)
    requires Starts(s)
    ensures Placeable(j, s.fs) <==> exists run: seq<State> :: QuietlyCommits(j, s, run)
  {
    if Placeable(j, s.fs) {
      QuietStart(j, s);
      var run := RunsOn(j, [s]);
      assert QuietlyCommits(j, s, run);
    }
    if run: seq<State> :| QuietlyCommits(j, s, run) {
      QuietCommitNeedsAPlace(j, run);
    }
  }

  ghost predicate QuietlyCommits(j: Job, s: State, run: seq<State>) {
    QuietRun(j, run) && run[0] == s && run[|run| - 1].pc == End(true)
  }

  lemma {:induction false} RunsOn(j: Job, run: seq<State>) returns (longer: seq<State>)
    requires QuietRun(j, run) && OnItsWay(j, run[0].fs, run[|run| - 1])
    ensures QuietRun(j, longer) && longer[0] == run[0] && longer[|longer| - 1].pc == End(true)
    decreases Rank(run[|run| - 1].pc), |j.payload| - run[|run| - 1].copied
  {
    var a, s := run[0].fs, run[|run| - 1];
    if s.pc.End? {
      longer := run;
    } else {
      var t := GoesOn(j, a, s);
      StaysOnItsWay(j, a, s, t);
      CopiedFits(j, a, s);
      CopiedFits(j, a, t);
      hide OnItsWay, Act;
      longer := RunsOn(j, run + [t]);
    }
  }

  lemma CopiedFits(j: Job, a: Fs, s: State)
    requires OnItsWay(j, a, s)
    ensures s.copied <= |j.payload| && s.pc != End(false)
  {
  }

  /** What an undisturbed commit leaves behind when it ends.  It has succeeded; the resolved
      destination is the payload with the mode of what was there before or a new file's
      mode; every other name that existed, each link on the way included, leads to the same
      inode with the same contents; and nothing is new but directories above the
      destination. */
  lemma QuietCommitFrame(j: Job, run: seq<State>)
    requires QuietRun(j, run) && run[|run| - 1].pc.End?
    ensures var a, s, d := run[0].fs, run[|run| - 1], Resolved(j, run[0].fs);
      && s.pc == End(true)
      && d in s.fs.names && s.fs.names[d] in s.fs.nodes
      && s.fs.nodes[s.fs.names[d]] == File(j.payload, ExpectedMode(j, a))
      && (forall p | p in a.names && p != d :: p in s.fs.names && s.fs.names[p] == a.names[p])
      && (forall i | i in a.nodes :: i in s.fs.nodes && s.fs.nodes[i] == a.nodes[i])
      && (forall p | p in s.fs.names && p !in a.names && p != d :: p < d && IsDirectory(s.fs, p))
      && Parent(d) in s.fs.names
  {
    var a, s := run[0].fs, run[|run| - 1];
    QuietRunInv(j, run, |run| - 1);
    HousedBy(j, run, |run| - 1);
    assert s.committed && s.published && s.tmp.None?;
  }

  /** Links keep their identity and their text, so the path still resolves to the file. */
  lemma QuietCommitKeepsLinks(j: Job, run: seq<State>)
    requires QuietRun(j, run) && run[|run| - 1].pc.End?
    ensures var a, s := run[0].fs, run[|run| - 1];
      && Realpath(s.fs, j.path) == Resolved(j, a)
      && (IsLink(a, j.path) ==> (
            && IsLink(s.fs, j.path) && s.fs.names[j.path] == a.names[j.path]
            && LinkText(s.fs, j.path) == LinkText(a, j.path)))
  {
    var a, s := run[0].fs, run[|run| - 1];
    QuietRunInv(j, run, |run| - 1);
    StillResolves(j, a, s);
    if IsLink(a, j.path) {
      assert j.path != Resolved(j, a);
    }
  }
}
