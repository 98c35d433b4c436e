/** What the commit compares, and when: the destination at each check is held against the
    destination at the snapshot, over whole runs in which others act between any two calls. */
module Comparison {
  import opened Common
  import opened FileTree
  import opened Commit

  /** The receiver's call at moment `k` has come back. */
  predicate Makes(run: seq<State>, k: nat) {
    k + 1 < |run| && run[k].pc != run[k + 1].pc
  }

  function InodeAt(fs: Fs, p: Path): Option<Ino> {
    if p in fs.names then Some(fs.names[p]) else None
  }

  /** The path leads to the same inode, or to none, and is a link in both or in neither. */
  predicate SameEntry(p: Path, a: Fs, b: Fs) {
    InodeAt(a, p) == InodeAt(b, p) && (IsLink(a, p) <==> IsLink(b, p))
  }

  predicate SameText(p: Path, a: Fs, b: Fs) {
    IsLink(a, p) && IsLink(b, p) && LinkText(a, p) == LinkText(b, p)
  }

  /** The three calls of a comparison, before or after the replacement. */
  predicate AtEntry(pc: Pc, again: bool) {
    if again then pc.RecheckLstat? else pc.CheckLstat?
  }

  predicate AtText(pc: Pc, again: bool) {
    if again then pc.RecheckLink? else pc.CheckLink?
  }

  predicate AtDestination(pc: Pc, again: bool) {
    if again then pc.RecheckReal? else pc.CheckReal?
  }

  // ---------------------------------------------------------------------------
  // What the receiver remembers.

  function Noted(s: State): Option<Ino> {
    match s.pc
    case ReadLink(id) => Some(id)
    case RealPath(id, _) => Some(id)
    case _ => if s.snap.Missing? then None else Some(s.snap.id)
  }

  predicate NotedLink(s: State) {
    s.pc.ReadLink? || s.pc.RealPath? || s.snap.Link?
  }

  lemma OwnOrSame(j: Job, run: seq<State>, k: nat)
    requires Run(j, run) && k + 1 < |run|
    ensures Own(j, run[k], run[k + 1]) || (!Makes(run, k) && run[k + 1].snap == run[k].snap)
  {
    hide Own;
    assert Next(j, run[k], run[k + 1]);
  }

  lemma Working(j: Job, run: seq<State>, k: nat, n: nat)
    requires Run(j, run) && k <= n < |run| && !Settled(run[n])
    ensures !Settled(run[k])
  {
    if Settled(run[k]) {
      SettledForGood(j, run, k, n);
    }
  }

  /** A step that goes on remembers what it knew, and the three calls of the snapshot see it. */
  lemma Remembers(j: Job, s: State, t: State)
    requires Own(j, s, t) && !Settled(t) && (s.pc.Lstat? ==> s.snap.Missing?)
    ensures !s.pc.Lstat? ==> Noted(t) == Noted(s) && (NotedLink(t) <==> NotedLink(s))
    ensures s.pc.Lstat? ==> Noted(t) == InodeAt(s.fs, j.path) && (NotedLink(t) <==> IsLink(s.fs, j.path))
    ensures s.pc.ReadLink? ==> IsLink(s.fs, j.path) && t.pc.RealPath? && t.pc.text == LinkText(s.fs, j.path)
    ensures s.pc.RealPath? ==>
              t.pc.MkDirs? && t.snap.Link? && t.snap.text == s.pc.text && t.snap.destination == Realpath(s.fs, j.path)
    ensures !s.pc.Lstat? && !s.pc.ReadLink? && !s.pc.RealPath? ==> t.snap == s.snap && Later(t.pc)
    ensures s.pc.Lstat? ==> !t.snap.Link? && (t.pc.ReadLink? || (t.pc.MkDirs? && !IsLink(s.fs, j.path)))
  {
    if Later(s.pc) {
      Flows(j, s, t);
      hide Own;
    } else {
      hide Realpath, Parent, ThroughFile;
    }
  }

  /** Which call may follow which. */
  predicate Flow(a: Pc, b: Pc) {
    || b == Cleanup(false)
    || match a {
         case Lstat => b.MkDirs? || b.ReadLink?
         case ReadLink(_) => b.RealPath?
         case RealPath(_, _) => b.MkDirs?
         case MkDirs => b.StatMode?
         case StatMode => b.MkTemp?
         case MkTemp => b.Copy?
         case Copy => b.Copy? || b.Seal?
         case Seal => b.CheckLstat?
         case CheckLstat => b.CheckLink? || b.Publish?
         case CheckLink => b.CheckReal?
         case CheckReal => b.Publish?
         case Publish => b.DropTemp? || b.RecheckLstat? || b == Cleanup(true)
         case DropTemp => b == Cleanup(true)
         case RecheckLstat => b.RecheckLink? || b == Cleanup(true)
         case RecheckLink => b.RecheckReal?
         case RecheckReal => b == Cleanup(true)
         case Cleanup(_) => b.End?
         case End(_) => false
       }
  }

  lemma Flows(j: Job, s: State, t: State)
    requires Own(j, s, t)
    ensures Flow(s.pc, t.pc) && (Later(s.pc) ==> t.snap == s.snap)
  {
    if Fault(j, s, t) { FaultFlows(j, s, t); }
    else if !Later(s.pc) { FlowsSnapping(j, s, t); }
    else if Before(s.pc) { FlowsPreparing(j, s, t); }
    else if s.pc.Copy? || s.pc.Seal? { FlowsWriting(j, s, t); }
    else if Checking(s.pc) || Rechecking(s.pc) { FlowsChecking(j, s, t); }
    else { FlowsPublishing(j, s, t); }
    hide Act, Fault;
  }

  lemma FaultFlows(j: Job, s: State, t: State)
    requires Fault(j, s, t)
    ensures t.pc == Cleanup(false) && t.snap == s.snap
  {
    hide MakeDirs, ThroughFile, Target, Parent;
  }

  lemma FlowsSnapping(j: Job, s: State, t: State)
    requires Act(j, s, t) && !Later(s.pc)
    ensures Flow(s.pc, t.pc)
  {
    hide Realpath, Parent, ThroughFile;
  }

  lemma FlowsPreparing(j: Job, s: State, t: State)
    requires Act(j, s, t) && (s.pc.MkDirs? || s.pc.StatMode? || s.pc.MkTemp?)
    ensures Flow(s.pc, t.pc) && t.snap == s.snap
  {
    hide MakeDirs, Stat, Create, Permissions, NewFileMode, Target, Parent, ThroughFile;
  }

  lemma FlowsWriting(j: Job, s: State, t: State)
    requires Act(j, s, t) && (s.pc.Copy? || s.pc.Seal?)
    ensures Flow(s.pc, t.pc) && t.snap == s.snap
  {
    hide Write;
  }

  lemma FlowsChecking(j: Job, s: State, t: State)
    requires Act(j, s, t) && (Checking(s.pc) || Rechecking(s.pc))
    ensures Flow(s.pc, t.pc) && t.snap == s.snap
  {
    hide EntryMatches, LinkMatches, RealMatches;
  }

  lemma FlowsPublishing(j: Job, s: State, t: State)
    requires Act(j, s, t) && (s.pc.Publish? || s.pc.DropTemp? || s.pc.Cleanup? || s.pc.End?)
    ensures Flow(s.pc, t.pc) && t.snap == s.snap
  {
    hide Bind, Unbind, Target, IsDirectory;
  }

  /** Nothing has been noted before the first call. */
  lemma {:induction false} NothingNoted(j: Job, run: seq<State>, n: nat)
    requires Run(j, run) && n < |run| && run[n].pc.Lstat?
    ensures run[n].snap.Missing?
  {
    if n > 0 {
      hide Run, Own;
      OwnOrSame(j, run, n - 1);
      if Own(j, run[n - 1], run[n]) {
        Flows(j, run[n - 1], run[n]);
      } else {
        NothingNoted(j, run, n - 1);
      }
    }
  }

  predicate Later(pc: Pc) {
    !pc.Lstat? && !pc.ReadLink? && !pc.RealPath?
  }

  lemma {:induction false} EntrySince(j: Job, run: seq<State>, l: nat, n: nat)
    requires Run(j, run) && Makes(run, l) && run[l].pc.Lstat? && l < n < |run| && !Settled(run[n])
    ensures Noted(run[n]) == InodeAt(run[l].fs, j.path) && (NotedLink(run[n]) <==> IsLink(run[l].fs, j.path))
    ensures !run[n].pc.Lstat?
    decreases n
  {
    hide Run, Own;
    OwnOrSame(j, run, n - 1);
    if n == l + 1 {
      NothingNoted(j, run, l);
      Remembers(j, run[l], run[n]);
    } else {
      Working(j, run, n - 1, n);
      EntrySince(j, run, l, n - 1);
      if Own(j, run[n - 1], run[n]) {
        Remembers(j, run[n - 1], run[n]);
      }
    }
  }

  lemma {:induction false} TextSince(j: Job, run: seq<State>, r: nat, n: nat)
    requires Run(j, run) && Makes(run, r) && run[r].pc.ReadLink? && r < n < |run| && !Settled(run[n])
    ensures IsLink(run[r].fs, j.path)
    ensures if run[n].pc.RealPath? then run[n].pc.text == LinkText(run[r].fs, j.path)
            else Later(run[n].pc) && run[n].snap.Link? && run[n].snap.text == LinkText(run[r].fs, j.path)
    decreases n
  {
    hide Run, Own, IsLink, LinkText;
    OwnOrSame(j, run, n - 1);
    if n == r + 1 {
      Remembers(j, run[r], run[n]);
    } else {
      Working(j, run, n - 1, n);
      TextSince(j, run, r, n - 1);
      if Own(j, run[n - 1], run[n]) {
        Remembers(j, run[n - 1], run[n]);
      }
    }
  }

  lemma {:induction false} DestinationSince(j: Job, run: seq<State>, p: nat, n: nat)
    requires Run(j, run) && Makes(run, p) && run[p].pc.RealPath? && p < n < |run| && !Settled(run[n])
    ensures Later(run[n].pc) && run[n].snap.Link? && run[n].snap.destination == Realpath(run[p].fs, j.path)
    decreases n
  {
    hide Run, Own, IsLink, LinkText, Realpath;
    OwnOrSame(j, run, n - 1);
    if n == p + 1 {
      Remembers(j, run[p], run[n]);
    } else {
      Working(j, run, n - 1, n);
      DestinationSince(j, run, p, n - 1);
      if Own(j, run[n - 1], run[n]) {
        Remembers(j, run[n - 1], run[n]);
      }
    }
  }

  // ---------------------------------------------------------------------------
  // A difference makes the receiver give up.

  /** What the calls of a comparison do with what they see. */
  lemma ComparesEntry(j: Job, s: State, t: State, again: bool)
    requires Own(j, s, t) && AtEntry(s.pc, again)
    ensures var same := InodeAt(s.fs, j.path) == Noted(s) && (IsLink(s.fs, j.path) <==> NotedLink(s));
            && (!same ==> t.pc == Cleanup(false))
            && (same && Act(j, s, t) ==> if NotedLink(s) then AtText(t.pc, again) else Accepts(t.pc, again))
            && (same ==> t.pc == Cleanup(false) || if NotedLink(s) then AtText(t.pc, again) else Accepts(t.pc, again))
  {
    hide Realpath, LinkText;
  }

  lemma ComparesText(j: Job, s: State, t: State, again: bool)
    requires Own(j, s, t) && AtText(s.pc, again) && s.snap.Link?
    ensures var same := IsLink(s.fs, j.path) && LinkText(s.fs, j.path) == s.snap.text;
            && (!same ==> t.pc == Cleanup(false))
            && (same && Act(j, s, t) ==> AtDestination(t.pc, again))
            && (t.pc == Cleanup(false) || AtDestination(t.pc, again))
  {
  }

  lemma ComparesDestination(j: Job, s: State, t: State, again: bool)
    requires Own(j, s, t) && AtDestination(s.pc, again) && s.snap.Link?
    ensures var same := Realpath(s.fs, j.path) == s.snap.destination;
            && (!same ==> t.pc == Cleanup(false))
            && (same && Act(j, s, t) ==> Accepts(t.pc, again))
            && (t.pc == Cleanup(false) || Accepts(t.pc, again))
  {
    hide Realpath;
  }

  predicate Accepts(pc: Pc, again: bool) {
    if again then pc == Cleanup(true) else pc.Publish?
  }

  /** The entry: at a check that finds another inode than the snapshot did, or an inode where
      there was none, or none where there was one, or a link instead of something else, the
      receiver gives up; at one that finds the same it goes on, unless the call fails. */
  lemma EntryDifferenceGivesUp(j: Job, run: seq<State>, l: nat, c: nat, again: bool)
    requires Run(j, run) && Makes(run, l) && run[l].pc.Lstat?
    requires l < c && Makes(run, c) && AtEntry(run[c].pc, again)
    ensures !SameEntry(j.path, run[l].fs, run[c].fs) ==> run[c + 1].pc == Cleanup(false)
    ensures SameEntry(j.path, run[l].fs, run[c].fs) && Act(j, run[c], run[c + 1]) ==> run[c + 1].pc != Cleanup(false)
  {
    hide Run, Own, Act, IsLink;
    OwnOrSame(j, run, c);
    EntrySince(j, run, l, c);
    ComparesEntry(j, run[c], run[c + 1], again);
  }

  /** The text of a link, ... */
  lemma TextDifferenceGivesUp(j: Job, run: seq<State>, r: nat, e: nat, again: bool)
    requires Run(j, run) && Makes(run, r) && run[r].pc.ReadLink?
    requires r < e && Makes(run, e) && AtText(run[e].pc, again)
    ensures !SameText(j.path, run[r].fs, run[e].fs) ==> run[e + 1].pc == Cleanup(false)
    ensures SameText(j.path, run[r].fs, run[e].fs) && Act(j, run[e], run[e + 1]) ==> run[e + 1].pc != Cleanup(false)
  {
    hide Run, Own, Act, IsLink, LinkText;
    OwnOrSame(j, run, e);
    TextSince(j, run, r, e);
    ComparesText(j, run[e], run[e + 1], again);
  }

  /** ... and what it resolves to. */
  lemma DestinationDifferenceGivesUp(j: Job, run: seq<State>, p: nat, q: nat, again: bool)
    requires Run(j, run) && Makes(run, p) && run[p].pc.RealPath?
    requires p < q && Makes(run, q) && AtDestination(run[q].pc, again)
    ensures Realpath(run[p].fs, j.path) != Realpath(run[q].fs, j.path) ==> run[q + 1].pc == Cleanup(false)
    ensures Realpath(run[p].fs, j.path) == Realpath(run[q].fs, j.path) && Act(j, run[q], run[q + 1]) ==>
              run[q + 1].pc != Cleanup(false)
  {
    hide Run, Own, Act, Realpath;
    OwnOrSame(j, run, q);
    DestinationSince(j, run, p, q);
    ComparesDestination(j, run[q], run[q + 1], again);
  }

  // ---------------------------------------------------------------------------
  // What was compared when the receiver goes on.

  lemma {:induction false} Leaves(run: seq<State>, a: nat, b: nat) returns (k: nat)
    requires a <= b < |run| && run[a].pc != run[b].pc
    ensures a <= k < b && run[k].pc == run[a].pc && Makes(run, k)
    decreases b - a
  {
    if run[a + 1].pc == run[a].pc {
      k := Leaves(run, a + 1, b);
    } else {
      k := a;
    }
  }

  lemma {:induction false} Entered(run: seq<State>, a: nat, b: nat) returns (k: nat)
    requires a <= b < |run| && run[a].pc != run[b].pc
    ensures a <= k < b && run[k + 1].pc == run[b].pc && Makes(run, k)
    decreases b
  {
    if run[b - 1].pc == run[b].pc {
      k := Entered(run, a, b - 1);
    } else {
      k := b - 1;
    }
  }

  /** The comparison that ends at moment `q`: the entry at `c` is that of the snapshot at `l`. */
  predicate Compared(j: Job, run: seq<State>, l: nat, c: nat, q: nat, again: bool) {
    && l < c <= q && Makes(run, l) && run[l].pc.Lstat? && Makes(run, c) && AtEntry(run[c].pc, again)
    && SameEntry(j.path, run[l].fs, run[c].fs)
  }

  /** ... and if it is a link, the text at `e` is that of the snapshot at `r`, and what it
      resolves to at `q` what it resolved to at `p`. */
  predicate LinkCompared(j: Job, run: seq<State>, l: nat, r: nat, p: nat, c: nat, e: nat, q: nat, again: bool) {
    && l < r < p < c < e < q < |run|
    && Makes(run, r) && run[r].pc.ReadLink? && Makes(run, p) && run[p].pc.RealPath?
    && Makes(run, e) && AtText(run[e].pc, again) && Makes(run, q) && AtDestination(run[q].pc, again)
    && SameText(j.path, run[r].fs, run[e].fs)
    && Realpath(run[p].fs, j.path) == Realpath(run[q].fs, j.path)
  }

  /** The two entering steps back from the last call of a comparison of links. */
  lemma Backwards(j: Job, run: seq<State>, q: nat, again: bool) returns (c: nat, e: nat)
    requires Run(j, run) && q < |run| && AtDestination(run[q].pc, again)
    ensures c < e < q && Makes(run, c) && AtEntry(run[c].pc, again) && Makes(run, e) && AtText(run[e].pc, again)
    ensures AtText(run[c + 1].pc, again) && AtDestination(run[e + 1].pc, again)
  {
    assert run[0].pc.Lstat?;
    hide Own, Run;
    e := Entered(run, 0, q);
    OwnOrSame(j, run, e);
    Flows(j, run[e], run[e + 1]);
    c := Entered(run, 0, e);
    OwnOrSame(j, run, c);
    Flows(j, run[c], run[c + 1]);
  }

  lemma Remembered(j: Job, run: seq<State>, k: nat, n: nat)
    requires Run(j, run) && Makes(run, k) && k < n < |run| && !Settled(run[n]) && !Later(run[k].pc)
    requires run[k].pc.Lstat? ==> run[k].snap.Missing?
    ensures run[k].pc.ReadLink? ==> run[k + 1].pc.RealPath?
    ensures run[k].pc.Lstat? ==> run[k + 1].pc.ReadLink? || (run[k + 1].pc.MkDirs? && !IsLink(run[k].fs, j.path))
  {
    hide Run, Own;
    OwnOrSame(j, run, k);
    Working(j, run, k + 1, n);
    Remembers(j, run[k], run[k + 1]);
  }

  /** The three calls of a snapshot of a link. */
  lemma SnapshotCalls(j: Job, run: seq<State>, n: nat) returns (l: nat, r: nat, p: nat)
    requires Run(j, run) && n < |run| && Later(run[n].pc) && !Settled(run[n])
    ensures l < n && Makes(run, l) && run[l].pc.Lstat?
    ensures IsLink(run[l].fs, j.path) ==>
              l < r < p < n && Makes(run, r) && run[r].pc.ReadLink? && Makes(run, p) && run[p].pc.RealPath?
  {
    assert run[0].pc.Lstat?;
    hide Own, Run, Settled, IsLink, InodeAt, LinkText, Realpath, Noted, NotedLink;
    l := Leaves(run, 0, n);
    NothingNoted(j, run, l);
    Remembered(j, run, l, n);
    r, p := 0, 0;
    if run[l + 1].pc.ReadLink? {
      r := Leaves(run, l + 1, n);
      Remembered(j, run, r, n);
      p := Leaves(run, r + 1, n);
    }
  }

  /** The receiver publishes only over what it saw at the snapshot: the step that lets it go on
      to the link or the replace ends a comparison in which the path led to the inode it led to
      at the snapshot, or to nothing in both; and for a link its text and what it resolves to were
      those of the snapshot too. */
  lemma PublishesOverTheSnapshot(j: Job, run: seq<State>, i: nat) returns (l: nat, c: nat)
    requires Run(j, run) && Makes(run, i) && run[i + 1].pc.Publish?
    ensures Compared(j, run, l, c, i, false)
    ensures IsLink(run[l].fs, j.path) ==> exists r, p, e :: LinkCompared(j, run, l, r, p, c, e, i, false)
  {
    hide Run, Own, IsLink, SameText, Realpath;
    OwnOrSame(j, run, i);
    Flows(j, run[i], run[i + 1]);
    l, c := ComparisonEnds(j, run, i, false);
  }

  /** After the replacement of what a link led to, the receiver reports success only if the same
      comparison has come out the same again. */
  lemma SucceedsOverTheSnapshot(j: Job, run: seq<State>, i: nat) returns (l: nat, c: nat)
    requires Run(j, run) && Makes(run, i) && run[i + 1].pc == Cleanup(true) && run[i].snap.Link?
    ensures Compared(j, run, l, c, i, true)
    ensures IsLink(run[l].fs, j.path) && exists r, p, e :: LinkCompared(j, run, l, r, p, c, e, i, true)
  {
    RunInv(j, run, i);
    hide Run, Own, IsLink, SameText, Realpath;
    OwnOrSame(j, run, i);
    LinkSuccess(j, run[i], run[i + 1]);
    l, c := ComparisonEnds(j, run, i, true);
    EntrySince(j, run, l, i);
  }

  lemma LinkSuccess(j: Job, s: State, t: State)
    requires Own(j, s, t) && t.pc == Cleanup(true) && t.pc != s.pc && s.snap.Link? && Inv(j, s)
    ensures AtDestination(s.pc, true) || AtEntry(s.pc, true)
  {
  }

  lemma ComparisonEnds(j: Job, run: seq<State>, q: nat, again: bool) returns (l: nat, c: nat)
    requires Run(j, run) && Makes(run, q) && Accepts(run[q + 1].pc, again)
    requires AtEntry(run[q].pc, again) || AtDestination(run[q].pc, again)
    ensures Compared(j, run, l, c, q, again)
    ensures IsLink(run[l].fs, j.path) ==> exists r, p, e :: LinkCompared(j, run, l, r, p, c, e, q, again)
  {
    hide Run, Own, IsLink, SameText, Realpath;
    var e := q;
    if AtEntry(run[q].pc, again) {
      c := q;
    } else {
      c, e := Backwards(j, run, q, again);
    }
    var r, p;
    l, r, p := SnapshotCalls(j, run, c);
    EntrySince(j, run, l, c);
    OwnOrSame(j, run, c);
    ComparesEntry(j, run[c], run[c + 1], again);
    if IsLink(run[l].fs, j.path) {
      TextDifferenceGivesUp(j, run, r, e, again);
      DestinationDifferenceGivesUp(j, run, p, q, again);
      assert LinkCompared(j, run, l, r, p, c, e, q, again);
    }
  }

  // ---------------------------------------------------------------------------
  // When `unchanged` must be reported.

  /** Neither flag is set before the link or the replace is called. */
  predicate Untried(s: State) {
    && !s.replaceStarted && !s.committed && !s.pc.Publish? && !s.pc.DropTemp? && !Rechecking(s.pc)
    && s.pc != Cleanup(true) && s.pc != End(true)
  }

  lemma StaysUntried(j: Job, s: State, t: State)
    requires Untried(s) && Own(j, s, t) && !t.pc.Publish?
    ensures Untried(t)
  {
    Flows(j, s, t);
    SameFlags(j, s, t);
    hide Own;
    if s.pc.Cleanup? {
      CleansUpAsFailed(j, s, t);
    }
  }

  lemma CleansUpAsFailed(j: Job, s: State, t: State)
    requires Own(j, s, t) && s.pc.Cleanup?
    ensures t.pc == End(s.pc.ok)
  {
    hide Unbind;
  }

  lemma SameFlags(j: Job, s: State, t: State)
    requires Own(j, s, t) && !s.pc.Publish? && !s.pc.DropTemp?
    ensures t.replaceStarted == s.replaceStarted && t.committed == s.committed
  {
    if Fault(j, s, t) {
      hide MakeDirs, ThroughFile, Target, Parent;
    } else if !Later(s.pc) {
      hide Realpath, Parent, ThroughFile;
    } else if Before(s.pc) {
      PreparingKeepsFlags(j, s, t);
    } else {
      FinishingKeepsFlags(j, s, t);
    }
  }

  lemma PreparingKeepsFlags(j: Job, s: State, t: State)
    requires Act(j, s, t) && Before(s.pc) && Later(s.pc)
    ensures t.replaceStarted == s.replaceStarted && t.committed == s.committed
  {
    hide MakeDirs, Stat, Create, Permissions, NewFileMode, Target, Parent, ThroughFile;
  }

  lemma FinishingKeepsFlags(j: Job, s: State, t: State)
    requires Act(j, s, t) && !Before(s.pc) && !s.pc.Publish? && !s.pc.DropTemp?
    ensures t.replaceStarted == s.replaceStarted && t.committed == s.committed
  {
    hide EntryMatches, LinkMatches, RealMatches, Unbind, Write;
  }

  lemma OthersKeepFlags(s: State, t: State)
    requires Others(s, t)
    ensures Untried(s) ==> Untried(t)
  {
    hide Foreign;
  }

  /** A commit that never got as far as the link or the replace reports `unchanged`. */
  lemma {:induction false} UntriedSaysUnchanged(j: Job, run: seq<State>, n: nat)
    requires Run(j, run) && n < |run| && forall k :: 0 <= k <= n ==> !run[k].pc.Publish?
    ensures Untried(run[n]) && ReportedState(run[n]) == Unchanged
  {
    if n > 0 {
      UntriedSaysUnchanged(j, run, n - 1);
      assert Next(j, run[n - 1], run[n]);
      hide Run, Own, Others;
      if Own(j, run[n - 1], run[n]) {
        StaysUntried(j, run[n - 1], run[n]);
      } else {
        OthersKeepFlags(run[n - 1], run[n]);
      }
    }
  }

  predicate Tried(s: State) {
    s.replaceStarted || s.committed
  }

  lemma StaysTried(j: Job, s: State, t: State)
    requires Own(j, s, t)
    ensures Tried(s) && Past(s.pc) ==> Tried(t) && Past(t.pc)
    ensures s.pc.Publish? && !s.snap.Missing? && t.pc != s.pc ==> Tried(t) && Past(t.pc)
  {
    Flows(j, s, t);
    if s.pc.Publish? || s.pc.DropTemp? {
      hide Bind, Unbind, Target, IsDirectory;
    } else {
      hide Own;
      SameFlags(j, s, t);
    }
  }

  predicate Past(pc: Pc) {
    pc.DropTemp? || Rechecking(pc) || pc.Cleanup? || pc.End?
  }

  /** Once the rename over what was there has been called, the commit reports `unknown`, whether
      the call has failed or not. */
  lemma {:induction false} TriedSaysUnknown(j: Job, run: seq<State>, k: nat, n: nat)
    requires Run(j, run) && k < n < |run| && Makes(run, k) && run[k].pc.Publish? && !run[k].snap.Missing?
    ensures Tried(run[n]) && Past(run[n].pc) && ReportedState(run[n]) == Unknown
    decreases n
  {
    assert Next(j, run[n - 1], run[n]);
    hide Run, Own, Others;
    OwnOrSame(j, run, n - 1);
    if k < n - 1 {
      TriedSaysUnknown(j, run, k, n - 1);
    }
    if Own(j, run[n - 1], run[n]) {
      StaysTried(j, run[n - 1], run[n]);
    } else {
      OthersKeepTried(run[n - 1], run[n]);
    }
  }

  lemma OthersKeepTried(s: State, t: State)
    requires Others(s, t)
    ensures t.pc == s.pc && (Tried(s) ==> Tried(t))
  {
    hide Foreign;
  }
}
