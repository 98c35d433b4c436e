/** What holds in every reachable state of a connection, whatever its tasks do. */
module SessionGuarantees {
  import opened Common
  import opened Session

  // ---------------------------------------------------------------------------
  // The invariant.

  predicate Waits(p: Phase) {
    p.Queued? || p.Finished?
  }

  predicate Writes(k: Kind) {
    k.WriteTask? || k.EditTask?
  }

  /** An error of a write, which says whether the pane has been recovered. */
  predicate SaysRecovered(exit: Exit) {
    exit.ProbeHung? || (exit.Raise? && exit.recovered.Some?)
  }

  /** The phases each kind of operation goes through. */
  predicate PhaseOf(k: Kind, p: Phase) {
    match p
    case Queued => true
    case Finished => true
    case Killing(_) => k.DisconnectTask?
    case Killed(_) => k.DisconnectTask?
    case Running => k.RunTask?
    case RunRecovering(exit) => k.RunTask? && !SaysRecovered(exit) && !exit.Escape?
    case Leaving(exit) => !k.DisconnectTask? && (SaysRecovered(exit) ==> Writes(k))
    case Commenting(writes) => if writes then Writes(k) else k.ReadTask? || k.EditTask?
    case Reading => k.ReadTask? || k.EditTask?
    case Writing => Writes(k)
    case WriteRecovering => Writes(k)
    case Probing => Writes(k)
  }

  /** What an operation on its way out knows about the pane. */
  predicate LeavingKnows(w: Shared, k: Kind, exit: Exit) {
    && (!k.RunTask? ==> w.conn.state.Busy?)
    && (match exit
        case Escape(unfinished) => w.conn.state.Busy? && w.pane == AfterEscape(unfinished)
        case ProbeHung => w.pane.LeftByProbe?
        case Normal => Known(w.pane) && (w.conn.state.Busy? ==> w.pane.Idle?)
        case Raise(known) =>
          if known == Some(true) then w.pane.Idle?
          else Known(w.pane) && (k.RunTask? && w.conn.state.Busy? ==> w.pane.Idle?)
        case Cancel => Known(w.pane) && (k.RunTask? && w.conn.state.Busy? ==> w.pane.Idle?))
  }

  /** The holder of the lock decides what the connection publishes. */
  predicate Publishes(w: Shared, task: Task) {
    && InBody(task.phase) && PhaseOf(task.kind, task.phase)
    && (if task.kind.DisconnectTask? then
          w.conn.state.Closing? && w.conn.currentOperation == Some(Disconnect) && w.begun
        else
          && w.conn.currentOperation == Some(Operation(task.name)) && !w.begun
          && (if task.phase.Leaving? then
                && (w.conn.state.Busy? || w.conn.state.Unresponsive?)
                && LeavingKnows(w, task.kind, task.phase.exit)
              else
                w.conn.state.Busy? && Known(w.pane)))
  }

  /** With the lock free, the published state is what the last holder left behind. */
  predicate Rests(w: Shared) {
    && !w.conn.state.Busy?
    && (w.conn.state.Ready? ==> w.conn.currentOperation.None? && !w.pane.InUse?)
    && (w.conn.state.Closing? ==> w.begun)
  }

  predicate SharedOk(w: Shared) {
    && (w.begun ==> !Usable(w.conn))
    && (w.holder.None? ==> Rests(w))
  }

  /** Only the holder of the lock is inside an operation or a disconnect. */
  ghost predicate OneInside(s: State) {
    && (s.shared.holder.Some? ==> s.shared.holder.value in s.tasks)
    && forall i :: i in s.tasks ==>
         if s.shared.holder == Some(i) then Publishes(s.shared, s.tasks[i]) else Waits(s.tasks[i].phase)
  }

  ghost predicate Inv(s: State) {
    SharedOk(s.shared) && OneInside(s)
  }

  /** The local part: what one step of a task does, to itself and to what it shares. */
  lemma LocalStepFits(i: nat, task: Task, next: Phase, w: Shared, v: Shared, o: Reply)
    requires SharedOk(w) && LocalStep(i, task, next, w, v, o)
    requires if w.holder == Some(i) then Publishes(w, task) else Waits(task.phase)
    ensures SharedOk(v)
    ensures if v.holder == Some(i) then Publishes(v, task.(phase := next)) else Waits(next)
    ensures w.holder != Some(i) && v.holder != Some(i) ==> v == w
    ensures w.holder == Some(i) ==> v.holder.None? || v.holder == Some(i)
    ensures w.holder != Some(i) && v.holder == Some(i) ==> w.holder.None?
  {
    hide RecordError, RecordRecovery;
    match task.phase
    case Queued => hide RunStep, FileMove, LeaveStep, KillStep;
    case Running => hide QueueStep, FileMove, LeaveStep, KillStep;
    case RunRecovering(_) => hide QueueStep, FileMove, LeaveStep, KillStep;
    case Leaving(exit) => LeaveFits(i, task, exit, next, w, v, o);
    case Killing(_) => hide QueueStep, RunStep, FileMove, LeaveStep, KilledStep;
    case Killed(_) => hide QueueStep, RunStep, FileMove, LeaveStep, KillStep;
    case Finished =>
    case _ =>
      FileMoveFits(task.kind, task.phase, next, w.pane, v.pane);
      hide QueueStep, RunStep, FileMove, LeaveStep, KillStep;
  }

  lemma LeaveFits(i: nat, task: Task, exit: Exit, next: Phase, w: Shared, v: Shared, o: Reply)
    requires task.phase == Leaving(exit) && w.holder == Some(i) && SharedOk(w) && Publishes(w, task)
    requires LeaveStep(task.kind, exit, next, w, v, o)
    ensures SharedOk(v)
    ensures if next.Finished? then v.holder.None? else v.holder == Some(i) && Publishes(v, task.(phase := next))
    ensures next.Finished? || (next.Leaving? && next.exit.Escape?)
  {
    hide RecordError, RecordRecovery;
  }

  lemma FileMoveFits(k: Kind, phase: Phase, next: Phase, p: Pane, q: Pane)
    requires FileMove(k, phase, next, p, q) && PhaseOf(k, phase) && Known(p)
    ensures InBody(next) && PhaseOf(k, next) && !k.RunTask? && !k.DisconnectTask?
    ensures next.Leaving? ==> !next.exit.Escape?
    ensures if next == Leaving(ProbeHung) then q.LeftByProbe? else Known(q)
    ensures next == Leaving(Normal) || next == Leaving(Raise(Some(true))) ==> q.Idle?
  {
  }

  lemma TaskStepKeepsInv(s: State, t: State, i: nat, next: Phase, o: Reply)
    requires Inv(s) && TaskStep(s, t, i, next, o)
    ensures Inv(t)
  {
    LocalStepFits(i, s.tasks[i], next, s.shared, t.shared, o);
    hide SharedOk, LocalStep, Publishes;
  }

  lemma NextKeepsInv(s: State, t: State)
    requires Inv(s) && Next(s, t)
    ensures Inv(t)
  {
    if i: nat, k: Kind, name: string :| Spawn(s, t, i, k, name) {
    } else {
      var i: nat, next: Phase, o: Reply :| TaskStep(s, t, i, next, o);
      TaskStepKeepsInv(s, t, i, next, o);
    }
  }

  lemma {:induction false} RunInv(run: seq<State>, n: nat)
    requires Run(run) && n < |run|
    ensures Inv(run[n])
    decreases n
  {
    hide Next, Inv;
    if n == 0 {
      assert Inv(run[0]) by { hide *; StartsWell(run[0]); }
    } else {
      RunInv(run, n - 1);
      NextKeepsInv(run[n - 1], run[n]);
    }
  }

  lemma StartsWell(s: State)
    requires Starts(s)
    ensures Inv(s)
  {
  }

  // ---------------------------------------------------------------------------
  // Busy, and who is inside.

  /** Busy means that exactly one task is inside an operation, and it is the one named. */
  lemma BusyHasOneOwner(run: seq<State>, n: nat) returns (i: nat)
    requires Run(run) && n < |run| && run[n].shared.conn.state.Busy?
    ensures run[n].shared.holder == Some(i) && i in run[n].tasks
    ensures !run[n].tasks[i].kind.DisconnectTask? && InBody(run[n].tasks[i].phase)
    ensures run[n].shared.conn.currentOperation == Some(Operation(run[n].tasks[i].name))
    ensures forall j :: j in run[n].tasks && j != i ==> !InBody(run[n].tasks[j].phase)
  {
    RunInv(run, n);
    i := run[n].shared.holder.value;
  }

  /** A task inside its body holds the lock, and the connection publishes what it does. */
  lemma {:induction false} InsideHoldsTheLock(run: seq<State>, n: nat, i: nat)
    requires Run(run) && n < |run| && i in run[n].tasks && InBody(run[n].tasks[i].phase)
    ensures run[n].shared.holder == Some(i)
    ensures run[n].tasks[i].kind.DisconnectTask? ==>
              run[n].shared.conn.state.Closing? && run[n].shared.conn.currentOperation == Some(Disconnect)
    ensures !run[n].tasks[i].kind.DisconnectTask? ==>
              && (run[n].shared.conn.state.Busy? || run[n].shared.conn.state.Unresponsive?)
              && run[n].shared.conn.currentOperation == Some(Operation(run[n].tasks[i].name))
  {
    RunInv(run, n);
  }

  /** While one task holds the lock, nothing that another does changes what they share. */
  lemma OthersLeaveItAlone(s: State, t: State, i: nat, j: nat, next: Phase, o: Reply)
    requires Inv(s) && s.shared.holder == Some(i) && j != i && TaskStep(s, t, j, next, o)
    ensures t.shared == s.shared && i in t.tasks && t.tasks[i] == s.tasks[i]
  {
    LocalStepFits(j, s.tasks[j], next, s.shared, t.shared, o);
  }

  // ---------------------------------------------------------------------------
  // Unresponsive and closing are final.

  /** The parts of a state that only ever go one way. */
  ghost predicate Onward(s: State, t: State) {
    && (!Usable(s.shared.conn) ==> !Usable(t.shared.conn))
    && (s.shared.begun ==> t.shared.begun)
    && forall i :: i in s.tasks ==> i in t.tasks && t.tasks[i].kind == s.tasks[i].kind
  }

  lemma LocalStepOnward(i: nat, task: Task, next: Phase, w: Shared, v: Shared, o: Reply)
    requires LocalStep(i, task, next, w, v, o)
    ensures !Usable(w.conn) ==> !Usable(v.conn)
    ensures w.begun ==> v.begun
  {
    hide RecordError, RecordRecovery, FileMove;
    match task.phase
    case Queued => hide RunStep, LeaveStep, KillStep;
    case Running => hide QueueStep, LeaveStep, KillStep;
    case RunRecovering(_) => hide QueueStep, LeaveStep, KillStep;
    case Leaving(_) => hide QueueStep, RunStep, KillStep;
    case Killing(_) => hide QueueStep, RunStep, LeaveStep, KilledStep;
    case Killed(_) => hide QueueStep, RunStep, LeaveStep, KillStep;
    case _ =>
  }

  lemma NextOnward(s: State, t: State)
    requires Next(s, t)
    ensures Onward(s, t)
  {
    if i: nat, k: Kind, name: string :| Spawn(s, t, i, k, name) {
    } else {
      var i: nat, next: Phase, o: Reply :| TaskStep(s, t, i, next, o);
      LocalStepOnward(i, s.tasks[i], next, s.shared, t.shared, o);
    }
  }

  /** Once unresponsive, a connection is never ready or busy again. */
  lemma {:induction false} UnresponsiveForGood(run: seq<State>, m: nat, n: nat)
    requires Run(run) && m <= n < |run| && run[m].shared.conn.state.Unresponsive?
    ensures run[n].shared.conn.state.Unresponsive? || run[n].shared.conn.state.Closing?
    decreases n
  {
    hide Next;
    if m < n {
      UnresponsiveForGood(run, m, n - 1);
      NextOnward(run[n - 1], run[n]);
    }
  }

  /** Once a disconnect has begun no operation is inside its body, whether it was queued on
      the lock before, or comes later. */
  lemma {:induction false} NoBodyAfterDisconnect(run: seq<State>, m: nat, n: nat, i: nat)
    requires Run(run) && m <= n < |run| && run[m].shared.begun
    requires i in run[n].tasks && !run[n].tasks[i].kind.DisconnectTask?
    ensures Waits(run[n].tasks[i].phase)
    ensures run[n].shared.conn.state.Closing? || run[n].shared.conn.state.Unresponsive?
  {
    BegunAt(run, m, n);
    RunInv(run, n);
  }

  lemma {:induction false} BegunAt(run: seq<State>, m: nat, n: nat)
    requires Run(run) && m <= n < |run| && run[m].shared.begun
    ensures run[n].shared.begun
    decreases n
  {
    hide Next;
    if m < n {
      BegunAt(run, m, n - 1);
      NextOnward(run[n - 1], run[n]);
    }
  }

  // ---------------------------------------------------------------------------
  // Ready and usable.

  /** Nobody has had the lock from moment `k` on, `k` itself left out. */
  ghost predicate NobodySince(run: seq<State>, k: int, n: nat) {
    k < n < |run| && forall m :: k < m <= n && 0 <= m ==> run[m].shared.holder.None?
  }

  /** The task that has the lock at moment `k`. */
  predicate HolderAt(s: State, task: Task) {
    s.shared.holder.Some? && s.shared.holder.value in s.tasks && s.tasks[s.shared.holder.value] == task
  }

  /** The connect left a command in the pane, and nobody has had the lock since. */
  ghost predicate UnusedSinceConnect(run: seq<State>, n: nat) {
    NobodySince(run, -1, n) && run[0].shared.pane.LeftByConnect?
  }

  /** An operation is about to leave something behind in the pane: a write whose probe of the
      destination hung after a recovery that worked; or any operation, with an error or a
      cancellation that nobody recovers from, over something unfinished. */
  predicate LeavesBehind(task: Task) {
    task.phase == Leaving(ProbeHung) || task.phase == Leaving(Escape(true))
  }

  /** That was so at moment `k`, and nobody has had the lock since. */
  ghost predicate UnusedSinceLeaving(run: seq<State>, k: nat, task: Task, n: nat) {
    && NobodySince(run, k, n) && HolderAt(run[k], task)
    && LeavesBehind(task)
  }

  ghost predicate SomethingLeft(run: seq<State>, n: nat) {
    exists k: nat, task: Task :: UnusedSinceLeaving(run, k, task, n)
  }

  lemma RestKeepsShared(s: State, t: State)
    requires Inv(s) && Next(s, t) && s.shared.holder.None? && t.shared.holder.None?
    ensures t.shared == s.shared
  {
    if i: nat, k: Kind, name: string :| Spawn(s, t, i, k, name) {
    } else {
      var i: nat, next: Phase, o: Reply :| TaskStep(s, t, i, next, o);
      LocalStepFits(i, s.tasks[i], next, s.shared, t.shared, o);
    }
  }

  /** Giving the lock back is a step of the task that had it. */
  lemma ReleaseIsByHolder(s: State, t: State) returns (i: nat, o: Reply)
    requires Inv(s) && Next(s, t) && s.shared.holder.Some? && t.shared.holder.None?
    ensures s.shared.holder == Some(i) && TaskStep(s, t, i, Finished, o)
  {
    if j: nat, k: Kind, name: string :| Spawn(s, t, j, k, name) {
      assert false;
    }
    var j: nat, next: Phase, p: Reply :| TaskStep(s, t, j, next, p);
    if s.shared.holder != Some(j) {
      OthersLeaveItAlone(s, t, s.shared.holder.value, j, next, p);
      assert false;
    }
    LocalStepFits(j, s.tasks[j], next, s.shared, t.shared, p);
    i, o := j, p;
  }

  /** The step on which a connection comes to rest: what it does to the pane, and what it
      publishes about it. */
  lemma ReleasedReadyButBusyIff(s: State, t: State)
    requires Inv(s) && Next(s, t) && s.shared.holder.Some? && t.shared.holder.None? && t.shared.conn.state.Ready?
    ensures s.shared.holder.value in s.tasks
    ensures var task := s.tasks[s.shared.holder.value];
            !t.shared.pane.Idle? <==> LeavesBehind(task)
    ensures t.shared.conn.currentOperation.None?
  {
    var i, o := ReleaseIsByHolder(s, t);
    hide Next;
    TaskStepKeepsInv(s, t, i, Finished, o);
    assert Publishes(s.shared, s.tasks[i]);
    hide RecordError, RecordRecovery, Inv;
  }

  /** At rest and ready, exactly: the pane is busy if and only if nobody has had the lock since
      a connect that timed out on its last command, since a write whose probe hung after a
      recovery that had worked, or since an operation that left with an error, or a cancellation
      during a recovery, that nobody recovers from. */
  lemma {:induction false} ReadyMeansUsableIff(run: seq<State>, n: nat)
    requires Run(run) && n < |run| && run[n].shared.holder.None? && run[n].shared.conn.state.Ready?
    ensures run[n].shared.conn.currentOperation.None?
    ensures !run[n].shared.pane.Idle? <==>
              UnusedSinceConnect(run, n) || SomethingLeft(run, n)
    decreases n
  {
    hide Next, Inv;
    RunInv(run, n);
    if n == 0 {
      assert Starts(run[0]);
    } else {
      RunInv(run, n - 1);
      var s, t := run[n - 1], run[n];
      if s.shared.holder.None? {
        RestKeepsShared(s, t);
        ReadyMeansUsableIff(run, n - 1);
        CausesLast(run, n);
      } else {
        ReleasedReadyButBusyIff(s, t);
        CausesBegin(run, n);
      }
    }
    assert run[n].shared.conn.currentOperation.None? by { assert Inv(run[n]); RestsQuietly(run[n]); }
  }

  lemma RestsQuietly(s: State)
    requires Inv(s) && s.shared.holder.None? && s.shared.conn.state.Ready?
    ensures s.shared.conn.currentOperation.None?
  {
  }

  /** While nobody takes the lock, a cause stays one, and no other comes up. */
  lemma CausesLast(run: seq<State>, n: nat)
    requires 0 < n < |run| && run[n - 1].shared.holder.None? && run[n].shared.holder.None?
    ensures UnusedSinceConnect(run, n) <==> UnusedSinceConnect(run, n - 1)
    ensures SomethingLeft(run, n) <==> SomethingLeft(run, n - 1)
  {
    if k: nat, task: Task :| UnusedSinceLeaving(run, k, task, n) {
      assert UnusedSinceLeaving(run, k, task, n - 1);
    }
    if SomethingLeft(run, n - 1) {
      var m := n - 1;
      var k: nat, task: Task :| UnusedSinceLeaving(run, k, task, m);
      assert UnusedSinceLeaving(run, k, task, n);
    }
  }

  /** When the lock has just been given back, only the one who gave it can be a cause. */
  lemma CausesBegin(run: seq<State>, n: nat)
    requires 0 < n < |run| && run[n - 1].shared.holder.Some? && run[n].shared.holder.None?
    requires run[n - 1].shared.holder.value in run[n - 1].tasks
    ensures !UnusedSinceConnect(run, n)
    ensures var task := run[n - 1].tasks[run[n - 1].shared.holder.value];
            SomethingLeft(run, n) <==> LeavesBehind(task)
  {
    var last := run[n - 1].tasks[run[n - 1].shared.holder.value];
    if k: nat, task: Task :| UnusedSinceLeaving(run, k, task, n) {
      assert k == n - 1;
    } else {
      assert !UnusedSinceLeaving(run, n - 1, last, n);
    }
  }

  /** No operation so far has left with an error or a cancellation that nobody recovers from,
      over something unfinished. */
  ghost predicate NoEscape(run: seq<State>, n: nat) {
    forall k: nat, i: nat :: k <= n < |run| && i in run[k].tasks ==> run[k].tasks[i].phase != Leaving(Escape(true))
  }

  ghost predicate NoWriter(run: seq<State>, n: nat) {
    forall k: nat, i: nat :: k <= n < |run| && i in run[k].tasks ==> !Writes(run[k].tasks[i].kind)
  }

  /** So if the last command of the connect completed, nothing is ever written, and no such
      error comes up, then ready always means usable. */
  lemma {:induction false} ReadyMeansUsableWithoutWrites(run: seq<State>, n: nat)
    requires Run(run) && n < |run| && run[n].shared.holder.None? && run[n].shared.conn.state.Ready?
    requires run[0].shared.pane.Idle? && NoWriter(run, n) && NoEscape(run, n)
    ensures run[n].shared.pane.Idle?
  {
    ReadyMeansUsableIff(run, n);
    if k: nat, task: Task :| UnusedSinceLeaving(run, k, task, n) {
      RunInv(run, k);
      OnlyWritersProbe(run[k], task);
    }
    hide Run;
  }

  lemma OnlyWritersProbe(s: State, task: Task)
    requires Inv(s) && HolderAt(s, task) && task.phase == Leaving(ProbeHung)
    ensures Writes(task.kind)
  {
    assert Publishes(s.shared, task);
  }

  // ---------------------------------------------------------------------------
  // Closing for good.

  /** At moment `k` a disconnect was about to leave without having killed the window and
      without saying so, and nobody has had the lock since. */
  ghost predicate UnusedSinceAbandoned(run: seq<State>, k: nat, task: Task, n: nat) {
    && NobodySince(run, k, n) && HolderAt(run[k], task)
    && (task.phase == Killed(FailedAfterCancel) || task.phase == Killed(Unexpected))
  }

  ghost predicate Abandoned(run: seq<State>, n: nat) {
    exists k: nat, task: Task :: UnusedSinceAbandoned(run, k, task, n)
  }

  lemma ReleasedClosingIff(s: State, t: State)
    requires Inv(s) && Next(s, t) && s.shared.holder.Some? && t.shared.holder.None? && t.shared.registered
    ensures s.shared.holder.value in s.tasks
    ensures var phase := s.tasks[s.shared.holder.value].phase;
            t.shared.conn.state.Closing? <==> phase == Killed(FailedAfterCancel) || phase == Killed(Unexpected)
  {
    var i, o := ReleaseIsByHolder(s, t);
    hide Next;
    assert Publishes(s.shared, s.tasks[i]);
    hide RecordError, RecordRecovery, Inv;
  }

  /** At rest and registered, a connection says closing if and only if the last task that had
      the lock was a disconnect whose kill failed after it had been cancelled, or with an error
      that it does not catch. */
  lemma {:induction false} ClosingAtRestIff(run: seq<State>, n: nat)
    requires Run(run) && n < |run| && run[n].shared.holder.None? && run[n].shared.registered
    ensures run[n].shared.conn.state.Closing? <==> Abandoned(run, n)
    decreases n
  {
    hide Next, Inv;
    if n == 0 {
      assert Starts(run[0]);
    } else {
      RunInv(run, n - 1);
      var s, t := run[n - 1], run[n];
      if s.shared.holder.None? {
        RestKeepsShared(s, t);
        ClosingAtRestIff(run, n - 1);
        AbandonedLasts(run, n);
      } else {
        ReleasedClosingIff(s, t);
        AbandonedBegins(run, n);
      }
    }
  }

  lemma AbandonedLasts(run: seq<State>, n: nat)
    requires 0 < n < |run| && run[n - 1].shared.holder.None? && run[n].shared.holder.None?
    ensures Abandoned(run, n) <==> Abandoned(run, n - 1)
  {
    if k: nat, task: Task :| UnusedSinceAbandoned(run, k, task, n) {
      assert UnusedSinceAbandoned(run, k, task, n - 1);
    }
    if Abandoned(run, n - 1) {
      var m := n - 1;
      var k: nat, task: Task :| UnusedSinceAbandoned(run, k, task, m);
      assert UnusedSinceAbandoned(run, k, task, n);
    }
  }

  lemma AbandonedBegins(run: seq<State>, n: nat)
    requires 0 < n < |run| && run[n - 1].shared.holder.Some? && run[n].shared.holder.None?
    requires run[n - 1].shared.holder.value in run[n - 1].tasks
    ensures var last := run[n - 1].tasks[run[n - 1].shared.holder.value];
            Abandoned(run, n) <==>
              last.phase == Killed(FailedAfterCancel) || last.phase == Killed(Unexpected)
  {
    var last := run[n - 1].tasks[run[n - 1].shared.holder.value];
    if k: nat, task: Task :| UnusedSinceAbandoned(run, k, task, n) {
      assert k == n - 1;
    } else {
      assert !UnusedSinceAbandoned(run, n - 1, last, n);
    }
  }

  /** From there on, in every continuation: as long as nobody takes the lock nothing about the
      connection changes, and only a disconnect can take it. */
  lemma {:induction false} ClosingUntilDisconnected(run: seq<State>, m: nat, n: nat)
    requires Run(run) && m <= n < |run| && run[m].shared.holder.None? && run[m].shared.conn.state.Closing?
    ensures NobodySince(run, m - 1, n) ==> run[n].shared == run[m].shared
    ensures run[n].shared.holder.Some? ==>
              && run[n].shared.holder.value in run[n].tasks
              && run[n].tasks[run[n].shared.holder.value].kind.DisconnectTask?
              && run[n].shared.conn.state.Closing?
    decreases n
  {
    hide Next, Inv;
    RunInv(run, m);
    RunInv(run, n);
    assert run[m].shared.begun by { ClosingHasBegun(run[m]); }
    if run[n].shared.holder.Some? {
      HolderIsDisconnect(run, m, n);
    }
    if m < n {
      ClosingUntilDisconnected(run, m, n - 1);
      if NobodySince(run, m - 1, n) {
        RunInv(run, n - 1);
        RestKeepsShared(run[n - 1], run[n]);
      }
    }
  }

  lemma ClosingHasBegun(s: State)
    requires Inv(s) && s.shared.holder.None? && s.shared.conn.state.Closing?
    ensures s.shared.begun
  {
  }

  lemma HolderIsDisconnect(run: seq<State>, m: nat, n: nat)
    requires Run(run) && m <= n < |run| && run[m].shared.begun && run[n].shared.holder.Some?
    ensures run[n].shared.holder.value in run[n].tasks
    ensures run[n].tasks[run[n].shared.holder.value].kind.DisconnectTask? && run[n].shared.conn.state.Closing?
  {
    RunInv(run, n);
    BegunAt(run, m, n);
  }

  // ---------------------------------------------------------------------------
  // Runs of one task.

  function Fresh(c: Conn, pane: Pane): State {
    State(map[], Shared(None, c, pane, true, false))
  }

  /** It is spawned on a fresh connection, ... */
  lemma SpawnOn(c: Conn, k: Kind, name: string) returns (run: seq<State>)
    requires c.state.Ready? && c.currentOperation.None?
    ensures Run(run) && Last(run) == State(map[0 := Task(k, name, Queued)], Fresh(c, Idle).shared)
    ensures run[0] == Fresh(c, Idle)
  {
    var s := Fresh(c, Idle);
    var t := s.(tasks := s.tasks[0 := Task(k, name, Queued)]);
    assert Spawn(s, t, 0, k, name);
    run := [s, t];
    assert t.tasks == map[0 := Task(k, name, Queued)];
  }

  /** ... and takes its steps. */
  lemma Then(run: seq<State>, next: Phase, v: Shared, o: Reply) returns (longer: seq<State>)
    requires Run(run) && Last(run).tasks.Keys == {0}
    requires LocalStep(0, Last(run).tasks[0], next, Last(run).shared, v, o)
    ensures Run(longer) && Last(longer) == State(map[0 := Last(run).tasks[0].(phase := next)], v)
    ensures longer[0] == run[0]
  {
    var s := Last(run);
    var t := State(s.tasks[0 := s.tasks[0].(phase := next)], v);
    assert t.tasks == map[0 := s.tasks[0].(phase := next)];
    assert TaskStep(s, t, 0, next, o);
    assert Next(s, t);
    longer := run + [t];
    hide Next;
    forall i | 0 <= i < |longer| - 1 ensures Next(longer[i], longer[i + 1]) {
    }
  }

  ghost predicate EndsReadyButBusy(run: seq<State>) {
    && Run(run) && Last(run).shared.holder.None? && Last(run).shared.conn.state.Ready?
    && !Last(run).shared.pane.Idle?
  }

  /** A run of nothing: the last command of the connect has timed out, and the connection is
      registered all the same. */
  lemma ReadyButBusyFromTheStart(c: Conn)
    requires c.state.Ready? && c.currentOperation.None?
    ensures exists run: seq<State> :: EndsReadyButBusy(run) && Last(run).tasks == map[]
  {
    var run := [Fresh(c, LeftByConnect)];
    assert EndsReadyButBusy(run);
  }

  /** A run in which one write fails, its pane is recovered, and the probe of the destination
      hangs: the connection ends up ready, with the lock free, and its pane is busy. */
  lemma ReadyButBusy(c: Conn)
    requires c.state.Ready? && c.currentOperation.None?
    ensures exists run: seq<State> :: EndsReadyButBusy(run) && run[0].shared.pane.Idle?
  {
    hide Run;
    var o := Reply(true, "");
    var run := SpawnOn(c, WriteTask, "write");
    var w := Last(run).shared.(holder := Some(0), conn := Begin(c, "write"), pane := InUse);
    run := Then(run, Commenting(true), w, o);
    run := Then(run, WriteRecovering, w, o);
    run := Then(run, Probing, w, o);
    w := w.(pane := LeftByProbe);
    run := Then(run, Leaving(ProbeHung), w, o);
    run := Then(run, Finished, w.(holder := None, conn := Finish(RecordRecovery(w.conn, true, ""))), o);
    assert EndsReadyButBusy(run);
  }

  /** A run in which a command raises what nobody expects. */
  lemma ReadyButBusyAfterAnEscape(c: Conn)
    requires c.state.Ready? && c.currentOperation.None?
    ensures exists run: seq<State> :: EndsReadyButBusy(run) && run[0].shared.pane.Idle?
  {
    hide Run;
    var o := Reply(true, "");
    var run := SpawnOn(c, RunTask, "run");
    var w := Last(run).shared.(holder := Some(0), conn := Begin(c, "run"), pane := InUse);
    run := Then(run, Running, w, o);
    w := w.(pane := LeftByEscape);
    run := Then(run, Leaving(Escape(true)), w, o);
    run := Then(run, Finished, w.(holder := None, conn := Finish(RecordError(w.conn, ""))), o);
    assert EndsReadyButBusy(run);
  }

  /** A run in which a disconnect is cancelled and killing the window then fails: the lock is
      free and the connection still registered, and it says that it is closing.  By
      `ClosingUntilDisconnected` it goes on to say so. */
  lemma ClosingForever(c: Conn)
    requires c.state.Ready? && c.currentOperation.None?
    ensures exists run: seq<State> ::
              && Run(run) && Last(run).shared.holder.None? && Last(run).shared.registered
              && Last(run).shared.conn.state.Closing? && Last(run).shared.conn.currentOperation == Some(Disconnect)
  {
    hide Run;
    var o := Reply(false, "");
    var run := SpawnOn(c, DisconnectTask, "disconnect");
    var w := Last(run).shared.(holder := Some(0), conn := StartClosing(c), begun := true);
    run := Then(run, Killing(false), w, o);
    run := Then(run, Killing(true), w, o);
    run := Then(run, Killed(FailedAfterCancel), w, o);
    run := Then(run, Finished, w.(holder := None), o);
  }

  ghost predicate Succeeds(run: seq<State>, k: Kind, name: string) {
    && Run(run) && Last(run).tasks == map[0 := Task(k, name, Finished)] && Last(run).shared.holder.None?
    && Last(run).shared.conn.state.Ready? && Last(run).shared.conn.currentOperation.None?
    && Last(run).shared.conn.lastError.None? && Last(run).shared.pane.Idle?
  }

  /** Every operation can succeed, and leaves the connection ready and the pane idle: a run, a
      read, a write after its annotation, and an edit that reads and then writes. */
  lemma OperationsCanSucceed(c: Conn, k: Kind, name: string)
    requires c.state.Ready? && c.currentOperation.None? && !k.DisconnectTask?
    ensures exists run: seq<State> :: Succeeds(run, k, name)
  {
    hide Run, Succeeds;
    var o := Reply(true, c.cwd);
    var run := SpawnOn(c, k, name);
    var w := Last(run).shared.(holder := Some(0), conn := Begin(c, name), pane := InUse);
    run := Then(run, FirstPhase(k), w, o);
    match k
    case RunTask => Succeeded(run, w, o);
    case ReadTask =>
      run := Then(run, Reading, w, o);
      Succeeded(run, w, o);
    case WriteTask =>
      run := Then(run, Writing, w, o);
      Succeeded(run, w, o);
    case EditTask =>
      run := Then(run, Reading, w, o);
      run := Then(run, Commenting(true), w, o);
      run := Then(run, Writing, w, o);
      Succeeded(run, w, o);
  }

  /** The last steps of all of them. */
  lemma Succeeded(run: seq<State>, w: Shared, o: Reply)
    requires Run(run) && Last(run).tasks.Keys == {0} && Last(run).shared == w && w.conn.cwd == o.text
    requires || Last(run).tasks[0].phase.Running? || Last(run).tasks[0].phase.Writing?
             || (Last(run).tasks[0].phase.Reading? && Last(run).tasks[0].kind.ReadTask?)
    requires w.conn.state.Busy? && w.conn.lastError.None?
    ensures exists longer: seq<State> :: Succeeds(longer, Last(run).tasks[0].kind, Last(run).tasks[0].name)
  {
    var task, v := Last(run).tasks[0], w.(pane := Idle);
    hide Run;
    var longer := Then(run, Leaving(Normal), v, o);
    longer := Then(longer, Finished, v.(holder := None, conn := Finish(v.conn)), o);
    assert Succeeds(longer, task.kind, task.name);
  }
}
