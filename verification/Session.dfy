/** One connection and any number of tasks that use it: the lock, the published lifecycle
    state, the recovery of the pane, and disconnection. */
module Session {
  import opened Common

  datatype Lifecycle = Ready | Busy | Unresponsive | Closing

  /** What a connection publishes as under way: an operation by its name, or the disconnect. */
  datatype Activity = Operation(name: string) | Disconnect

  /** The fields of a connection that the lifecycle updates. */
  datatype Conn = Conn(state: Lifecycle, currentOperation: Option<Activity>, lastError: Option<string>, cwd: string)

  const LAST_ERROR_LIMIT := 1_000

  predicate Usable(c: Conn) {
    !c.state.Unresponsive? && !c.state.Closing?
  }

  function Begin(c: Conn, name: string): Conn {
    c.(state := Busy, currentOperation := Some(Operation(name)), lastError := None)
  }

  function Tail(message: string): (r: string)
    ensures |r| <= |message| && r == message[|message| - |r|..]
    ensures |r| == Min(|message|, LAST_ERROR_LIMIT)
  {
    if |message| <= LAST_ERROR_LIMIT then message else message[|message| - LAST_ERROR_LIMIT..]
  }

  function RecordError(c: Conn, message: string): (r: Conn)
    ensures r == c.(lastError := r.lastError) && r.lastError.Some?
  {
    c.(lastError := Some(Tail(message)))
  }

  function RecordRecovery(c: Conn, recovered: bool, message: string): (r: Conn)
    ensures r == c.(lastError := r.lastError, state := if recovered then c.state else Unresponsive)
    ensures r.lastError.Some?
  {
    var d := RecordError(c, message);
    if recovered then d else d.(state := Unresponsive)
  }

  /** The `finally` of every operation. */
  function Finish(c: Conn): Conn {
    c.(currentOperation := None, state := if c.state.Busy? then Ready else c.state)
  }

  function StartClosing(c: Conn): Conn {
    c.(state := Closing, currentOperation := Some(Disconnect))
  }

  function CloseFailed(c: Conn, message: string): Conn {
    RecordError(c.(state := Unresponsive, currentOperation := None), message)
  }

  // ---------------------------------------------------------------------------
  // Tasks.

  datatype Kind = RunTask | ReadTask | WriteTask | EditTask | DisconnectTask

  /** How the body of an operation is left.  `Raise` carries `pane_recovered` when the error
      has it in its details.  `ProbeHung` is the error of a write whose pane has been recovered,
      as it says, and whose probe of the destination then did not complete.  `Escape` is what
      nobody recovers the pane after: out of a `run`, an error that is neither a RuntimeError nor
      a ValueError; out of a recovery that `run` or the exit of an operation awaits, any error or
      cancellation.  Something that had been typed into the pane may be unfinished then. */
  datatype Exit = Normal | Raise(recovered: Option<bool>) | ProbeHung | Cancel | Escape(unfinished: bool)

  /** How killing the window ends for a disconnect: the window is gone; tmux refused or timed
      out; it failed after the disconnect had been cancelled, or a second cancellation came;
      or it raised something that the disconnect does not catch. */
  datatype KillEnd = Gone | Refused | FailedAfterCancel | Unexpected

  datatype Phase =
    | Queued
    | Running
    | RunRecovering(after: Exit)
    | Commenting(writes: bool)
    | Reading
    | Writing
    | WriteRecovering
    | Probing
    | Leaving(exit: Exit)
    | Killing(cancelled: bool)
    | Killed(how: KillEnd)
    | Finished

  datatype Task = Task(kind: Kind, name: string, phase: Phase)

  /** The truth about the pane.  `Idle`: everything that was typed there has completed.
      `InUse`: an operation is at work, or a recovery has failed.  The others: a command has
      been left there unfinished, and nobody has used the pane since.  It was the last one of
      the connect, which timed out; a probe of the destination, which did not complete although
      the recovery before it had; or one that an `Escape` left behind. */
  datatype Pane = Idle | InUse | LeftByConnect | LeftByProbe | LeftByEscape

  function AfterEscape(unfinished: bool): Pane {
    if unfinished then LeftByEscape else Idle
  }

  function AfterRecovery(worked: bool): Pane {
    if worked then Idle else InUse
  }

  /** What the tasks share: the lock, the connection, its pane, and whether it is registered.
      `begun` remembers that some disconnect has had the lock. */
  datatype Shared = Shared(holder: Option<nat>, conn: Conn, pane: Pane, registered: bool, begun: bool)

  datatype State = State(tasks: map<nat, Task>, shared: Shared)

  /** What the outside world answers at a step: whether a recovery of the pane worked, and
      the text that came with the answer. */
  datatype Reply = Reply(recovered: bool, text: string)

  /** A connection has just been registered. */
  predicate Starts(s: State) {
    && s.tasks == map[] && s.shared.holder.None? && s.shared.registered && !s.shared.begun
    && (s.shared.pane.Idle? || s.shared.pane.LeftByConnect?)
    && s.shared.conn.state.Ready? && s.shared.conn.currentOperation.None?
  }

  predicate InBody(p: Phase) {
    !p.Queued? && !p.Finished?
  }

  function FirstPhase(k: Kind): Phase {
    match k
    case RunTask => Running
    case WriteTask => Commenting(true)
    case ReadTask => Commenting(false)
    case EditTask => Commenting(false)
    case DisconnectTask => Killing(false)
  }

  /** `get`, and then the wait for the lock. */
  predicate Spawn(s: State, t: State, i: nat, k: Kind, name: string) {
    && i !in s.tasks && s.shared.registered && (k.DisconnectTask? || Usable(s.shared.conn))
    && t == s.(tasks := s.tasks[i := Task(k, name, Queued)])
  }

  /** Waiting for the lock: it comes, or the wait is cancelled. */
  predicate QueueStep(i: nat, task: Task, next: Phase, w: Shared, v: Shared) {
    || (next.Finished? && v == w)
    || (w.holder.None?
        && (if task.kind.DisconnectTask? then
              next == Killing(false) && v == w.(holder := Some(i), conn := StartClosing(w.conn), begun := true)
            else if Usable(w.conn) then
              && next == FirstPhase(task.kind)
              && v == w.(holder := Some(i), conn := Begin(w.conn, task.name), pane := InUse)
            else
              next.Finished? && v == w))
  }

  predicate Escapes(next: Phase, w: Shared, v: Shared) {
    next.Leaving? && next.exit.Escape? && v == w.(pane := AfterEscape(next.exit.unfinished))
  }

  /** `run_in_pane` and the recovery around it, as `run` does it. */
  predicate RunStep(phase: Phase, next: Phase, w: Shared, v: Shared, o: Reply) {
    match phase
    case Running =>
      || (next == Leaving(Normal) && v == w.(conn := w.conn.(cwd := o.text), pane := Idle))
      || (next.RunRecovering? && next.after in {Normal, Raise(None), Cancel} && v == w)
      || Escapes(next, w, v)
    case RunRecovering(exit) =>
      || (next == Leaving(exit)
          && v == w.(conn := RecordRecovery(w.conn, o.recovered, o.text), pane := AfterRecovery(o.recovered)))
      || Escapes(next, w, v)
    case _ => false
  }

  /** The pane is idle, or known not to be. */
  predicate Known(p: Pane) {
    p.Idle? || p.InUse?
  }

  /** The phases of a file operation, and what they do to the pane.  The annotation comes
      first and its outcome is ignored; an edit reads as often as it needs to and then writes;
      a write that fails recovers the pane and, if that worked, probes the destination.  An
      error may leave it at any point, for the operation around it to deal with. */
  predicate FileMove(k: Kind, phase: Phase, next: Phase, p: Pane, q: Pane) {
    match phase
    case Commenting(writes) =>
      if writes then
        || (next == Writing && q.InUse?)
        || (next == WriteRecovering && q == p)
        || (next == Leaving(Raise(None)) && q == p)
        || (next == Leaving(Cancel) && Known(q))
      else
        || (next == Reading && q.InUse?)
        || (next == Leaving(Raise(None)) && q == p)
        || (next == Leaving(Cancel) && q == p)
    case Reading =>
      || (next == Leaving(Normal) && q.Idle? && k.ReadTask?)
      || (next.Commenting? && q.InUse? && k.EditTask?)
      || (next == Leaving(Raise(None)) && (q.Idle? || q == p))
      || (next == Leaving(Cancel) && q == p)
    case Writing =>
      || (next == Leaving(Normal) && q.Idle?)
      || (q.Idle? && next == Leaving(Raise(Some(true))))
      || (q.InUse? && next == Leaving(Raise(Some(false))))
      || (next == Leaving(Raise(None)) && q == p)
      || (next == Leaving(Cancel) && Known(q))
      || (next == WriteRecovering && q == p)
    case WriteRecovering =>
      || (next == Leaving(Raise(Some(false))) && q.InUse?)
      || (next == Leaving(Raise(None)) && q == p)
      || (next == Leaving(Cancel) && Known(q))
      || (next == Probing && q.InUse?)
    case Probing =>
      || (next == Leaving(Normal) && q.Idle?)
      || (next == Leaving(Raise(Some(true))) && q.Idle?)
      || (next == Leaving(ProbeHung) && q.LeftByProbe?)
      || (next == Leaving(Raise(None)) && q == p)
      || (next == Leaving(Cancel) && q == p)
    case _ => false
  }

  /** The operation has to recover the pane itself: a file operation did not. */
  predicate Recovers(k: Kind, exit: Exit) {
    !k.RunTask? && (exit.Cancel? || exit == Raise(None))
  }

  /** The connection as the exit of `operation` leaves it. */
  function LeaveConn(k: Kind, exit: Exit, c: Conn, o: Reply): Conn {
    match exit
    case Normal => Finish(c)
    case Cancel =>
      if !k.RunTask? then Finish(RecordRecovery(c, o.recovered, o.text))
      else if c.lastError.None? then Finish(RecordError(c, o.text))
      else Finish(c)
    case Raise(known) =>
      if k.RunTask? then Finish(RecordError(c, o.text))
      else Finish(RecordRecovery(c, if known.Some? then known.value else o.recovered, o.text))
    case ProbeHung => Finish(RecordRecovery(c, true, o.text))
    case Escape(_) =>
      if k.RunTask? then Finish(RecordError(c, o.text)) else Finish(c)
  }

  /** The exit of `operation`.  File operations recover the pane on failure, unless the error
      already says whether it has been recovered; `run` has done so itself.  That recovery may
      itself raise, or be cancelled. */
  predicate LeaveStep(k: Kind, exit: Exit, next: Phase, w: Shared, v: Shared, o: Reply) {
    || (next.Finished?
        && v == w.(holder := None, conn := LeaveConn(k, exit, w.conn, o),
                   pane := if Recovers(k, exit) then AfterRecovery(o.recovered) else w.pane))
    || (Recovers(k, exit) && Escapes(next, w, v))
  }

  /** Killing the window.  A disconnect that is cancelled still waits for the outcome. */
  predicate KillStep(cancelled: bool, next: Phase, w: Shared, v: Shared) {
    && v == w
    && (|| next == Killed(Gone)
        || (cancelled && next == Killed(FailedAfterCancel))
        || (!cancelled && (next == Killing(true) || next == Killed(Refused) || next == Killed(Unexpected))))
  }

  /** What a disconnect does with the outcome, and then it gives the lock back. */
  predicate KilledStep(how: KillEnd, next: Phase, w: Shared, v: Shared, o: Reply) {
    && next.Finished?
    && match how {
         case Gone => v == w.(holder := None, registered := false)
         case Refused => v == w.(holder := None, conn := CloseFailed(w.conn, o.text))
         case _ => v == w.(holder := None)
       }
  }

  /** A step of one task, on what it shares with the others. */
  predicate LocalStep(i: nat, task: Task, next: Phase, w: Shared, v: Shared, o: Reply) {
    match task.phase
    case Queued => QueueStep(i, task, next, w, v)
    case Running => RunStep(task.phase, next, w, v, o)
    case RunRecovering(_) => RunStep(task.phase, next, w, v, o)
    case Leaving(exit) => LeaveStep(task.kind, exit, next, w, v, o)
    case Killing(cancelled) => KillStep(cancelled, next, w, v)
    case Killed(how) => KilledStep(how, next, w, v, o)
    case Finished => false
    case _ => v == w.(pane := v.pane) && FileMove(task.kind, task.phase, next, w.pane, v.pane)
  }

  predicate TaskStep(s: State, t: State, i: nat, next: Phase, o: Reply) {
    && i in s.tasks && t.tasks == s.tasks[i := s.tasks[i].(phase := next)]
    && LocalStep(i, s.tasks[i], next, s.shared, t.shared, o)
  }

  ghost predicate Next(s: State, t: State) {
    || (exists i: nat, k: Kind, name: string :: Spawn(s, t, i, k, name))
    || (exists i: nat, next: Phase, o: Reply :: TaskStep(s, t, i, next, o))
  }

  ghost predicate Run(run: seq<State>) {
    && run != [] && Starts(run[0])
    && forall i :: 0 <= i < |run| - 1 ==> Next(run[i], run[i + 1])
  }
}
