/** The connection as the manager keeps it: an object whose fields the operations update in
    place while they hold its lock.  Every update is matched by a step of the transition
    system of `Session`, so what holds in all its runs holds of the object. */
module Connection {
  import opened Common
  import opened Session
  import Text
  import opened SessionGuarantees

  /** How `run_in_pane` comes back.  `Broke` is an error that is neither a RuntimeError nor a
      ValueError, before or after something was typed that has not finished. */
  datatype PaneOutcome =
    | Completed(exitCode: nat, output: string, cwd: string)
    | TimedOut(partialOutput: string)
    | Raised(message: string)
    | Cancelled
    | Broke(message: string, unfinished: bool)

  /** How a recovery of the pane comes back.  `BrokeOff` is an error, or a cancellation, with the
      message that goes with it. */
  datatype Recovery = Answered(worked: bool) | BrokeOff(message: string, unfinished: bool)

  /** How `run_command` comes back to its caller. */
  datatype RunReply =
    | Result(output: string, exitCode: int, paneRecovered: Option<bool>)
    | Refused
    | Failed(message: string, recovered: bool)
    | Abandoned
    | Crashed(message: string)

  /** The error of a `run` that raised, with what has become of the pane. */
  function RunFailed(text: string, recovered: bool): string {
    "remote run failed: " + text + "; " + (if recovered then "pane recovered" else "connection is unresponsive") + "."
  }

  /** The lines typed into a shell that it has not finished, after one more: it works them off
      in order, so when the last has completed they all have. */
  function Unfinished(lines: nat, completed: bool): nat {
    if completed then 0 else lines + 1
  }

  class Connection {
    var state: Lifecycle
    var currentOperation: Option<Activity>
    var lastError: Option<string>
    var cwd: string
    ghost var trail: seq<State>

    ghost function Value(): Conn
      reads this
    {
      Conn(state, currentOperation, lastError, cwd)
    }

    ghost function Now(): State
      requires trail != []
      reads this
    {
      Last(trail)
    }

    ghost predicate Valid()
      reads this
    {
      trail != [] && Run(trail) && Now().shared.conn == Value()
    }

    /** Task `i` is waiting for the lock, and it is free. */
    ghost predicate Waiting(i: nat, k: Kind, name: string)
      reads this
    {
      && Valid() && Now().shared.holder.None?
      && i in Now().tasks && Now().tasks[i] == Task(k, name, Queued)
    }

    /** The end of `connect`: `cd` to the project path, once more if it times out, and `pwd`.
        Whatever times out, the connection is registered as ready. */
    constructor (projectPath: bool, cd: bool, cdAgain: bool, pwd: PaneOutcome)
      requires pwd.Completed? || pwd.TimedOut?
      ensures Valid() && state.Ready? && currentOperation.None? && lastError.None?
      ensures cwd == if pwd.TimedOut? then "?" else if pwd.cwd != "" then pwd.cwd
                     else if pwd.exitCode == 0 then Text.Strip(pwd.output) else "?"
      ensures Now() == Fresh(Value(), if pwd.Completed? then Idle else LeftByConnect)
    {
      ghost var lines := 0;
      if projectPath {
        lines := Unfinished(lines, cd);
        if !cd {
          lines := Unfinished(lines, cdAgain);
        }
      }
      lines := Unfinished(lines, pwd.Completed?);
      var directory := if pwd.TimedOut? then "?" else if pwd.cwd != "" then pwd.cwd
                       else if pwd.exitCode == 0 then Text.Strip(pwd.output) else "?";
      state, currentOperation, lastError, cwd := Ready, None, None, directory;
      ghost var pane := if lines == 0 then Idle else LeftByConnect;
      trail := [Fresh(Conn(Ready, None, None, directory), pane)];
    }

    /** The step of the transition system that an update of the fields amounts to. */
    ghost method Step(i: nat, next: Phase, v: Shared, o: Reply)
      requires Run(trail) && i in Now().tasks
      requires LocalStep(i, Now().tasks[i], next, Now().shared, v, o) && v.conn == Value()
      modifies this`trail
      ensures Valid() && old(trail) < trail
      ensures Now() == State(old(Now().tasks[i := Now().tasks[i].(phase := next)]), v)
    {
      var t := State(Now().tasks[i := Now().tasks[i].(phase := next)], v);
      assert TaskStep(Now(), t, i, next, o);
      assert Next(Now(), t);
      hide Next;
      trail := trail + [t];
    }

    method EnsureUsable() returns (ok: bool)
      ensures ok == Usable(Value())
    {
      ok := !(state.Unresponsive? || state.Closing?);
    }

    method RecordError(message: string)
      modifies this`lastError
      ensures Value() == Session.RecordError(old(Value()), message)
    {
      lastError := Some(Tail(message));
    }

    method RecordRecovery(recovered: bool, message: string)
      modifies this`lastError, this`state
      ensures Value() == Session.RecordRecovery(old(Value()), recovered, message)
    {
      RecordError(message);
      if !recovered {
        state := Unresponsive;
      }
    }

    /** The entry of `operation`, once it has the lock. */
    method Enter(i: nat, k: Kind, name: string) returns (ok: bool)
      requires Waiting(i, k, name) && !k.DisconnectTask?
      modifies this
      ensures Valid() && old(trail) < trail
      ensures ok <==> !old(state).Unresponsive? && !old(state).Closing?
      ensures ok ==> Value() == Conn(Busy, Some(Operation(name)), None, old(cwd))
      ensures ok ==> Now().tasks == old(Now().tasks)[i := Task(k, name, FirstPhase(k))]
      ensures ok ==> Now().shared == old(Now().shared).(holder := Some(i), conn := Value(), pane := InUse)
      ensures !ok ==> Value() == old(Value()) && Now().shared == old(Now().shared)
      ensures !ok ==> Now().tasks == old(Now().tasks)[i := Task(k, name, Finished)]
    {
      ok := EnsureUsable();
      if ok {
        state, currentOperation, lastError := Busy, Some(Operation(name)), None;
        Step(i, FirstPhase(k), Now().shared.(holder := Some(i), conn := Value(), pane := InUse), Reply(true, ""));
      } else {
        Step(i, Finished, Now().shared, Reply(true, ""));
      }
    }

    /** Other tasks, while this one awaits something: they come and wait for the lock, or stop
        waiting, but the one that has it keeps what they share to itself. */
    method OthersAct(i: nat)
      requires Valid() && Now().shared.holder == Some(i) && i in Now().tasks
      modifies this
      ensures Valid() && old(trail) <= trail && Value() == old(Value()) && Now().shared == old(Now().shared)
      ensures i in Now().tasks && Now().tasks[i] == old(Now().tasks[i])
    {
    }

    /** The exit of `operation`.  For the file operations `recovery` is what a recovery of
        the pane would answer now; it is asked for only when nobody has tried it before. */
    method Leave(i: nat, exit: Exit, recoverOnFailure: bool, recovery: Recovery, message: string)
      requires Valid() && i in Now().tasks && Now().tasks[i].phase == Leaving(exit) && Now().shared.holder == Some(i)
      requires recoverOnFailure == !Now().tasks[i].kind.RunTask?
      modifies this
      ensures Valid() && old(trail) < trail && Now().shared.holder.None?
      ensures i in Now().tasks && Now().tasks[i].phase.Finished?
      ensures currentOperation.None? && cwd == old(cwd) && !state.Busy?
      ensures state.Ready? ==> !Now().shared.pane.InUse?
      ensures var k := old(Now().tasks[i].kind);
              if !Recovers(k, exit) then Now().shared.pane == old(Now().shared.pane)
              else if recovery.Answered? then Now().shared.pane == AfterRecovery(recovery.worked)
              else Now().shared.pane == AfterEscape(recovery.unfinished)
      ensures var asked := Recovers(old(Now().tasks[i].kind), exit);
              var worked := if SaysRecovered(exit) then exit.ProbeHung? || exit.recovered.value
                            else asked && recovery.Answered? ==> recovery.worked;
              state == if old(state).Unresponsive? || (recoverOnFailure && !worked) then Unresponsive else Ready
      ensures var silent := exit.Normal? || (exit.Cancel? && !recoverOnFailure && old(lastError).Some?)
                            || (recoverOnFailure && (exit.Escape? || (!SaysRecovered(exit) && recovery.BrokeOff?)));
              lastError == if silent then old(lastError) else Some(Tail(message))
    {
      hide Tail, Run, LeaveStep, LeaveConn, AfterRecovery, FileMove, RunStep;
      OthersAct(i);
      if recoverOnFailure && recovery.BrokeOff? && (exit.Cancel? || exit == Raise(None)) {
        assert state.Busy? by { RunInv(trail, |trail| - 1); assert Publishes(Now().shared, Now().tasks[i]); }
        Escape(i, exit, recovery.unfinished);
        Release(i, Exit.Escape(recovery.unfinished), true, false, message);
      } else {
        Release(i, exit, recoverOnFailure, recovery.Answered? && recovery.worked, message);
      }
    }

    /** The recovery in the exit of a file operation raised, or was cancelled. */
    ghost method Escape(i: nat, exit: Exit, unfinished: bool)
      requires Valid() && i in Now().tasks && Now().tasks[i].phase == Leaving(exit) && Now().shared.holder == Some(i)
      requires Recovers(Now().tasks[i].kind, exit)
      modifies this`trail
      ensures Valid() && old(trail) < trail
      ensures Now().shared == old(Now().shared).(pane := AfterEscape(unfinished))
      ensures Now().tasks == old(Now().tasks[i := Now().tasks[i].(phase := Leaving(Exit.Escape(unfinished)))])
    {
      hide Run;
      Step(i, Leaving(Exit.Escape(unfinished)), Now().shared.(pane := AfterEscape(unfinished)), Reply(false, ""));
    }

    /** What the exit of an operation records and publishes of its own fields. */
    method RecordExit(ghost k: Kind, exit: Exit, recoverOnFailure: bool, worked: bool, message: string)
      requires recoverOnFailure == !k.RunTask?
      modifies this`state, this`lastError, this`currentOperation
      ensures Value() == LeaveConn(k, exit, old(Value()), Reply(worked, message))
    {
      hide Tail;
      match exit {
        case Normal =>
        case Escape(_) =>
          if !recoverOnFailure {
            RecordError(message);
          }
        case ProbeHung =>
          RecordRecovery(true, message);
        case Cancel =>
          if recoverOnFailure {
            RecordRecovery(worked, message);
          } else if lastError.None? {
            RecordError(message);
          }
        case Raise(known) =>
          if recoverOnFailure {
            RecordRecovery(if known.Some? then known.value else worked, message);
          } else {
            RecordError(message);
          }
      }
      currentOperation := None;
      if state.Busy? {
        state := Ready;
      }
    }

    /** The rest of the exit: what is recorded, and what is published. */
    method Release(i: nat, exit: Exit, recoverOnFailure: bool, worked: bool, message: string)
      requires Valid() && i in Now().tasks && Now().tasks[i].phase == Leaving(exit) && Now().shared.holder == Some(i)
      requires recoverOnFailure == !Now().tasks[i].kind.RunTask?
      modifies this
      ensures Valid() && old(trail) < trail && Now().shared.holder.None?
      ensures i in Now().tasks && Now().tasks[i].phase.Finished?
      ensures currentOperation.None? && cwd == old(cwd) && !state.Busy?
      ensures state.Ready? ==> !Now().shared.pane.InUse?
      ensures Now().shared.pane == if Recovers(old(Now().tasks[i].kind), exit) then AfterRecovery(worked)
                                   else old(Now().shared.pane)
      ensures var fine := if SaysRecovered(exit) then exit.ProbeHung? || exit.recovered.value
                          else Recovers(old(Now().tasks[i].kind), exit) ==> worked;
              state == if old(state).Unresponsive? || (recoverOnFailure && !fine) then Unresponsive else Ready
      ensures var silent := exit.Normal? || (exit.Cancel? && !recoverOnFailure && old(lastError).Some?)
                            || (recoverOnFailure && exit.Escape?);
              lastError == if silent then old(lastError) else Some(Tail(message))
    {
      hide Tail, Run;
      RunInv(trail, |trail| - 1);
      assert Publishes(Now().shared, Now().tasks[i]);
      hide Inv;
      RecordExit(Now().tasks[i].kind, exit, recoverOnFailure, worked, message);
      ghost var pane := if Recovers(Now().tasks[i].kind, exit) then AfterRecovery(worked) else Now().shared.pane;
      Step(i, Finished, Now().shared.(holder := None, conn := Value(), pane := pane), Reply(worked, message));
      RunInv(trail, |trail| - 1);
      Resting(Now());
    }

    lemma Resting(s: State)
      requires Inv(s) && s.shared.holder.None?
      ensures s.shared.conn.state.Ready? ==> !s.shared.pane.InUse?
    {
    }

    /** `run_command`: the pane is recovered after anything but a completion, unless an error
        comes up that nobody expects, from the command or from its recovery. */
    method RunCommand(i: nat, name: string, outcome: PaneOutcome, recovery: Recovery, seconds: string)
        returns (reply: RunReply)
      requires Waiting(i, RunTask, name)
      modifies this
      ensures Valid() && Now().shared.holder.None?
      ensures i in Now().tasks && Now().tasks[i].phase.Finished?
      ensures reply.Refused? <==> !old(Usable(Value()))
      ensures reply.Refused? ==> Value() == old(Value()) && Now().shared == old(Now().shared)
      ensures !reply.Refused? ==> currentOperation.None? && (state.Ready? || state.Unresponsive?)
      ensures !reply.Refused? ==> (reply.Crashed? <==> outcome.Broke? || (!outcome.Completed? && recovery.BrokeOff?))
      ensures reply.Crashed? ==> state.Ready?
      ensures reply.Crashed? ==>
                Now().shared.pane == AfterEscape(if outcome.Broke? then outcome.unfinished else recovery.unfinished)
      ensures !reply.Refused? && !reply.Crashed? ==> (state.Ready? <==> Now().shared.pane.Idle?)
      ensures !reply.Refused? && !reply.Crashed? ==> (state.Ready? <==> outcome.Completed? || recovery.worked)
      ensures !reply.Refused? ==> (lastError.None? <==> outcome.Completed?)
      ensures cwd == if !reply.Refused? && outcome.Completed? then outcome.cwd else old(cwd)
      ensures reply.Result? ==> match outcome {
        case Completed(code, output, _) => reply == Result(output, code, None)
        case TimedOut(output) => recovery.Answered? && reply == Result(output, -1, Some(recovery.worked))
        case _ => false
      }
      ensures reply.Crashed? ==> reply.message == if outcome.Broke? then outcome.message else recovery.message
      ensures !reply.Refused? && !outcome.Completed? ==>
                lastError == Some(Tail(if reply.Crashed? || reply.Failed? then reply.message
                                       else if outcome.TimedOut? then name + " timed out after " + seconds + "s"
                                       else name + " was cancelled"))
      ensures reply.Failed? <==> !reply.Refused? && !reply.Crashed? && outcome.Raised?
      ensures reply.Failed? ==> reply == Failed(RunFailed(outcome.message, recovery.worked), recovery.worked)
      ensures reply.Abandoned? <==> !reply.Refused? && !reply.Crashed? && outcome.Cancelled?
    {
      hide Tail, Run;
      var ok := Enter(i, RunTask, name);
      if !ok {
        return RunReply.Refused;
      }
      OthersAct(i);
      if outcome.Completed? {
        cwd := outcome.cwd;
        Step(i, Leaving(Normal), Now().shared.(conn := Value(), pane := Idle), Reply(true, cwd));
        Leave(i, Normal, false, recovery, "");
        return Result(outcome.output, outcome.exitCode, None);
      }
      if outcome.Broke? {
        ghost var left := outcome.unfinished;
        Step(i, Leaving(Exit.Escape(left)), Now().shared.(pane := AfterEscape(left)), Reply(true, ""));
        Leave(i, Exit.Escape(outcome.unfinished), false, recovery, outcome.message);
        return Crashed(outcome.message);
      }
      reply := Recover(i, name, outcome, recovery, seconds);
    }

    /** The recovery after a command that did not complete. */
    method Recover(i: nat, name: string, outcome: PaneOutcome, recovery: Recovery, seconds: string)
        returns (reply: RunReply)
      requires Valid() && Now().shared.holder == Some(i) && i in Now().tasks && Now().tasks[i].phase.Running?
      requires Now().tasks[i].kind.RunTask? && state.Busy? && lastError.None?
      requires outcome.TimedOut? || outcome.Raised? || outcome.Cancelled?
      modifies this
      ensures Valid() && Now().shared.holder.None?
      ensures i in Now().tasks && Now().tasks[i].phase.Finished?
      ensures currentOperation.None? && cwd == old(cwd)
      ensures recovery.BrokeOff? ==> reply == Crashed(recovery.message) && state.Ready?
      ensures recovery.BrokeOff? ==> Now().shared.pane == AfterEscape(recovery.unfinished)
      ensures recovery.Answered? ==> Now().shared.pane == AfterRecovery(recovery.worked)
      ensures recovery.Answered? ==> state == if recovery.worked then Ready else Unresponsive
      ensures recovery.Answered? ==> reply == match outcome {
        case TimedOut(output) => Result(output, -1, Some(recovery.worked))
        case Raised(text) => Failed(RunFailed(text, recovery.worked), recovery.worked)
        case _ => Abandoned
      }
      ensures lastError == Some(Tail(if recovery.BrokeOff? then recovery.message
                                     else if outcome.Raised? then RunFailed(outcome.message, recovery.worked)
                                     else if outcome.TimedOut? then name + " timed out after " + seconds + "s"
                                     else name + " was cancelled"))
    {
      hide Tail, Run, RunFailed;
      ghost var exit := if outcome.Cancelled? then Cancel else if outcome.Raised? then Raise(None) else Normal;
      Step(i, RunRecovering(exit), Now().shared, Reply(true, ""));
      OthersAct(i);
      if recovery.BrokeOff? {
        ghost var left := recovery.unfinished;
        Step(i, Leaving(Exit.Escape(left)), Now().shared.(pane := AfterEscape(left)), Reply(true, ""));
        Leave(i, Exit.Escape(recovery.unfinished), false, recovery, recovery.message);
        return Crashed(recovery.message);
      }
      var message := match outcome
        case TimedOut(_) => name + " timed out after " + seconds + "s"
        case Raised(text) => name + " failed: " + text
        case _ => name + " was cancelled";
      RecordRecovery(recovery.worked, message);
      Step(i, Leaving(exit), Now().shared.(conn := Value(), pane := AfterRecovery(recovery.worked)),
           Reply(recovery.worked, message));
      match outcome {
        case TimedOut(partialOutput) =>
          Leave(i, Normal, false, recovery, message);
          reply := Result(partialOutput, -1, Some(recovery.worked));
        case Raised(text) =>
          var error := RunFailed(text, recovery.worked);
          Leave(i, Raise(None), false, recovery, error);
          reply := Failed(error, recovery.worked);
        case Cancelled =>
          Leave(i, Cancel, false, recovery, message);
          reply := Abandoned;
      }
    }

    /** `disconnect`, with the lock: `cancelled` says whether a cancellation arrives while the
        window is being killed, and `how` is what comes of that in the end.  Only if it was not
        cancelled and the window is gone does the caller hear that it is closed. */
    method Disconnect(i: nat, name: string, cancelled: bool, how: KillEnd, message: string) returns (closed: bool)
      requires Waiting(i, DisconnectTask, name)
      requires if cancelled then how.Gone? || how.FailedAfterCancel? else !how.FailedAfterCancel?
      modifies this
      ensures Valid() && Now().shared.holder.None?
      ensures i in Now().tasks && Now().tasks[i].phase.Finished?
      ensures closed == (how.Gone? && !cancelled)
      ensures Now().shared.registered == (old(Now().shared.registered) && !how.Gone?)
      ensures if how.Refused? then state.Unresponsive? && currentOperation.None? && lastError == Some(Tail(message))
              else state.Closing? && currentOperation == Some(Session.Disconnect) && lastError == old(lastError)
      ensures Now().shared.begun && cwd == old(cwd) && Now().shared.pane == old(Now().shared.pane)
    {
      hide Tail, Run;
      state, currentOperation := Closing, Some(Session.Disconnect);
      Step(i, Killing(false), Now().shared.(holder := Some(i), conn := Value(), begun := true), Reply(true, ""));
      OthersAct(i);
      if cancelled {
        Step(i, Killing(true), Now().shared, Reply(true, ""));
        OthersAct(i);
      }
      Close(i, how, message);
      closed := how.Gone? && !cancelled;
    }

    /** What comes of the kill, and the lock is free again. */
    method Close(i: nat, how: KillEnd, message: string)
      requires Valid() && Now().shared.holder == Some(i) && i in Now().tasks && state.Closing?
      requires LocalStep(i, Now().tasks[i], Killed(how), Now().shared, Now().shared, Reply(true, ""))
      modifies this
      ensures Valid() && Now().shared.holder.None? && Now().shared.pane == old(Now().shared.pane)
      ensures i in Now().tasks && Now().tasks[i].phase.Finished?
      ensures Now().shared.registered == (old(Now().shared.registered) && !how.Gone?)
      ensures Now().shared.begun == old(Now().shared.begun) && cwd == old(cwd)
      ensures if how.Refused? then state.Unresponsive? && currentOperation.None? && lastError == Some(Tail(message))
              else state.Closing? && currentOperation == old(currentOperation) && lastError == old(lastError)
    {
      hide Tail, Run;
      Step(i, Killed(how), Now().shared, Reply(true, ""));
      hide RunStep, LeaveStep, FileMove, QueueStep, KillStep;
      match how {
        case Gone =>
          Step(i, Finished, Now().shared.(holder := None, registered := false), Reply(true, ""));
        case Refused =>
          state, currentOperation := Unresponsive, None;
          RecordError(message);
          Step(i, Finished, Now().shared.(holder := None, conn := Value()), Reply(true, message));
        case FailedAfterCancel =>
          Step(i, Finished, Now().shared.(holder := None), Reply(true, ""));
        case Unexpected =>
          Step(i, Finished, Now().shared.(holder := None), Reply(true, ""));
      }
    }
  }
}
