/** The manager itself: the register of connections that `connect` and `disconnect` update in
    place.  Every update is a step of the transition system of `Windows`; between any two
    `await`s other tasks of the manager, and people, may take any number of steps. */
module SessionManager {
  import opened Common
  import opened Windows
  import Host

  /** What tmux answers to a kill: the window is gone, or was gone before; an error, perhaps
      after the effect; or an error that nobody expects, before tmux is reached. */
  datatype KillAnswer = Gone | Refuses | Breaks

  /** Whether a new window has been made, and whether its name has been heard. */
  datatype MadeAnswer = Heard | Unheard | NotMade

  /** How a disconnect ends: with an answer, or with an error or a cancellation. */
  datatype Disconnected = Closed | NoSuchConnection | Raises

  class SessionManager {
    const quiet: bool     // nobody cancels a task, and whatever is asked of tmux or a shell works
    var connections: map<nat, nat>
    var ids: set<nat>     // the connection names that have been drawn
    var windows: set<nat> // the window names that tmux has given out, ...
    var live: set<nat>    // ... and those of them that are alive
    ghost var trail: seq<State>

    ghost predicate Valid()
      reads this
    {
      && trail != [] && Run(trail)
      && Matches(Last(trail))
    }

    ghost predicate Matches(s: State)
      reads this
    {
      s.connections == connections && s.ids == ids && s.windows == windows && s.live == live
    }

    ghost function Now(): State
      requires trail != []
      reads this
    {
      Last(trail)
    }

    /** Task `i` has come this far. */
    ghost predicate At(i: nat, p: Phase)
      reads this
    {
      Valid() && i in Now().tasks && Now().tasks[i] == p
    }

    constructor (quiet: bool)
      ensures Valid() && this.quiet == quiet && connections == map[] && Now().tasks == map[]
    {
      this.quiet := quiet;
      connections, ids, windows, live := map[], {}, {}, {};
      trail := [State({}, map[], map[], {}, {}, {}, {}, {})];
    }

    /** Something goes wrong, or a cancellation arrives. */
    method Strikes() returns (strikes: bool)
      ensures quiet ==> !strikes
    {
      strikes := *;
      strikes := strikes && !quiet;
    }

    /** Whatever the others do, except for the steps of task `i`. */
    method OthersAct(i: nat, ghost p: Phase)
      requires At(i, p)
      modifies this
      ensures At(i, p) && old(trail) <= trail
    {
    }

    /** The step of the transition system that an update of the fields amounts to. */
    ghost method Step(i: nat, next: Phase, o: Outcome, base: State)
      requires trail != [] && Run(trail) && i in Now().tasks && base.tasks == Now().tasks
      requires Matches(base)
      requires ConnectStep(Now().tasks[i], next, Now(), base, o) || DisconnectStep(Now().tasks[i], next, Now(), base, o)
      modifies this`trail
      ensures At(i, next) && old(trail) <= trail && Now() == base.(tasks := base.tasks[i := next])
    {
      trail := TakeStep(trail, i, next, o, base);
    }

    /** The task holds nothing any more, but perhaps a kill that goes on without it. */
    ghost predicate Over(i: nat)
      reads this
    {
      At(i, Ended) || exists w :: At(i, Background(w))
    }

    /** tmux makes a window, or a session with its bootstrap window. */
    method MakeWindow() returns (w: nat, made: MadeAnswer)
      modifies this`windows, this`live
      ensures w !in old(windows)
      ensures if made.NotMade? then windows == old(windows) && live == old(live)
              else windows == old(windows) + {w} && live == old(live) + {w}
      ensures quiet ==> made.Heard?
    {
      w := Host.FreshKey(windows);
      var lost := Strikes();
      var fails := Strikes();
      made := if fails then NotMade else if lost then Unheard else Heard;
      if !made.NotMade? {
        windows, live := windows + {w}, live + {w};
      }
    }

    /** tmux is asked to kill a window. */
    method KillWindow(w: nat) returns (answer: KillAnswer)
      modifies this`live
      ensures live == old(live) || live == old(live) - {w}
      ensures answer.Gone? ==> w !in live
      ensures answer.Breaks? ==> live == old(live)
      ensures quiet ==> answer.Gone?
    {
      var breaks := Strikes();
      var refuses := Strikes();
      answer := if breaks then Breaks else if refuses then Refuses else Gone;
      var acts: bool := *;
      if answer.Gone? || (answer.Refuses? && acts) {
        live := live - {w};
      }
    }

    /** How a kill turns out for `_cleanup_window`. */
    ghost function Cleaned(w: nat, answer: KillAnswer): Outcome
      reads this
    {
      if answer.Breaks? then KillBreaks else if w in live then KillFails else Works(0)
    }

    /** `_cleanup_window` under a shield.  False: an unexpected error, or the caller was cancelled
        meanwhile and the kill goes on; whatever else was to be undone is not. */
    method CleanUp(i: nat, ghost p: Phase, ghost next: Phase, w: nat) returns (finished: bool)
      requires At(i, p) && (p == Undoing(w) || p == UndoingBootstrap(w) || (p.UndoingSession? && p.win == w))
      requires next == if p.UndoingSession? then UndoingBootstrap(p.boot) else Ended
      modifies this
      ensures old(trail) <= trail
      ensures if finished then At(i, next) && (w !in Now().live || w in Now().leaked) else Over(i)
      ensures !finished && p.UndoingSession? ==> p.boot !in Now().live || p.boot in Now().leaked
      ensures quiet ==> finished && w !in live
    {
      hide Run, DisconnectStep;
      OthersAct(i, p);
      var cancelled := Strikes();
      if cancelled {
        Step(i, Background(w), CancelledInKill, if p.UndoingSession? then Lose(Now(), p.boot) else Now());
        return false;
      }
      var answer := KillWindow(w);
      finished := !answer.Breaks?;
      ghost var o := Cleaned(w, answer);
      if finished {
        Step(i, next, o, Windows.CleanUp(Now(), w, o));
      } else {
        Step(i, Ended, o, if p.UndoingSession? then Lose(Lose(Now(), w), p.boot) else Lose(Now(), w));
      }
    }

    /** `_new_session`: the bootstrap window does not outlive it, nor does the window when it
        fails, unless tmux will not kill them or a second cancellation arrives. */
    method NewSession(i: nat) returns (r: Option<nat>)
      requires At(i, Starting)
      modifies this
      ensures old(trail) <= trail
      ensures if r.Some? then At(i, Preparing(r.value)) else Over(i)
      ensures quiet ==> r.Some?
    {
      hide Run, DisconnectStep;
      OthersAct(i, Starting);
      var boot, made := MakeWindow();
      if !made.Heard? {
        MakingFails(i, Starting, Ended, boot, made);
        return None;
      }
      Step(i, OpeningSession(boot), Works(boot), Create(Now(), boot));
      r := OpenWindow(i, boot);
    }

    /** Its second half, the window beside the bootstrap. */
    method OpenWindow(i: nat, boot: nat) returns (r: Option<nat>)
      requires At(i, OpeningSession(boot))
      modifies this
      ensures old(trail) <= trail
      ensures if r.Some? then At(i, Preparing(r.value)) else Over(i)
      ensures quiet ==> r.Some?
    {
      hide Run, DisconnectStep;
      OthersAct(i, OpeningSession(boot));
      var win, made := MakeWindow();
      if !made.Heard? {
        MakingFails(i, OpeningSession(boot), UndoingBootstrap(boot), win, made);
        var finished := CleanUp(i, UndoingBootstrap(boot), Ended, boot);
        return None;
      }
      Step(i, ClosingBootstrap(win, boot), Works(win), Create(Now(), win));
      r := CloseBootstrap(i, win, boot);
    }

    /** The step of a task that asked for a window and did not hear of one. */
    ghost method MakingFails(i: nat, p: Phase, next: Phase, w: nat, made: MadeAnswer)
      requires trail != [] && Run(trail) && i in Now().tasks && Now().tasks[i] == p && !made.Heard?
      requires (p.Starting? && next.Ended?) || (p.OpeningSession? && next == UndoingBootstrap(p.boot))
      requires Matches(if made.NotMade? then Now() else Create(Now(), w)) && w !in Now().windows
      modifies this`trail
      ensures At(i, next) && old(trail) <= trail
    {
      hide Run, DisconnectStep;
      if made.NotMade? {
        Step(i, next, Fails, Now());
      } else {
        Step(i, next, FailsLate(w), CreateLost(Now(), w));
      }
    }

    method CloseBootstrap(i: nat, win: nat, boot: nat) returns (r: Option<nat>)
      requires At(i, ClosingBootstrap(win, boot))
      modifies this
      ensures old(trail) <= trail
      ensures if r.Some? then At(i, Preparing(r.value)) else Over(i)
      ensures quiet ==> r == Some(win)
    {
      hide Run, DisconnectStep;
      OthersAct(i, ClosingBootstrap(win, boot));
      var answer := KillWindow(boot);
      var cancelled := Strikes();
      ghost var o := Cleaned(boot, answer);
      if !cancelled && !answer.Breaks? {
        Step(i, Preparing(win), o, Windows.CleanUp(Now(), boot, o));
        return Some(win);
      }
      if cancelled {
        Step(i, UndoingSession(win, boot), CancelledInKill, if boot in live then Now() else Kill(Now(), boot));
      } else {
        Step(i, UndoingSession(win, boot), KillBreaks, Now());
      }
      var finished := CleanUp(i, UndoingSession(win, boot), UndoingBootstrap(boot), win);
      if finished {
        finished := CleanUp(i, UndoingBootstrap(boot), Ended, boot);
      }
      return None;
    }

    /** The second half of `connect`: the window is made ready and registered. */
    method Prepare(i: nat, win: nat) returns (r: Option<nat>)
      requires At(i, Preparing(win))
      modifies this
      ensures old(trail) <= trail
      ensures r.None? ==> Over(i)
      ensures r.Some? ==> At(i, Ended) && r.value in connections && connections[r.value] == win
      ensures r.Some? ==> win in Now().live || win in Now().died
      ensures quiet ==> r.Some?
    {
      hide Run, DisconnectStep;
      OthersAct(i, Preparing(win));
      var fails := Strikes();
      if fails {
        Step(i, Undoing(win), Fails, Now());
        var finished := CleanUp(i, Undoing(win), Ended, win);
        return None;
      }
      RunInv(trail, |trail| - 1);
      KeptIsThere(Now(), i, win);
      hide Inv;
      var id := Host.FreshKey(ids);
      connections, ids := connections[id := win], ids + {id};
      Step(i, Ended, Works(id), Now().(connections := connections, ids := ids));
      return Some(id);
    }

    /** `connect`, from the session lookup on: in the end there is one more connection, or the
        task has nothing left to undo. */
    method Connect(i: nat) returns (r: Option<nat>)
      requires At(i, Starting)
      modifies this
      ensures old(trail) <= trail
      ensures r.None? ==> Over(i)
      ensures r.Some? ==> At(i, Ended) && r.value in connections
      ensures r.Some? ==> connections[r.value] in Now().live || connections[r.value] in Now().died
      ensures quiet ==> r.Some?
    {
      hide Run, DisconnectStep;
      OthersAct(i, Starting);
      var fails := Strikes();
      if fails {
        Step(i, Ended, Fails, Now());
        return None;
      }
      var inSession: bool := *;
      if !inSession {
        var window := NewSession(i);
        if window.None? {
          return None;
        }
        r := Prepare(i, window.value);
        return;
      }
      OthersAct(i, Starting);
      var win, made := MakeWindow();
      if !made.Heard? {
        MakingFails(i, Starting, Ended, win, made);
        return None;
      }
      Step(i, Preparing(win), Works(win), Create(Now(), win));
      r := Prepare(i, win);
    }

    /** A new task looks a connection up and begins to disconnect it. */
    ghost method BeginDisconnect(i: nat, id: nat)
      requires Valid() && i !in Now().tasks && id in connections
      modifies this`trail
      ensures At(i, Killing(id, connections[id])) && old(trail) <= trail
    {
      var t := Now().(tasks := Now().tasks[i := Killing(id, connections[id])]);
      assert Begin(Now(), t, i, Killing(id, connections[id]));
      trail := Then(trail, t);
    }

    /** The task hears of the kill of its connection's window. */
    method HearOfKill(i: nat, id: nat, win: nat, cancelled: bool) returns (gone: bool)
      requires At(i, if cancelled then KillingOn(id, win) else Killing(id, win))
      modifies this
      ensures old(trail) <= trail && connections == old(connections) && (quiet ==> gone)
      ensures if gone then At(i, Unregistering(id)) && win !in live else At(i, Ended)
    {
      hide Run, ConnectStep;
      ghost var p := Now().tasks[i];
      var answer := KillWindow(win);
      var again := Strikes();
      if cancelled && again {
        Step(i, Ended, CancelledInKill, if live == old(live) then Now() else Slay(Now(), win));
        return false;
      }
      match answer
      case Gone =>
        Step(i, Unregistering(id), Works(0), Slay(Now(), win));
        return true;
      case Refuses =>
        Step(i, Ended, KillFails, if live == old(live) then Now() else Slay(Now(), win));
        return false;
      case Breaks =>
        Step(i, Ended, KillBreaks, Now());
        return false;
    }

    /** The rest of `disconnect`, once it has the lock. */
    method KillAndUnregister(i: nat, id: nat, win: nat) returns (r: Disconnected)
      requires At(i, Killing(id, win))
      modifies this
      ensures At(i, Ended) && old(trail) <= trail && !r.NoSuchConnection?
      ensures r.Closed? ==> id !in connections && win !in live
      ensures quiet ==> !r.Raises?
    {
      hide Run, ConnectStep;
      var cancelled := Strikes();
      if cancelled {
        Step(i, KillingOn(id, win), CancelledInKill, Now());
        OthersAct(i, KillingOn(id, win));
      }
      var gone := HearOfKill(i, id, win, cancelled);
      if gone {
        connections := connections - {id};
        Step(i, Ended, Works(0), Now().(connections := connections));
      }
      return if gone && !cancelled then Closed else Raises;
    }

    /** `disconnect`: when nothing goes wrong it succeeds if and only if there was such a
        connection.  Success means that the connection is off the register and its window gone;
        for a connection that is not there nothing happens. */
    method Disconnect(i: nat, id: nat) returns (r: Disconnected)
      requires Valid() && i !in Now().tasks
      modifies this
      ensures Valid() && old(trail) <= trail
      ensures r.NoSuchConnection? <==> id !in old(connections)
      ensures if r.NoSuchConnection? then unchanged(this) else At(i, Ended)
      ensures r.Closed? ==> id !in connections && old(connections)[id] !in live
      ensures quiet ==> !r.Raises?
    {
      hide Run, ConnectStep;
      if id !in connections {
        return NoSuchConnection;
      }
      var win := connections[id];
      BeginDisconnect(i, id);
      OthersAct(i, Killing(id, win));
      var fails := Strikes();
      if fails {
        Step(i, Ended, Fails, Now());
        return Raises;
      }
      r := KillAndUnregister(i, id, win);
    }
  }
}
