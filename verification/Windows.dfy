/** The tmux windows that the session manager creates: which are alive, which belong to a
    registered connection, and which are still in the hands of a task that is connecting. */
module Windows {
  import opened Common

  /** How far a task has come.  The names of the windows it must not lose go along. */
  datatype Phase =
    | Starting                            // checks, the connect lock, the session lookup
    | OpeningSession(boot: nat)           // a new session with its bootstrap window
    | ClosingBootstrap(win: nat, boot: nat)
    | UndoingSession(win: nat, boot: nat) // the new session failed after its window was made
    | UndoingBootstrap(boot: nat)
    | Preparing(win: nat)                 // readiness probe, project path, working directory
    | Undoing(win: nat)
    | Background(win: nat)                // a shielded kill whose caller has been cancelled
    | Killing(id: nat, win: nat)          // a disconnect, waiting for the lock or for tmux
    | KillingOn(id: nat, win: nat)        // it has been cancelled, and still waits for the kill
    | Unregistering(id: nat)
    | Ended

  /** `windows` and `ids` are all names of windows and connections used so far; `died` the
      windows that went away by themselves, `killed` those that a disconnect killed; `leaked`
      those that nobody knows any more. */
  datatype State = State(
    live: set<nat>, connections: map<nat, nat>, tasks: map<nat, Phase>,
    windows: set<nat>, ids: set<nat>, died: set<nat>, killed: set<nat>, leaked: set<nat>)

  predicate Starts(s: State) {
    s == State({}, map[], map[], {}, {}, {}, {}, {})
  }

  /** How a step turns out.  `Fails` is an error, or a cancellation that arrives while the
      connect awaits something else than the killing of a window, and that comes before tmux has
      made a window; `FailsLate` comes after.  A kill that fails raises what a cleanup ignores
      and a disconnect reports, and `KillBreaks` what neither does, before tmux is reached.  A
      kill after which the window is gone works, whatever it raises to a cleanup. */
  datatype Outcome = Works(name: nat) | Fails | FailsLate(name: nat) | KillFails | KillBreaks | CancelledInKill

  function Create(s: State, w: nat): State {
    s.(live := s.live + {w}, windows := s.windows + {w})
  }

  function Kill(s: State, w: nat): State {
    s.(live := s.live - {w})
  }

  /** Killed by a disconnect. */
  function Slay(s: State, w: nat): State {
    s.(live := s.live - {w}, killed := s.killed + ({w} * s.live))
  }

  /** tmux has made a window, and the one who asked for it never hears its name. */
  function CreateLost(s: State, w: nat): State {
    s.(live := s.live + {w}, windows := s.windows + {w}, leaked := s.leaked + {w})
  }

  /** Nobody remembers this window any more. */
  function Lose(s: State, w: nat): State {
    s.(leaked := s.leaked + ({w} * s.live))
  }

  /** `_cleanup_window`, which ignores a failure to kill. */
  function CleanUp(s: State, w: nat, o: Outcome): State {
    if o.Works? then Kill(s, w) else Lose(s, w)
  }

  predicate ConnectStep(phase: Phase, next: Phase, s: State, t: State, o: Outcome) {
    match phase
    case Starting =>
      || (o.Works? && o.name !in s.windows && t == Create(s, o.name)
          && (next == OpeningSession(o.name) || next == Preparing(o.name)))
      || (o.Fails? && next.Ended? && t == s)
      || (o.FailsLate? && o.name !in s.windows && next.Ended? && t == CreateLost(s, o.name))
    case OpeningSession(boot) =>
      || (o.Works? && o.name !in s.windows && t == Create(s, o.name) && next == ClosingBootstrap(o.name, boot))
      || (o.Fails? && next == UndoingBootstrap(boot) && t == s)
      || (o.FailsLate? && o.name !in s.windows && next == UndoingBootstrap(boot) && t == CreateLost(s, o.name))
    case ClosingBootstrap(win, boot) =>
      || ((o.Works? || o.KillFails?) && next == Preparing(win) && t == CleanUp(s, boot, o))
      || (o.KillBreaks? && next == UndoingSession(win, boot) && t == s)
      || (o.CancelledInKill? && next == UndoingSession(win, boot) && (t == s || t == Kill(s, boot)))
    case UndoingSession(win, boot) =>
      || ((o.Works? || o.KillFails?) && next == UndoingBootstrap(boot) && t == CleanUp(s, win, o))
      || (o.KillBreaks? && next.Ended? && t == Lose(Lose(s, win), boot))
      || (o.CancelledInKill? && next == Background(win) && t == Lose(s, boot))
    case UndoingBootstrap(boot) =>
      || (CleansUp(o) && next.Ended? && t == CleanUp(s, boot, o))
      || (o.CancelledInKill? && next == Background(boot) && t == s)
    case Preparing(win) =>
      || (o.Works? && o.name !in s.ids && next.Ended?
          && t == s.(connections := s.connections[o.name := win], ids := s.ids + {o.name}))
      || (o.Fails? && next == Undoing(win) && t == s)
    case Undoing(win) =>
      || (CleansUp(o) && next.Ended? && t == CleanUp(s, win, o))
      || (o.CancelledInKill? && next == Background(win) && t == s)
    case Background(win) =>
      CleansUp(o) && next.Ended? && t == CleanUp(s, win, o)
    case _ => false
  }

  predicate CleansUp(o: Outcome) {
    o.Works? || o.KillFails? || o.KillBreaks?
  }

  /** Killing the window of a connection works when the window is gone afterwards, whether or
      not it was there before, and only then is the connection taken off the register.  A kill
      that fails, or that a second cancellation cuts short, may have taken effect.  The effect
      belongs to the step in which the task hears of it, or gives up waiting. */
  predicate DisconnectStep(phase: Phase, next: Phase, s: State, t: State, o: Outcome) {
    match phase
    case Killing(id, win) =>
      || (o.Works? && next == Unregistering(id) && t == Slay(s, win))
      || (o.KillFails? && next.Ended? && (t == s || t == Slay(s, win)))
      || ((o.Fails? || o.KillBreaks?) && next.Ended? && t == s)
      || (o.CancelledInKill? && next == KillingOn(id, win) && t == s)
    case KillingOn(id, win) =>
      || (o.Works? && next == Unregistering(id) && t == Slay(s, win))
      || ((o.KillFails? || o.CancelledInKill?) && next.Ended? && (t == s || t == Slay(s, win)))
      || (o.KillBreaks? && next.Ended? && t == s)
    case Unregistering(id) => next.Ended? && t == s.(connections := s.connections - {id})
    case _ => false
  }

  predicate TaskStep(s: State, t: State, i: nat, next: Phase, o: Outcome) {
    && i in s.tasks
    && var after := t.(tasks := s.tasks);
       && t.tasks == s.tasks[i := next]
       && (ConnectStep(s.tasks[i], next, s, after, o) || DisconnectStep(s.tasks[i], next, s, after, o))
  }

  /** A task begins: a connect, or the disconnect of a registered connection. */
  predicate Begin(s: State, t: State, i: nat, first: Phase) {
    && i !in s.tasks && t == s.(tasks := s.tasks[i := first])
    && (first.Starting? || (first.Killing? && first.id in s.connections && s.connections[first.id] == first.win))
  }

  /** A window closes by itself, because its ssh ended or a person closed it. */
  predicate Dies(s: State, t: State, w: nat) {
    w in s.live && t == s.(live := s.live - {w}, died := s.died + {w})
  }

  ghost predicate Next(s: State, t: State) {
    || (exists i: nat, first: Phase :: Begin(s, t, i, first))
    || (exists i: nat, next: Phase, o: Outcome :: TaskStep(s, t, i, next, o))
    || (exists w: nat :: Dies(s, t, w))
  }

  ghost predicate Run(run: seq<State>) {
    && run != [] && Starts(run[0])
    && forall i :: 0 <= i < |run| - 1 ==> Next(run[i], run[i + 1])
  }

  // ---------------------------------------------------------------------------
  // The invariant.

  /** The windows a task has in its hands. */
  function InHand(p: Phase): set<nat> {
    match p
    case OpeningSession(boot) => {boot}
    case ClosingBootstrap(win, boot) => {win, boot}
    case UndoingSession(win, boot) => {win, boot}
    case UndoingBootstrap(boot) => {boot}
    case Preparing(win) => {win}
    case Undoing(win) => {win}
    case Background(win) => {win}
    case _ => {}
  }

  /** Those of them that are certainly still there, unless they died by themselves. */
  function Keeps(p: Phase): set<nat> {
    match p
    case UndoingSession(win, boot) => {win}
    case UndoingBootstrap(boot) => {}
    case Background(win) => {}
    case _ => InHand(p)
  }

  /** Who is responsible for a window. */
  datatype Owner = ByConnection(id: nat) | ByTask(task: nat) | Lost

  predicate There(s: State, w: nat) {
    w in s.live || w in s.died
  }

  predicate Fits(s: State, w: nat, o: Owner) {
    match o
    case ByConnection(a) => a in s.connections && s.connections[a] == w && (There(s, w) || w in s.killed)
    case ByTask(i) => i in s.tasks && w in InHand(s.tasks[i]) && (w in Keeps(s.tasks[i]) ==> There(s, w))
    case Lost => w in s.leaked && There(s, w)
  }

  /** Every window that is alive has an owner that fits. */
  ghost predicate Fitting(s: State, owner: map<nat, Owner>) {
    && s.live <= owner.Keys <= s.windows && s.died <= s.windows && s.killed <= s.windows
    && s.live !! s.died && s.live !! s.killed && s.died !! s.killed
    && forall w :: w in owner ==> Fits(s, w, owner[w])
  }

  predicate OwnsAll(owner: map<nat, Owner>, i: nat, p: Phase) {
    && (forall w :: w in InHand(p) ==> w in owner && owner[w] == ByTask(i))
    && (p.ClosingBootstrap? || p.UndoingSession? ==> p.win != p.boot)
  }

  /** The window that a disconnect is after: it is that of the connection, and if the connection
      is no longer registered it is gone. */
  predicate Aims(s: State, id: nat, win: nat) {
    && id in s.ids && win in s.windows
    && (if id in s.connections then s.connections[id] == win else win !in s.live)
  }

  predicate TaskFits(s: State, owner: map<nat, Owner>, i: nat, p: Phase) {
    && OwnsAll(owner, i, p)
    && (p.Killing? || p.KillingOn? ==> Aims(s, p.id, p.win))
    && (p.Unregistering? ==> p.id in s.ids && (p.id in s.connections ==> s.connections[p.id] !in s.live))
  }

  /** No window has two owners. */
  ghost predicate Apart(s: State, owner: map<nat, Owner>) {
    && s.connections.Keys <= s.ids
    && (forall a :: a in s.connections ==> s.connections[a] in owner && owner[s.connections[a]] == ByConnection(a))
    && (forall i :: i in s.tasks ==> TaskFits(s, owner, i, s.tasks[i]))
    && (forall w :: w in s.leaked ==> w in owner && owner[w] == Lost)
  }

  ghost predicate InvWith(s: State, owner: map<nat, Owner>) {
    Fitting(s, owner) && Apart(s, owner)
  }

  ghost predicate Inv(s: State) {
    exists owner: map<nat, Owner> :: InvWith(s, owner)
  }

  /** An owner still fits when nothing that it speaks of has changed. */
  lemma FitsStill(s: State, t: State, w: nat, o: Owner)
    requires Fits(s, w, o) && (w in s.live <==> w in t.live) && s.died <= t.died && s.killed <= t.killed
    requires o.ByConnection? ==> o.id in t.connections && t.connections[o.id] == w
    requires o.ByTask? && o.task in s.tasks ==> o.task in t.tasks && t.tasks[o.task] == s.tasks[o.task]
    requires o.Lost? ==> w in t.leaked
    ensures Fits(t, w, o)
  {
    hide InHand, Keeps;
  }

  lemma BeginKeepsInv(s: State, t: State, i: nat, first: Phase, owner: map<nat, Owner>)
    requires InvWith(s, owner) && Begin(s, t, i, first)
    ensures InvWith(t, owner)
  {
    assert Fitting(t, owner) by {
      forall w | w in owner ensures Fits(t, w, owner[w]) {
        assert Fits(s, w, owner[w]);
        FitsStill(s, t, w, owner[w]);
      }
      hide Fits, Apart;
    }
    assert Apart(t, owner) by {
      assert InHand(first) == {};
      hide Fitting, InHand;
    }
  }

  lemma DiesKeepsInv(s: State, t: State, w: nat, owner: map<nat, Owner>)
    requires InvWith(s, owner) && Dies(s, t, w)
    ensures InvWith(t, owner)
  {
  }

  /** A task steps from one phase to another while `base`, everything but the tasks, changes:
      nothing at all, ... */
  ghost predicate Moves(s: State, t: State, i: nat, next: Phase, base: State) {
    && i in s.tasks && !next.Unregistering? && !next.Killing? && !next.KillingOn?
    && (next.ClosingBootstrap? || next.UndoingSession? ==> next.win != next.boot)
    && t == base.(tasks := s.tasks[i := next])
  }

  lemma NothingChanges(s: State, t: State, i: nat, next: Phase, owner: map<nat, Owner>)
    requires InvWith(s, owner) && Moves(s, t, i, next, s)
    requires InHand(next) == InHand(s.tasks[i]) && Keeps(next) <= Keeps(s.tasks[i])
    ensures InvWith(t, owner)
  {
    hide InHand, Keeps;
  }

  /** ... a window is made, ... */
  lemma OneIsMade(s: State, t: State, i: nat, next: Phase, w: nat, owner: map<nat, Owner>)
    requires InvWith(s, owner) && Moves(s, t, i, next, Create(s, w)) && w !in s.windows
    requires InHand(next) == InHand(s.tasks[i]) + {w} && Keeps(next) <= Keeps(s.tasks[i]) + {w}
    ensures InvWith(t, owner[w := ByTask(i)])
  {
    hide InHand, Keeps;
    var after := owner[w := ByTask(i)];
    assert Fitting(t, after) by { hide Apart; }
    assert Apart(t, after) by { hide There; }
  }

  /** ... or made and lost at once, ... */
  lemma OneIsMadeAndLost(s: State, t: State, i: nat, next: Phase, w: nat, owner: map<nat, Owner>)
    requires InvWith(s, owner) && Moves(s, t, i, next, CreateLost(s, w)) && w !in s.windows
    requires InHand(next) == InHand(s.tasks[i]) && Keeps(next) <= Keeps(s.tasks[i])
    ensures InvWith(t, owner[w := Lost])
  {
    hide InHand, Keeps;
    var after := owner[w := Lost];
    assert Fitting(t, after) by { hide Apart; }
    assert Apart(t, after) by { hide There; }
  }

  /** ... one that this connect holds is killed, and perhaps still held, ... */
  lemma OneIsKilled(s: State, t: State, i: nat, next: Phase, w: nat, owner: map<nat, Owner>)
    requires InvWith(s, owner) && Moves(s, t, i, next, Kill(s, w)) && w in InHand(s.tasks[i])
    requires InHand(next) == InHand(s.tasks[i]) - {w} && Keeps(next) <= Keeps(s.tasks[i])
    ensures InvWith(t, owner - {w})
  {
    hide InHand, Keeps;
    assert owner[w] == ByTask(i);
    assert Fitting(t, owner - {w}) by { hide Apart; }
    assert Apart(t, owner - {w}) by { hide Fitting; }
  }

  lemma OneIsKilledButHeld(s: State, t: State, i: nat, next: Phase, w: nat, owner: map<nat, Owner>)
    requires InvWith(s, owner) && Moves(s, t, i, next, Kill(s, w)) && w in InHand(s.tasks[i])
    requires InHand(next) == InHand(s.tasks[i]) && Keeps(next) <= Keeps(s.tasks[i]) - {w}
    ensures InvWith(t, owner)
  {
    hide InHand, Keeps;
    assert owner[w] == ByTask(i);
    assert Fitting(t, owner) by { hide Apart; }
    assert Apart(t, owner) by { hide Fitting; }
  }

  /** ... or it is given up alive, ... */
  lemma OneIsLost(s: State, t: State, i: nat, next: Phase, w: nat, owner: map<nat, Owner>)
    requires InvWith(s, owner) && Moves(s, t, i, next, Lose(s, w)) && w in InHand(s.tasks[i])
    requires InHand(next) == InHand(s.tasks[i]) - {w} && Keeps(next) <= Keeps(s.tasks[i]) - {w}
    ensures InvWith(t, if w in s.live then owner[w := Lost] else owner - {w})
  {
    hide InHand, Keeps;
    var after := if w in s.live then owner[w := Lost] else owner - {w};
    assert owner[w] == ByTask(i);
    assert Fitting(t, after) by {
      forall v | v in after ensures Fits(t, v, after[v]) {
        if v != w {
          assert Fits(s, v, owner[v]);
          if owner[v] != ByTask(i) {
            FitsStill(s, t, v, owner[v]);
          }
        }
      }
      hide Fits, Apart;
    }
    assert Apart(t, after) by { hide Fitting; }
  }

  lemma OneIsCleanedUp(s: State, t: State, i: nat, next: Phase, w: nat, o: Outcome, owner: map<nat, Owner>)
    requires InvWith(s, owner) && Moves(s, t, i, next, CleanUp(s, w, o)) && w in InHand(s.tasks[i])
    requires InHand(next) == InHand(s.tasks[i]) - {w} && Keeps(next) <= Keeps(s.tasks[i]) - {w}
    ensures Inv(t)
  {
    if o.Works? {
      OneIsKilled(s, t, i, next, w, owner);
    } else {
      OneIsLost(s, t, i, next, w, owner);
    }
  }

  /** ... or it goes to a connection. */
  ghost predicate Registers(s: State, t: State, i: nat, w: nat, id: nat) {
    && id !in s.ids && i in s.tasks && s.tasks[i] == Preparing(w)
    && t == s.(connections := s.connections[id := w], ids := s.ids + {id}, tasks := s.tasks[i := Ended])
  }

  lemma RegisteredFits(s: State, t: State, i: nat, w: nat, id: nat, owner: map<nat, Owner>)
    requires InvWith(s, owner) && Registers(s, t, i, w, id)
    ensures Fitting(t, owner[w := ByConnection(id)])
  {
    assert TaskFits(s, owner, i, s.tasks[i]) && w in InHand(s.tasks[i]) && w in Keeps(s.tasks[i]);
    assert Fits(s, w, owner[w]);
    hide Apart, TaskFits, InHand, Keeps;
    forall v | v in owner && v != w ensures Fits(t, v, owner[v]) {
      assert Fits(s, v, owner[v]);
      if owner[v] != ByTask(i) {
        FitsStill(s, t, v, owner[v]);
      }
    }
  }

  lemma RegisteredApart(s: State, t: State, i: nat, w: nat, id: nat, owner: map<nat, Owner>)
    requires InvWith(s, owner) && Registers(s, t, i, w, id)
    ensures Apart(t, owner[w := ByConnection(id)])
  {
    var after := owner[w := ByConnection(id)];
    assert TaskFits(s, owner, i, s.tasks[i]) && w in InHand(s.tasks[i]);
    hide Fitting;
    forall j | j in t.tasks ensures TaskFits(t, after, j, t.tasks[j]) {
      if j != i {
        assert TaskFits(s, owner, j, s.tasks[j]);
        hide InHand;
      }
    }
    hide TaskFits, InHand;
  }

  lemma OneIsRegistered(s: State, t: State, i: nat, w: nat, id: nat, owner: map<nat, Owner>)
    requires InvWith(s, owner) && Registers(s, t, i, w, id)
    ensures InvWith(t, owner[w := ByConnection(id)])
  {
    RegisteredFits(s, t, i, w, id, owner);
    RegisteredApart(s, t, i, w, id, owner);
  }

  lemma ConnectKeepsInv(s: State, t: State, i: nat, next: Phase, o: Outcome, owner: map<nat, Owner>)
    requires InvWith(s, owner) && i in s.tasks && t.tasks == s.tasks[i := next]
    requires ConnectStep(s.tasks[i], next, s, t.(tasks := s.tasks), o)
    ensures Inv(t)
  {
    if s.tasks[i].ClosingBootstrap? || s.tasks[i].UndoingSession? {
      SessionKeepsInv(s, t, i, next, o, owner);
    } else {
      WindowKeepsInv(s, t, i, next, o, owner);
    }
  }

  lemma SessionKeepsInv(s: State, t: State, i: nat, next: Phase, o: Outcome, owner: map<nat, Owner>)
    requires InvWith(s, owner) && i in s.tasks && t.tasks == s.tasks[i := next]
    requires s.tasks[i].ClosingBootstrap? || s.tasks[i].UndoingSession?
    requires ConnectStep(s.tasks[i], next, s, t.(tasks := s.tasks), o)
    ensures Inv(t)
  {
    assert Moves(s, t, i, next, t.(tasks := s.tasks)) by {
      assert TaskFits(s, owner, i, s.tasks[i]);
    }
    hide InvWith;
    match s.tasks[i]
    case ClosingBootstrap(win, boot) =>
      if o.CancelledInKill? || o.KillBreaks? {
        if t.live == s.live {
          NothingChanges(s, t, i, next, owner);
        } else {
          OneIsKilledButHeld(s, t, i, next, boot, owner);
        }
      } else {
        OneIsCleanedUp(s, t, i, next, boot, o, owner);
      }
    case UndoingSession(win, boot) =>
      if o.CancelledInKill? {
        OneIsLost(s, t, i, next, boot, owner);
      } else if o.KillBreaks? {
        BothAreLost(s, t, i, win, boot, owner);
      } else {
        OneIsCleanedUp(s, t, i, next, win, o, owner);
      }
  }

  lemma BothAreLost(s: State, t: State, i: nat, win: nat, boot: nat, owner: map<nat, Owner>)
    requires InvWith(s, owner) && i in s.tasks && s.tasks[i] == UndoingSession(win, boot) && win != boot
    requires t == Lose(Lose(s, win), boot).(tasks := s.tasks[i := Ended])
    ensures Inv(t)
  {
    var between := Lose(s, win).(tasks := s.tasks[i := UndoingBootstrap(boot)]);
    hide InvWith;
    OneIsLost(s, between, i, UndoingBootstrap(boot), win, owner);
    var later := if win in s.live then owner[win := Lost] else owner - {win};
    assert between.tasks[i := Ended] == s.tasks[i := Ended];
    OneIsLost(between, t, i, Ended, boot, later);
  }

  lemma WindowKeepsInv(s: State, t: State, i: nat, next: Phase, o: Outcome, owner: map<nat, Owner>)
    requires InvWith(s, owner) && i in s.tasks && t.tasks == s.tasks[i := next]
    requires !s.tasks[i].ClosingBootstrap? && !s.tasks[i].UndoingSession?
    requires ConnectStep(s.tasks[i], next, s, t.(tasks := s.tasks), o)
    ensures Inv(t)
  {
    assert Moves(s, t, i, next, t.(tasks := s.tasks)) by {
      assert TaskFits(s, owner, i, s.tasks[i]);
      assert forall w :: w in InHand(s.tasks[i]) ==> w in s.windows;
    }
    hide InvWith;
    match s.tasks[i]
    case Starting =>
      if o.Works? {
        OneIsMade(s, t, i, next, o.name, owner);
      } else if o.FailsLate? {
        OneIsMadeAndLost(s, t, i, next, o.name, owner);
      } else {
        NothingChanges(s, t, i, next, owner);
      }
    case OpeningSession(boot) =>
      if o.Works? {
        OneIsMade(s, t, i, next, o.name, owner);
      } else if o.FailsLate? {
        OneIsMadeAndLost(s, t, i, next, o.name, owner);
      } else {
        NothingChanges(s, t, i, next, owner);
      }
    case UndoingBootstrap(boot) =>
      if o.CancelledInKill? {
        NothingChanges(s, t, i, next, owner);
      } else {
        OneIsCleanedUp(s, t, i, next, boot, o, owner);
      }
    case Preparing(win) =>
      if o.Works? {
        OneIsRegistered(s, t, i, win, o.name, owner);
      } else {
        NothingChanges(s, t, i, next, owner);
      }
    case Undoing(win) =>
      if o.CancelledInKill? {
        NothingChanges(s, t, i, next, owner);
      } else {
        OneIsCleanedUp(s, t, i, next, win, o, owner);
      }
    case Background(win) => OneIsCleanedUp(s, t, i, next, win, o, owner);
  }

  lemma DisconnectKeepsInv(s: State, t: State, i: nat, next: Phase, o: Outcome, owner: map<nat, Owner>)
    requires InvWith(s, owner) && i in s.tasks && t.tasks == s.tasks[i := next]
    requires DisconnectStep(s.tasks[i], next, s, t.(tasks := s.tasks), o)
    ensures Inv(t)
  {
    if s.tasks[i].Unregistering? {
      UnregisterKeepsInv(s, t, i, owner);
    } else {
      KillKeepsInv(s, t, i, next, owner);
    }
  }

  /** A step of a disconnect that still has to kill. */
  ghost predicate Aimed(s: State, t: State, i: nat, next: Phase) {
    && i in s.tasks && (s.tasks[i].Killing? || s.tasks[i].KillingOn?)
    && (t == s.(tasks := s.tasks[i := next]) || t == Slay(s, s.tasks[i].win).(tasks := s.tasks[i := next]))
    && (|| next.Ended?
        || next == KillingOn(s.tasks[i].id, s.tasks[i].win)
        || (next == Unregistering(s.tasks[i].id) && t.live == s.live - {s.tasks[i].win}))
  }

  lemma KillKeepsInv(s: State, t: State, i: nat, next: Phase, owner: map<nat, Owner>)
    requires InvWith(s, owner) && Aimed(s, t, i, next)
    ensures Inv(t)
  {
    assert InHand(s.tasks[i]) == InHand(next) == {};
    assert TaskFits(s, owner, i, s.tasks[i]);
    var id, win := s.tasks[i].id, s.tasks[i].win;
    assert win in s.live ==> id in s.connections && owner[win] == ByConnection(id);
    assert Fitting(t, owner) by {
      hide InHand, Keeps, Apart, TaskFits;
      forall v | v in owner ensures Fits(t, v, owner[v]) {
        assert Fits(s, v, owner[v]);
        if v != win && owner[v] != ByTask(i) {
          FitsStill(s, t, v, owner[v]);
        }
      }
      hide Fits;
    }
    assert Apart(t, owner) by {
      hide Fitting;
      forall j | j in t.tasks ensures TaskFits(t, owner, j, t.tasks[j]) {
        if j != i {
          assert TaskFits(s, owner, j, s.tasks[j]);
        }
        hide InHand, Keeps;
      }
      hide InHand, Keeps, TaskFits;
    }
    assert InvWith(t, owner);
  }

  lemma UnregisteredFits(s: State, t: State, i: nat, owner: map<nat, Owner>)
    requires InvWith(s, owner) && i in s.tasks && s.tasks[i].Unregistering?
    requires t == s.(connections := s.connections - {s.tasks[i].id}, tasks := s.tasks[i := Ended])
    ensures var id := s.tasks[i].id;
            Fitting(t, if id in s.connections then owner - {s.connections[id]} else owner)
  {
    var id := s.tasks[i].id;
    assert InHand(s.tasks[i]) == {};
    assert TaskFits(s, owner, i, s.tasks[i]);
    var after := if id in s.connections then owner - {s.connections[id]} else owner;
    assert id in s.connections ==> Fits(s, s.connections[id], owner[s.connections[id]]);
    hide Apart, InHand, Keeps, TaskFits;
    forall w | w in after ensures Fits(t, w, after[w]) {
      assert Fits(s, w, owner[w]);
      if owner[w] != ByTask(i) {
        FitsStill(s, t, w, owner[w]);
      }
    }
    hide Fits;
  }

  lemma UnregisteredApart(s: State, t: State, i: nat, owner: map<nat, Owner>)
    requires InvWith(s, owner) && i in s.tasks && s.tasks[i].Unregistering?
    requires t == s.(connections := s.connections - {s.tasks[i].id}, tasks := s.tasks[i := Ended])
    ensures var id := s.tasks[i].id;
            Apart(t, if id in s.connections then owner - {s.connections[id]} else owner)
  {
    var id := s.tasks[i].id;
    assert TaskFits(s, owner, i, s.tasks[i]);
    var after := if id in s.connections then owner - {s.connections[id]} else owner;
    hide Fitting;
    forall j | j in t.tasks ensures TaskFits(t, after, j, t.tasks[j]) {
      if j != i {
        assert TaskFits(s, owner, j, s.tasks[j]);
        hide InHand, Keeps;
      }
    }
    hide TaskFits, InHand, Keeps;
  }

  lemma UnregisterKeepsInv(s: State, t: State, i: nat, owner: map<nat, Owner>)
    requires InvWith(s, owner) && i in s.tasks && s.tasks[i].Unregistering?
    requires t == s.(connections := s.connections - {s.tasks[i].id}, tasks := s.tasks[i := Ended])
    ensures Inv(t)
  {
    UnregisteredFits(s, t, i, owner);
    UnregisteredApart(s, t, i, owner);
    hide Fitting, Apart;
    var id := s.tasks[i].id;
    assert InvWith(t, if id in s.connections then owner - {s.connections[id]} else owner);
  }

  lemma NextKeepsInv(s: State, t: State)
    requires Inv(s) && Next(s, t)
    ensures Inv(t)
  {
    var owner :| InvWith(s, owner);
    hide InvWith;
    if i: nat, first: Phase :| Begin(s, t, i, first) {
      BeginKeepsInv(s, t, i, first, owner);
    } else if i: nat, next: Phase, o: Outcome :| TaskStep(s, t, i, next, o) {
      if ConnectStep(s.tasks[i], next, s, t.(tasks := s.tasks), o) {
        ConnectKeepsInv(s, t, i, next, o, owner);
      } else {
        DisconnectKeepsInv(s, t, i, next, o, owner);
      }
    } else {
      var w: nat :| Dies(s, t, w);
      DiesKeepsInv(s, t, w, owner);
    }
  }

  lemma StartsWell(s: State)
    requires Starts(s)
    ensures Inv(s)
  {
    assert InvWith(s, map[]);
  }

  lemma {:induction false} RunInv(run: seq<State>, n: nat)
    requires Run(run) && n < |run|
    ensures Inv(run[n])
    decreases n
  {
    hide Next, Inv;
    if n == 0 {
      assert Inv(run[0]) by { hide *; StartsWell(run[0]); }
    } else {
      RunInv(run, n - 1);
      NextKeepsInv(run[n - 1], run[n]);
    }
  }

  // ---------------------------------------------------------------------------
  // Conservation.

  /** All the windows in the hands of some task. */
  function HeldBy(s: State): set<nat> {
    set i, w | i in s.tasks && w in InHand(s.tasks[i]) :: w
  }

  function KeptBy(s: State): set<nat> {
    set i, w | i in s.tasks && w in Keeps(s.tasks[i]) :: w
  }

  /** In every reachable state, what is alive is what belongs to a registered connection or
      to a connect in progress, and what belongs to them is alive unless it died by itself or a
      disconnect killed it: `leaked` is the only other place a window can be, and no two of them
      share one. */
  lemma {:induction false} Conservation(run: seq<State>, n: nat)
    requires Run(run) && n < |run|
    ensures var s := run[n];
            && s.live !! s.died && s.live !! s.killed
            && s.live <= s.connections.Values + HeldBy(s) + s.leaked
            && ((s.connections.Values - s.killed) + KeptBy(s) + s.leaked) - s.died <= s.live
    ensures var s := run[n];
            && s.connections.Values !! HeldBy(s) && s.connections.Values !! s.leaked && HeldBy(s) !! s.leaked
            && NoSharing(s)
  {
    RunInv(run, n);
    hide Run;
    var s := run[n];
    var owner :| InvWith(s, owner);
    hide Inv;
    LiveIsOwned(s, owner);
    OwnedIsLive(s, owner);
    OwnersApart(s, owner);
  }

  /** Neither two connections nor two tasks have a window in common. */
  ghost predicate NoSharing(s: State) {
    && (forall a, b :: a in s.connections && b in s.connections && s.connections[a] == s.connections[b] ==> a == b)
    && (forall i, j, w ::
          i in s.tasks && j in s.tasks && w in InHand(s.tasks[i]) && w in InHand(s.tasks[j]) ==> i == j)
  }

  lemma LiveIsOwned(s: State, owner: map<nat, Owner>)
    requires InvWith(s, owner)
    ensures s.live !! s.died && s.live !! s.killed && s.live <= s.connections.Values + HeldBy(s) + s.leaked
  {
    hide Apart;
    forall w | w in s.live ensures w in s.connections.Values + HeldBy(s) + s.leaked {
      assert Fits(s, w, owner[w]);
    }
  }

  lemma OwnedIsLive(s: State, owner: map<nat, Owner>)
    requires InvWith(s, owner)
    ensures ((s.connections.Values - s.killed) + KeptBy(s) + s.leaked) - s.died <= s.live
  {
    forall a | a in s.connections && s.connections[a] !in s.killed ensures There(s, s.connections[a]) {
      assert owner[s.connections[a]] == ByConnection(a) && Fits(s, s.connections[a], owner[s.connections[a]]);
    }
    forall i, w | i in s.tasks && w in Keeps(s.tasks[i]) ensures There(s, w) {
      assert TaskFits(s, owner, i, s.tasks[i]) && w in InHand(s.tasks[i]) && Fits(s, w, owner[w]);
    }
    forall w | w in s.leaked ensures There(s, w) {
      assert Fits(s, w, owner[w]);
    }
    hide InvWith, Keeps, InHand;
  }

  lemma OwnersApart(s: State, owner: map<nat, Owner>)
    requires InvWith(s, owner)
    ensures s.connections.Values !! HeldBy(s) && s.connections.Values !! s.leaked && HeldBy(s) !! s.leaked
    ensures NoSharing(s)
  {
    hide Fitting;
    forall i, w | i in s.tasks && w in InHand(s.tasks[i]) ensures w in owner && owner[w] == ByTask(i) {
      assert TaskFits(s, owner, i, s.tasks[i]);
    }
    hide TaskFits, InHand;
  }

  lemma KeptIsThere(s: State, i: nat, w: nat)
    requires Inv(s) && i in s.tasks && w in Keeps(s.tasks[i])
    ensures There(s, w) && w !in s.killed
  {
    var owner :| InvWith(s, owner);
    assert TaskFits(s, owner, i, s.tasks[i]);
    assert Fits(s, w, owner[w]);
  }

  predicate AllEnded(s: State) {
    forall i :: i in s.tasks ==> s.tasks[i].Ended?
  }

  /** With no connect or disconnect under way, the live windows are exactly those of the
      registered connections, less those that a disconnect killed, and the leaked ones. */
  lemma {:induction false} QuietConservation(run: seq<State>, n: nat)
    requires Run(run) && n < |run| && AllEnded(run[n])
    ensures run[n].live == (run[n].connections.Values - run[n].killed) + run[n].leaked - run[n].died
  {
    Conservation(run, n);
    RunInv(run, n);
    hide Run;
    var s := run[n];
    var owner :| InvWith(s, owner);
    hide Inv;
    LostIsNotKilled(s, owner);
    hide InvWith, NoSharing;
    assert HeldBy(s) == {};
  }

  lemma LostIsNotKilled(s: State, owner: map<nat, Owner>)
    requires InvWith(s, owner)
    ensures s.leaked !! s.killed
  {
    forall w | w in s.leaked ensures w !in s.killed {
      assert Fits(s, w, owner[w]);
    }
  }

  // ---------------------------------------------------------------------------
  // Registered over a window that a disconnect killed.

  /** Task `i` ends here without having taken connection `a` off the register, and yet its kill
      has had its effect. */
  predicate GivesUp(s: State, t: State, i: nat, a: nat) {
    && i in s.tasks && (s.tasks[i].Killing? || s.tasks[i].KillingOn?) && s.tasks[i].id == a
    && i in t.tasks && t.tasks[i].Ended?
    && s.tasks[i].win in s.live && s.tasks[i].win !in t.live
  }

  ghost predicate HalfDone(s: State, t: State, a: nat) {
    exists i: nat :: GivesUp(s, t, i, a)
  }

  ghost predicate HalfDoneAt(run: seq<State>, k: nat, a: nat) {
    k + 1 < |run| && HalfDone(run[k], run[k + 1], a)
  }

  ghost predicate HalfDoneBefore(run: seq<State>, n: nat, a: nat) {
    exists k: nat :: k < n && HalfDoneAt(run, k, a)
  }

  predicate BeingUnregistered(s: State, a: nat) {
    exists i :: i in s.tasks && s.tasks[i] == Unregistering(a)
  }

  /** A registered connection keeps its window, and names are never drawn twice. */
  lemma RegisterKeeps(s: State, t: State, a: nat)
    requires Next(s, t) && a in s.ids && a in t.connections
    ensures a in s.connections && t.connections[a] == s.connections[a]
  {
  }

  lemma NamesStay(s: State, t: State)
    requires Next(s, t)
    ensures s.ids <= t.ids && s.killed <= t.killed
  {
  }

  lemma {:induction false} RegisteredSince(run: seq<State>, k: nat, n: nat, a: nat)
    requires Run(run) && k <= n < |run| && a in run[k].ids && a in run[n].connections
    ensures a in run[k].connections && run[n].connections[a] == run[k].connections[a]
    ensures run[k].killed <= run[n].killed && run[k].ids <= run[n].ids
    decreases n
  {
    if k < n {
      hide Next;
      assert Next(run[n - 1], run[n]);
      NamesKept(run, k, n - 1);
      RegisterKeeps(run[n - 1], run[n], a);
      NamesStay(run[n - 1], run[n]);
      RegisteredSince(run, k, n - 1, a);
    }
  }

  lemma {:induction false} NamesKept(run: seq<State>, k: nat, n: nat)
    requires Run(run) && k <= n < |run|
    ensures run[k].ids <= run[n].ids
    decreases n
  {
    if k < n {
      hide Next;
      assert Next(run[n - 1], run[n]);
      NamesKept(run, k, n - 1);
      NamesStay(run[n - 1], run[n]);
    }
  }

  lemma ConnectKillsNone(s: State, t: State, i: nat, next: Phase, o: Outcome, a: nat)
    requires Inv(s) && i in s.tasks && ConnectStep(s.tasks[i], next, s, t, o)
    requires a in t.connections && t.connections[a] in t.killed
    ensures a in s.connections && s.connections[a] in s.killed
  {
    hide Inv;
    if s.tasks[i].Preparing? {
      KeptIsThere(s, i, s.tasks[i].win);
    }
    hide InHand, Keeps;
  }

  lemma DisconnectAims(s: State, i: nat, a: nat)
    requires Inv(s) && i in s.tasks && (s.tasks[i].Killing? || s.tasks[i].KillingOn?)
    requires s.tasks[i].win in s.live && a in s.connections && s.connections[a] == s.tasks[i].win
    ensures s.tasks[i].id == a
  {
    var owner :| InvWith(s, owner);
    assert TaskFits(s, owner, i, s.tasks[i]);
    hide Fitting, InHand, Keeps;
  }

  /** The one step that kills the window of a connection: it is half done, or the connection is
      then being taken off the register. */
  lemma KilledInStep(s: State, t: State, a: nat)
    requires Inv(s) && Next(s, t) && a in t.connections
    requires t.connections[a] in t.killed && (a in s.connections ==> s.connections[a] !in s.killed)
    ensures HalfDone(s, t, a) || BeingUnregistered(t, a)
  {
    hide Inv;
    if i: nat, next: Phase, o: Outcome :| TaskStep(s, t, i, next, o) {
      hide Next;
      if ConnectStep(s.tasks[i], next, s, t.(tasks := s.tasks), o) {
        ConnectKillsNone(s, t.(tasks := s.tasks), i, next, o, a);
      } else {
        KilledByDisconnect(s, t, i, next, o, a);
      }
    }
  }

  lemma KilledByDisconnect(s: State, t: State, i: nat, next: Phase, o: Outcome, a: nat)
    requires Inv(s) && i in s.tasks && t.tasks == s.tasks[i := next]
    requires DisconnectStep(s.tasks[i], next, s, t.(tasks := s.tasks), o)
    requires a in t.connections && t.connections[a] in t.killed
    requires a in s.connections ==> s.connections[a] !in s.killed
    ensures HalfDone(s, t, a) || BeingUnregistered(t, a)
  {
    hide Inv;
    assert !s.tasks[i].Unregistering?;
    DisconnectAims(s, i, a);
    assert t.tasks[i] == next && i in t.tasks;
    if next.Ended? {
      assert GivesUp(s, t, i, a);
    } else {
      assert next == Unregistering(a);
    }
  }

  lemma UnregisteringGoesOn(s: State, t: State, a: nat)
    requires Next(s, t) && BeingUnregistered(s, a) && a in t.connections
    ensures BeingUnregistered(t, a)
  {
    var j :| j in s.tasks && s.tasks[j] == Unregistering(a);
    assert j in t.tasks && t.tasks[j] == Unregistering(a);
  }

  lemma {:induction false} KilledBefore(run: seq<State>, n: nat, a: nat)
    requires Run(run) && n < |run| && a in run[n].connections && run[n].connections[a] in run[n].killed
    ensures HalfDoneBefore(run, n, a) || BeingUnregistered(run[n], a)
    decreases n
  {
    if n > 0 {
      RunInv(run, n - 1);
      var s, t := run[n - 1], run[n];
      assert Next(s, t);
      hide Inv;
      if a in s.connections && s.connections[a] in s.killed {
        KilledBefore(run, n - 1, a);
        if BeingUnregistered(s, a) {
          hide Next;
          UnregisteringGoesOn(s, t, a);
        }
      } else {
        hide Next;
        KilledInStep(s, t, a);
        assert HalfDone(s, t, a) ==> HalfDoneAt(run, n - 1, a);
      }
    }
  }

  lemma HalfDoneKills(s: State, t: State, i: nat, a: nat)
    requires Inv(s) && Next(s, t) && GivesUp(s, t, i, a)
    ensures a in s.ids && (a in t.connections ==> t.connections[a] in t.killed)
  {
    var owner :| InvWith(s, owner);
    assert TaskFits(s, owner, i, s.tasks[i]);
    hide InvWith, Inv;
    if j: nat, next: Phase, o: Outcome :| TaskStep(s, t, j, next, o) {
      assert j == i;
    }
  }

  /** With no connect or disconnect under way, a registered connection stands over a window that
      the manager itself killed if and only if a disconnect of it was once left half done: its
      kill timed out after its effect, or a second cancellation arrived after it. */
  lemma {:induction false} RegisteredOverKilledIff(run: seq<State>, n: nat, a: nat)
    requires Run(run) && n < |run| && AllEnded(run[n]) && a in run[n].connections
    ensures run[n].connections[a] in run[n].killed <==> HalfDoneBefore(run, n, a)
  {
    if run[n].connections[a] in run[n].killed {
      KilledBefore(run, n, a);
    }
    if HalfDoneBefore(run, n, a) {
      var k: nat :| k < n && HalfDoneAt(run, k, a);
      RunInv(run, k);
      assert Next(run[k], run[k + 1]);
      var i: nat :| GivesUp(run[k], run[k + 1], i, a);
      hide Next, Inv;
      HalfDoneKills(run[k], run[k + 1], i, a);
      NamesStay(run[k], run[k + 1]);
      RegisteredSince(run, k + 1, n, a);
    }
  }

  /** So a run in which every disconnect that ends has either had no effect or unregistered its
      connection ends with the live windows that are registered or leaked, and no others. */
  lemma WithoutHalves(run: seq<State>, n: nat)
    requires Run(run) && n < |run| && AllEnded(run[n])
    requires forall a :: !HalfDoneBefore(run, n, a)
    ensures run[n].live == run[n].connections.Values + run[n].leaked - run[n].died
  {
    QuietConservation(run, n);
    forall a | a in run[n].connections ensures run[n].connections[a] !in run[n].killed {
      RegisteredOverKilledIff(run, n, a);
    }
  }

  // ---------------------------------------------------------------------------
  // Leaks.

  /** A step leaks a window exactly when tmux makes one for a caller that never hears of it,
      when the kill of a live window that nobody else holds fails, or when a second cancellation
      or an unexpected error stops the undoing of a new session whose bootstrap window is
      alive: its bootstrap is then never killed. */
  predicate Leaks(s: State, i: nat, o: Outcome)
    requires i in s.tasks
  {
    match s.tasks[i]
    case Starting => o.FailsLate?
    case OpeningSession(_) => o.FailsLate?
    case ClosingBootstrap(_, boot) => o.KillFails? && boot in s.live
    case UndoingSession(win, boot) =>
      || (o.KillFails? && win in s.live)
      || (o.CancelledInKill? && boot in s.live)
      || (o.KillBreaks? && (win in s.live || boot in s.live))
    case UndoingBootstrap(boot) => (o.KillFails? || o.KillBreaks?) && boot in s.live
    case Undoing(win) => (o.KillFails? || o.KillBreaks?) && win in s.live
    case Background(win) => (o.KillFails? || o.KillBreaks?) && win in s.live
    case _ => false
  }

  lemma LeaksExactlyWhen(s: State, t: State, i: nat, next: Phase, o: Outcome)
    requires Inv(s) && TaskStep(s, t, i, next, o)
    ensures s.leaked <= t.leaked
    ensures t.leaked != s.leaked <==> Leaks(s, i, o)
  {
    var owner :| InvWith(s, owner);
    forall w | w in InHand(s.tasks[i]) ensures w !in s.leaked {
      assert TaskFits(s, owner, i, s.tasks[i]);
    }
    assert s.leaked <= s.windows;
    hide InvWith, Inv;
    if ConnectStep(s.tasks[i], next, s, t.(tasks := s.tasks), o) {
      LeaksLocally(s, t.(tasks := s.tasks), i, next, o);
    }
  }

  lemma LeaksLocally(s: State, t: State, i: nat, next: Phase, o: Outcome)
    requires i in s.tasks && ConnectStep(s.tasks[i], next, s, t, o)
    requires InHand(s.tasks[i]) !! s.leaked && s.leaked <= s.windows
    ensures s.leaked <= t.leaked
    ensures t.leaked != s.leaked <==> Leaks(s, i, o)
  {
    forall w | w in InHand(s.tasks[i]) && w in s.live ensures s.leaked + ({w} * s.live) != s.leaked {
      assert w in s.leaked + ({w} * s.live);
    }
    forall w | w !in s.live ensures s.leaked + ({w} * s.live) == s.leaked {
    }
    if o.FailsLate? {
      assert o.name in t.leaked ==> t.leaked != s.leaked;
    }
  }

  ghost predicate Careful(s: State, t: State) {
    forall i, next, o :: TaskStep(s, t, i, next, o) ==> !Leaks(s, i, o)
  }

  /** A run without such a step leaks nothing, so `QuietConservation` then says that the live
      windows are those of the registered connections, and no others. */
  lemma {:induction false} CarefulRunLeaksNothing(run: seq<State>, n: nat)
    requires Run(run) && n < |run|
    requires forall k :: 0 <= k < n ==> Careful(run[k], run[k + 1])
    ensures run[n].leaked == {}
    decreases n
  {
    if n > 0 {
      CarefulRunLeaksNothing(run, n - 1);
      RunInv(run, n - 1);
      var s, t := run[n - 1], run[n];
      assert Next(s, t) && Careful(s, t);
      hide Run, Inv;
      if i: nat, next: Phase, o: Outcome :| TaskStep(s, t, i, next, o) {
        LeaksExactlyWhen(s, t, i, next, o);
      }
    }
  }

  lemma Then(run: seq<State>, t: State) returns (longer: seq<State>)
    requires Run(run) && Next(Last(run), t)
    ensures Run(longer) && longer == run + [t]
  {
    longer := run + [t];
    hide Next;
    forall i | 0 <= i < |longer| - 1 ensures Next(longer[i], longer[i + 1]) {
    }
  }

  lemma TakeStep(run: seq<State>, i: nat, next: Phase, o: Outcome, base: State) returns (longer: seq<State>)
    requires Run(run) && i in Last(run).tasks && base.tasks == Last(run).tasks
    requires || ConnectStep(Last(run).tasks[i], next, Last(run), base, o)
             || DisconnectStep(Last(run).tasks[i], next, Last(run), base, o)
    ensures Run(longer) && Last(longer) == base.(tasks := base.tasks[i := next]) && run < longer
  {
    var t := base.(tasks := base.tasks[i := next]);
    assert t.(tasks := Last(run).tasks) == base;
    assert TaskStep(Last(run), t, i, next, o);
    longer := Then(run, t);
  }

  /** A task begins, or takes a step in which no kill fails and no window is made unheard. */
  ghost predicate Faultless(s: State, t: State) {
    || (exists i: nat, first: Phase :: Begin(s, t, i, first))
    || (exists i: nat, next: Phase, o: Outcome :: TaskStep(s, t, i, next, o) && (o.Works? || o.CancelledInKill?))
  }

  ghost predicate FaultlessRun(run: seq<State>) {
    Run(run) && forall k :: 0 <= k < |run| - 1 ==> Faultless(run[k], run[k + 1])
  }

  lemma TakeFaultless(run: seq<State>, next: Phase, o: Outcome, base: State) returns (longer: seq<State>)
    requires FaultlessRun(run) && 0 in Last(run).tasks && base.tasks == Last(run).tasks
    requires ConnectStep(Last(run).tasks[0], next, Last(run), base, o) && (o.Works? || o.CancelledInKill?)
    ensures longer != [] && FaultlessRun(longer) && Last(longer) == base.(tasks := base.tasks[0 := next])
  {
    hide ConnectStep;
    var t := base.(tasks := base.tasks[0 := next]);
    assert t.(tasks := Last(run).tasks) == base;
    assert TaskStep(Last(run), t, 0, next, o);
    longer := Then(run, t);
    assert Faultless(Last(run), t);
    hide Faultless, Run;
    forall k | 0 <= k < |longer| - 1 ensures Faultless(longer[k], longer[k + 1]) {
    }
  }

  lemma CancelledOnce() returns (run: seq<State>)
    ensures run != [] && FaultlessRun(run)
    ensures Last(run) == State({0, 1}, map[], map[0 := UndoingSession(1, 0)], {0, 1}, {}, {}, {}, {})
  {
    run := FirstConnect();
    assert FaultlessRun(run);
    hide FaultlessRun, Run;
    run := TakeFaultless(run, OpeningSession(0), Works(0), Create(Last(run), 0));
    run := TakeFaultless(run, ClosingBootstrap(1, 0), Works(1), Create(Last(run), 1));
    run := TakeFaultless(run, UndoingSession(1, 0), CancelledInKill, Last(run));
  }

  /** Such a step can happen in a run without a fault: a connect that makes a new session is
      cancelled, and cancelled again while it undoes what it did.  Every kill that is tried works,
      and in the end the bootstrap window is alive, and nobody knows it. */
  lemma SecondCancellationLeaksTheBootstrap()
    ensures exists run: seq<State> ::
              FaultlessRun(run) && AllEnded(Last(run)) && Last(run).connections == map[]
              && Last(run).leaked == Last(run).live == {0}
  {
    var run := CancelledOnce();
    hide FaultlessRun, Run;
    run := TakeFaultless(run, Background(1), CancelledInKill, Lose(Last(run), 0));
    run := TakeFaultless(run, Ended, Works(0), Kill(Last(run), 1));
    assert FaultlessRun(run);
  }

  /** A disconnect that is cancelled twice can leave its connection registered over the window
      it has killed, with nothing under way. */
  lemma SecondCancellationLeavesItRegistered()
    ensures exists run: seq<State> ::
              Run(run) && AllEnded(Last(run)) && Last(run).connections == map[0 := 0] && Last(run).live == {}
  {
    hide Run;
    var run := FirstConnect();
    run := TakeStep(run, 0, Preparing(0), Works(0), Create(Last(run), 0));
    run := TakeStep(run, 0, Ended, Works(0), Last(run).(connections := map[0 := 0], ids := {0}));
    var s := Last(run);
    var t := s.(tasks := s.tasks[1 := Killing(0, 0)]);
    assert Begin(s, t, 1, Killing(0, 0));
    run := Then(run, t);
    run := TakeStep(run, 1, KillingOn(0, 0), CancelledInKill, Last(run));
    run := TakeStep(run, 1, Ended, CancelledInKill, Slay(Last(run), 0));
  }

  /** A run in which task 0 has just begun to connect. */
  lemma FirstConnect() returns (run: seq<State>)
    ensures Run(run) && Last(run) == State({}, map[], map[0 := Starting], {}, {}, {}, {}, {})
    ensures |run| == 2 && Begin(run[0], run[1], 0, Starting)
  {
    var s := State({}, map[], map[], {}, {}, {}, {}, {});
    var t := s.(tasks := s.tasks[0 := Starting]);
    assert Begin(s, t, 0, Starting);
    assert Run([s]);
    run := Then([s], t);
  }
}
