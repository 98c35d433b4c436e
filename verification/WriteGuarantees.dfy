/** What a caller of the write can rely on, over every run of client and receiver. */
module WriteGuarantees {
  import opened Common
  import Transfer
  import opened FileTree
  import Commit
  import opened Host
  import opened WriteProtocol

  // ---------------------------------------------------------------------------
  // Soundness of `unchanged`.

  /** Which party a step can change. */
  lemma ClientShape(w: Write, s: State, t: State)
    requires ClientStep(w, s, t)
    ensures t == s.(client := t.client, launched := t.launched, sent := t.sent, queue := t.queue)
    ensures s.client.Failed? || s.client.Returned? ==> t.client == s.client && t.sent == s.sent
  {
    hide Reads;
    if ClientSees(w, s, t) {
      var m :| Sees(w, s, t, m);
      hide ClientActs, ClientSends, ClientRaises;
    } else {
      hide ClientSees;
    }
  }

  lemma ReceiverShape(w: Write, s: State, t: State)
    requires ReceiverActs(w, s, t)
    ensures t.client == s.client && t.sent == s.sent && s.screen <= t.screen
    ensures t.commit == s.commit || Commit.Next(JobOf(w, s.payload), s.commit, t.commit)
  {
    hide Commit.Own, Commit.Others, Commit.ReportedState, Transfer.DecodesTo, Delim, Expected, Transfer.Judge;
  }

  lemma OtherShape(w: Write, s: State, t: State)
    requires ReceiverRaises(s, t) || ReceiverDies(s, t) || ShellReads(s, t) || Noise(w, s, t) || OthersAct(s, t)
    ensures t.client == s.client && t.sent == s.sent && s.screen == t.screen
    ensures t.commit == s.commit || Commit.Next(JobOf(w, s.payload), s.commit, t.commit)
  {
    hide Contains, Foreign;
  }

  lemma StepShape(w: Write, s: State, t: State)
    requires Next(w, s, t)
    ensures s.screen <= t.screen
    ensures t.commit == s.commit || Commit.Next(JobOf(w, s.payload), s.commit, t.commit)
    ensures t.client == s.client || ClientStep(w, s, t)
    ensures s.client.Failed? || s.client.Returned? ==> t.client == s.client && t.sent == s.sent
  {
    hide ClientStep, ReceiverActs, ReceiverRaises, ReceiverDies, ShellReads, Noise, OthersAct, Commit.Next;
    if ClientStep(w, s, t) { ClientShape(w, s, t); }
    else if ReceiverActs(w, s, t) { ReceiverShape(w, s, t); }
    else { OtherShape(w, s, t); }
  }

  /** What never goes back. */
  lemma StepMonotone(w: Write, s: State, t: State)
    requires Next(w, s, t)
    ensures s.commit.published ==> t.commit.published
    ensures s.screen <= t.screen
    ensures s.client.Failed? || s.client.Returned? ==> t.client == s.client && t.sent == s.sent
  {
    hide Next, Commit.Next;
    StepShape(w, s, t);
    if t.commit != s.commit {
      Commit.StepControl(JobOf(w, s.payload), s.commit, t.commit);
    }
  }

  lemma {:induction false} RunMonotone(w: Write, run: seq<State>, i: nat, k: nat)
    requires Run(w, run) && i <= k < |run|
    ensures run[i].commit.published ==> run[k].commit.published
    ensures run[i].screen <= run[k].screen
    ensures run[i].client.Failed? || run[i].client.Returned? ==>
            run[k].client == run[i].client && run[k].sent == run[i].sent
  {
    hide Next, ValidWrite;
    if i < k {
      RunMonotone(w, run, i, k - 1);
      StepMonotone(w, run[k - 1], run[k]);
    }
  }

  /** Whenever the client has failed with `unchanged`, or the receiver has reported
      `unchanged`, no link or replace has taken effect, and none does in any continuation. */
  lemma UnchangedIsSound(w: Write, run: seq<State>, i: nat, k: nat)
    requires Run(w, run) && i < |run| && k < |run|
    requires run[i].client == Failed(Unchanged) || UnchangedMark(run[i])
    ensures !run[k].commit.published
  {
    hide Next;
    if k <= i {
      RunMonotone(w, run, k, i);
      NothingTookEffect(w, run, i);
    } else {
      RunMonotone(w, run, i, k);
      NothingTookEffect(w, run, k);
    }
  }

  lemma NothingTookEffect(w: Write, run: seq<State>, i: nat)
    requires Run(w, run) && i < |run|
    requires run[i].client == Failed(Unchanged) || UnchangedMark(run[i])
    ensures !run[i].commit.published
  {
    hide Next;
    RunInv(w, run, i);
    StartsUnpublished(run[i].commit);
  }

  // ---------------------------------------------------------------------------
  // Success means that the content was there.

  /** The resolved destination held the complete content with its mode, or a reader of the
      path found exactly the content there. */
  predicate Held(w: Write, s: State) {
    || (s.payload == w.content && Commit.Holds(JobOf(w, w.content), s.commit))
    || (match Stat(s.commit.fs, w.path) case Found(File(data, _)) => data == w.content case _ => false)
  }

  lemma PublishingStep(w: Write, s: State, t: State)
    requires Inv(w, s) && Next(w, s, t) && !s.commit.published && t.commit.published
    ensures Held(w, t)
  {
    hide Next, Commit.Next, Commit.Inv, Commit.Holds, ClientStep, Delim, Contains, Stat, ClientInv, ValidWrite;
    NextKeepsInv(w, s, t);
    StepShape(w, s, t);
    StartsUnpublished(t.commit);
    Commit.PublishHolds(JobOf(w, s.payload), s.commit, t.commit);
    SamePayload(w, s, t);
  }

  /** A step that moves the commit does not touch the payload. */
  lemma SamePayload(w: Write, s: State, t: State)
    requires Next(w, s, t) && t.commit != s.commit
    ensures t.payload == s.payload
  {
    hide Commit.Own, Transfer.DecodesTo, Delim, Transfer.Judge, Contains, Foreign, Reads, Sees;
    if ClientStep(w, s, t) { ClientShape(w, s, t); }
    hide ClientStep;
  }

  lemma {:induction false} PublishedWasHeld(w: Write, run: seq<State>, i: nat) returns (k: nat)
    requires Run(w, run) && i < |run| && run[i].commit.published
    ensures k <= i && Held(w, run[k])
  {
    hide Next, Inv, Held, ValidWrite;
    if run[i - 1].commit.published {
      k := PublishedWasHeld(w, run, i - 1);
    } else {
      RunInv(w, run, i - 1);
      PublishingStep(w, run[i - 1], run[i]);
      k := i;
    }
  }

  lemma ReturnsOnExit(w: Write, s: State, t: State, m: Mark)
    requires Inv(w, s) && Sees(w, s, t, m) && t.client.Returned?
    ensures s.commit.published
  {
    hide Commit.Inv, Delim, Contains, ValidWrite;
  }

  lemma ReturnsOnProbe(w: Write, s: State, t: State)
    requires ValidWrite(w) && ClientStep(w, s, t) && !ClientSees(w, s, t)
    requires !s.client.Returned? && t.client.Returned?
    ensures Held(w, s)
  {
    hide ClientSees, Stat, Commit.Holds, Delim;
  }

  /** The step on which the client returns normally: DONE and EXIT 0 were seen, or the probe
      found the content. */
  lemma ReturningStep(w: Write, s: State, t: State)
    requires Inv(w, s) && Next(w, s, t) && !s.client.Returned? && t.client.Returned?
    ensures s.commit.published || Held(w, s)
  {
    hide Next, ClientStep, Held, Sees;
    StepShape(w, s, t);
    assert ValidWrite(w);
    hide Inv, ValidWrite;
    if ClientSees(w, s, t) {
      var m :| Sees(w, s, t, m);
      ReturnsOnExit(w, s, t, m);
    } else {
      ReturnsOnProbe(w, s, t);
    }
  }

  /** `write_remote_file` returns normally only if at some moment of the run the destination
      held exactly the content. */
  lemma {:induction false} ReturnedMeansHeld(w: Write, run: seq<State>, i: nat)
    requires Run(w, run) && i < |run| && run[i].client.Returned?
    ensures exists k :: 0 <= k <= i && Held(w, run[k])
  {
    hide Next, Inv, Held, ValidWrite;
    if run[i - 1].client.Returned? {
      ReturnedMeansHeld(w, run, i - 1);
    } else {
      RunInv(w, run, i - 1);
      ReturningStep(w, run[i - 1], run[i]);
      if run[i - 1].commit.published {
        var k := PublishedWasHeld(w, run, i - 1);
      }
    }
  }

  /** A reader of the destination never sees part of the payload: every name that leads to the
      receiver's file leads to all of the content, unless someone else has rewritten it. */
  lemma NeverPartial(w: Write, run: seq<State>, i: nat, p: Path)
    requires Run(w, run) && i < |run|
    requires p in run[i].commit.fs.names && p !in Commit.Hidden(run[i].commit)
    requires run[i].commit.mine == Some(run[i].commit.fs.names[p])
    ensures var c := run[i].commit;
      && c.fs.names[p] in c.fs.nodes
      && (c.rewritten || c.fs.nodes[c.fs.names[p]] == File(w.content, c.mode))
  {
    hide Next;
    RunInv(w, run, i);
    StartsUnpublished(run[i].commit);
  }

  // ---------------------------------------------------------------------------
  // Which destination state a failed write reports.

  predicate Handling(c: Client) {
    c.Recovering? || c.Probing?
  }

  predicate BeforeReady(c: Client) {
    c.Preparing? || c.Starting?
  }

  /** The moment at which the client entered its exception handler. */
  ghost predicate EnteredAt(run: seq<State>, k: nat, i: nat) {
    && k < i < |run| && InTry(run[k].client) && forall m :: k < m <= i ==> Handling(run[m].client)
  }

  lemma HandlerStep(w: Write, s: State, t: State)
    requires Next(w, s, t) && Handling(t.client)
    ensures InTry(s.client) || Handling(s.client)
    ensures InTry(s.client) ==> t.client.stage == StageOf(s.client)
    ensures Handling(s.client) ==> t.client.stage == s.client.stage
  {
    StepShape(w, s, t);
    if t.client != s.client {
      ClientHandles(w, s, t);
    }
  }

  lemma ClientHandles(w: Write, s: State, t: State)
    requires ClientStep(w, s, t) && Handling(t.client) && t.client != s.client
    ensures InTry(s.client) || Handling(s.client)
    ensures InTry(s.client) ==> t.client.stage == StageOf(s.client)
    ensures Handling(s.client) ==> t.client.stage == s.client.stage
  {
    hide Reads;
    if ClientSees(w, s, t) {
      var m :| Sees(w, s, t, m);
      hide ClientActs, ClientSends, ClientRaises, ClientSees;
    } else {
      hide ClientSees;
    }
  }

  lemma {:induction false} HandlerEntered(w: Write, run: seq<State>, i: nat) returns (k: nat)
    requires Run(w, run) && i < |run| && Handling(run[i].client)
    ensures EnteredAt(run, k, i) && run[i].client.stage == StageOf(run[k].client)
  {
    hide Next, ValidWrite;
    HandlerStep(w, run[i - 1], run[i]);
    if Handling(run[i - 1].client) {
      k := HandlerEntered(w, run, i - 1);
    } else {
      k := i - 1;
    }
  }

  /** A write that fails in its exception handler reports `unchanged` if the handler was entered
      before READY had been read, and `unknown` otherwise. */
  lemma HandlerReports(w: Write, run: seq<State>, i: nat) returns (k: nat)
    requires Run(w, run) && i + 1 < |run| && Handling(run[i].client) && run[i + 1].client.Failed?
    ensures EnteredAt(run, k, i)
    ensures run[i + 1].client == Failed(if BeforeReady(run[k].client) then Unchanged else Unknown)
  {
    k := HandlerEntered(w, run, i);
    assert Next(w, run[i], run[i + 1]);
    hide Run, Next;
    StepShape(w, run[i], run[i + 1]);
    FailsWithItsStage(w, run[i], run[i + 1]);
  }

  lemma FailsWithItsStage(w: Write, s: State, t: State)
    requires ClientStep(w, s, t) && Handling(s.client) && t.client.Failed?
    ensures var early := s.client.stage == AtPrepare || s.client.stage == AtStartup;
            t.client == Failed(if early then Unchanged else Unknown)
  {
    hide Reads;
  }

  /** One that fails over an ERROR marker reports what the marker says. */
  lemma MarkerIsReported(w: Write, run: seq<State>, i: nat) returns (k: nat, stage: Stage)
    requires Run(w, run) && i < |run| && run[i].client.Settling?
    ensures k < i && Printed(Error(stage, run[i].client.destination)) in run[k].screen
    ensures i + 1 < |run| && run[i + 1].client.Failed? ==> run[i + 1].client.destination == run[i].client.destination
  {
    k, stage := SettlingSince(w, run, i);
    if i + 1 < |run| && run[i + 1].client.Failed? {
      assert Next(w, run[i], run[i + 1]);
      hide Run, Next;
      StepShape(w, run[i], run[i + 1]);
      SettlesAsRead(w, run[i], run[i + 1]);
    }
  }

  lemma SettlesAsRead(w: Write, s: State, t: State)
    requires ClientStep(w, s, t) && s.client.Settling? && t.client.Failed?
    ensures t.client.destination == s.client.destination
  {
    hide Reads;
  }

  lemma ReadsMarker(w: Write, s: State, t: State) returns (stage: Stage)
    requires ClientStep(w, s, t) && t.client.Settling? && t.client != s.client
    ensures Printed(Error(stage, t.client.destination)) in s.screen
  {
    hide Reads;
    var m :| Sees(w, s, t, m);
    stage := m.event.stage;
  }

  lemma {:induction false} SettlingSince(w: Write, run: seq<State>, i: nat) returns (k: nat, stage: Stage)
    requires Run(w, run) && i < |run| && run[i].client.Settling?
    ensures k < i && Printed(Error(stage, run[i].client.destination)) in run[k].screen
  {
    hide Next, ValidWrite;
    StepShape(w, run[i - 1], run[i]);
    if run[i - 1].client == run[i].client {
      k, stage := SettlingSince(w, run, i - 1);
    } else {
      k := i - 1;
      stage := ReadsMarker(w, run[k], run[i]);
    }
  }

  // ---------------------------------------------------------------------------
  // What the receiver says, and how it exits.

  /** An ERROR of the commit says `unknown` exactly if a link or replace had been begun; one of
      an earlier stage says `unchanged`, and then the commit has not begun and never will. */
  ghost predicate TrueError(s: State, e: Event)
    requires e.Error?
  {
    if e.stage == AtCommit then
      && s.commit.pc == Commit.End(false)
      && (e.destination == Unknown <==> s.commit.replaceStarted || s.commit.committed)
    else
      (e.stage == AtTransfer || e.stage == AtVerify) && e.destination == Unchanged && Commit.Starts(s.commit)
  }

  ghost predicate ReportsTruly(s: State) {
    match s.receiver
    case Reporting(event, code) =>
      if event.Error? then TrueError(s, event) && code == 1 else event.Done? && code == 0
    case Exited(code) => code == 0 <==> DoneMark(s)
    case _ => true
  }

  ghost predicate ScreenIsTrue(s: State) {
    && (forall e :: Printed(e) in s.screen && e.Error? ==>
          TrueError(s, e) && s.receiver.Exited? && s.receiver.code != 0)
    && (forall code :: Exit(code) in s.screen ==> s.receiver == Exited(code))
  }

  lemma ReceiverStaysTrue(w: Write, s: State, t: State)
    requires Inv(w, s) && ReportsTruly(s) && ScreenIsTrue(s) && ReceiverActs(w, s, t)
    ensures ReportsTruly(t) && ScreenIsTrue(t)
  {
    if Unfed(s.receiver) || s.receiver.Verifying? {
      assert Commit.Starts(s.commit);
      hide Inv, Commit.Starts;
      BeginsTrue(w, s, t);
      hide ReceiverActs;
    } else {
      assert DoneMark(s) ==> s.receiver.Exited?;
      hide Inv;
      if s.receiver.Committing? { CommitsTrue(w, s, t); } else { EndsTrue(w, s, t); }
    }
  }

  lemma BeginsTrue(w: Write, s: State, t: State)
    requires ReceiverActs(w, s, t) && (Unfed(s.receiver) || s.receiver.Verifying?)
    ensures t.commit == s.commit && !t.receiver.Exited?
    ensures t.screen == s.screen || t.screen == s.screen + {Printed(Ready)}
    ensures t.receiver.Reporting? ==>
              && t.receiver.event.Error? && t.receiver.event.destination == Unchanged && t.receiver.code == 1
              && (t.receiver.event.stage == AtTransfer || t.receiver.event.stage == AtVerify)
  {
    hide Transfer.Judge, Transfer.DecodesTo, Delim, Expected;
  }

  lemma CommitsTrue(w: Write, s: State, t: State)
    requires ReportsTruly(s) && ScreenIsTrue(s) && ReceiverActs(w, s, t) && s.receiver.Committing?
    ensures ReportsTruly(t) && ScreenIsTrue(t)
  {
    hide Takes, Transfer.DecodesTo, Commit.Own, Commit.Starts;
  }

  lemma EndsTrue(w: Write, s: State, t: State)
    requires ReportsTruly(s) && ScreenIsTrue(s) && ReceiverActs(w, s, t) && (DoneMark(s) ==> s.receiver.Exited?)
    requires s.receiver.Reporting? || s.receiver.Exited?
    ensures ReportsTruly(t) && ScreenIsTrue(t)
  {
    hide Takes, Transfer.DecodesTo, Commit.Own, Commit.Starts, Commit.ReportedState;
    assert t.commit == s.commit;
    if s.receiver.Exited? {
      hide TrueError;
    }
  }

  lemma OthersLeaveItTrue(w: Write, s: State, t: State)
    requires Inv(w, s) && ReportsTruly(s) && ScreenIsTrue(s) && Next(w, s, t) && !ReceiverActs(w, s, t)
    ensures ReportsTruly(t) && ScreenIsTrue(t)
  {
    if ReceiverRaises(s, t) {
      assert Commit.Starts(s.commit);
      hide Inv, Next, ReceiverActs, Commit.Starts;
    } else if OthersAct(s, t) {
      hide Inv, Next, ReceiverActs;
      CommitStaysTrue(s, t);
    } else if ReceiverDies(s, t) {
      hide Next, ReceiverActs, Commit.Inv, ClientInv, ValidWrite, Commit.Starts, Contains;
    } else {
      ElsewhereStaysTrue(w, s, t);
      hide Inv, Next, ReceiverActs;
    }
  }

  lemma CommitStaysTrue(s: State, t: State)
    requires ReportsTruly(s) && ScreenIsTrue(s) && OthersAct(s, t)
    ensures ReportsTruly(t) && ScreenIsTrue(t)
  {
    assert Commit.Starts(s.commit) ==> Commit.Starts(t.commit);
    assert t.commit == s.commit.(fs := t.commit.fs, rewritten := t.commit.rewritten);
    hide OthersAct, Commit.Starts, Commit.Others;
    forall e: Event | e.Error? && TrueError(s, e) ensures TrueError(t, e) {
    }
    hide TrueError;
  }

  lemma ElsewhereStaysTrue(w: Write, s: State, t: State)
    requires ClientStep(w, s, t) || ShellReads(s, t) || Noise(w, s, t)
    ensures t.receiver == s.receiver && t.screen == s.screen && t.commit == s.commit
  {
    hide Reads, Contains, Delim;
    if ClientSees(w, s, t) {
      var m :| Sees(w, s, t, m);
    }
  }

  /** In every run, an ERROR on the screen says the truth about what the commit has tried; after
      one the receiver exits with something else than 0, and it exits with 0 exactly after DONE. */
  lemma {:induction false} ReceiverSaysTheTruth(w: Write, run: seq<State>, i: nat)
    requires Run(w, run) && i < |run|
    ensures ReportsTruly(run[i]) && ScreenIsTrue(run[i])
  {
    if i > 0 {
      assert Next(w, run[i - 1], run[i]);
      hide Run, Next, ReportsTruly, ScreenIsTrue, Inv, ReceiverActs;
      ReceiverSaysTheTruth(w, run, i - 1);
      RunInv(w, run, i - 1);
      if ReceiverActs(w, run[i - 1], run[i]) {
        ReceiverStaysTrue(w, run[i - 1], run[i]);
      } else {
        OthersLeaveItTrue(w, run[i - 1], run[i]);
      }
    }
  }
}
