/** That a write succeeds: in runs in which no call fails and nobody interferes the client never
    gives up, and to every place where a file can be put there is such a run to its return. */
module WriteSuccess {
  import opened Common
  import Base64
  import Transfer
  import opened FileTree
  import Commit
  import QuietCommit
  import opened Host
  import opened WriteProtocol
  import CleanTerminal

  // ---------------------------------------------------------------------------
  // What DONE says, and what the client makes of it.

  ghost predicate SaysTheTruth(w: Write, s: State) {
    && (forall n, sha :: Printed(Done(n, sha)) in s.screen ==> n == |w.content| && sha == w.sha256(w.content))
    && (s.receiver.Reporting? && s.receiver.event.Done? ==>
          s.receiver.event == Done(|w.content|, w.sha256(w.content)))
  }

  lemma KeepsTelling(w: Write, s: State, t: State)
    requires Inv(w, s) && SaysTheTruth(w, s) && Next(w, s, t)
    ensures SaysTheTruth(w, t)
  {
    hide Next, ReceiverActs, Inv;
    if ReceiverActs(w, s, t) {
      ReceiverKeepsTelling(w, s, t);
    } else {
      NobodyElsePrints(w, s, t);
    }
  }

  lemma ReceiverKeepsTelling(w: Write, s: State, t: State)
    requires Inv(w, s) && SaysTheTruth(w, s) && ReceiverActs(w, s, t)
    ensures SaysTheTruth(w, t)
  {
    hide Transfer.Judge, Transfer.DecodesTo, Delim, Contains, ValidWrite, Commit.Inv, Commit.Own, ClientInv;
    hide Commit.Starts, Commit.ReportedState;
    if s.receiver.Committing? || s.receiver.Reporting? {
      hide Takes;
    } else {
      assert !t.receiver.Reporting? || t.receiver.event.Error?;
      hide ReceiverInv;
    }
  }

  lemma NobodyElsePrints(w: Write, s: State, t: State)
    requires Next(w, s, t) && !ReceiverActs(w, s, t)
    ensures t.screen == s.screen && (t.receiver == s.receiver || !t.receiver.Reporting? || t.receiver.event.Error?)
  {
    hide ReceiverActs, Reads, Contains, Foreign, Delim;
    if ClientSees(w, s, t) {
      var m :| Sees(w, s, t, m);
    }
  }

  /** In every run, whatever DONE marker is on the screen gives the length and the digest of the
      content. */
  lemma {:induction false} DoneIsTrue(w: Write, run: seq<State>, i: nat)
    requires Run(w, run) && i < |run|
    ensures SaysTheTruth(w, run[i])
  {
    if i > 0 {
      assert Next(w, run[i - 1], run[i]);
      hide Run, Next, SaysTheTruth, Inv;
      DoneIsTrue(w, run, i - 1);
      RunInv(w, run, i - 1);
      KeepsTelling(w, run[i - 1], run[i]);
    }
  }

  /** So a client that waits for the result and reads a DONE goes on to wait for the exit, and
      one that reads EXIT 0 then returns. */
  lemma DoneIsBelieved(w: Write, run: seq<State>, i: nat, m: Mark)
    requires Run(w, run) && i + 1 < |run| && Sees(w, run[i], run[i + 1], m)
    ensures run[i].client.Finishing? && m.Printed? && m.event.Done? ==> run[i + 1].client.Exiting?
    ensures run[i].client.Exiting? && m == Exit(0) ==> run[i + 1].client.Returned?
  {
    DoneIsTrue(w, run, i);
    hide Run, ValidWrite;
  }

  /** What every other marker makes of a client that waits for it. */
  lemma MarkersAreBelieved(w: Write, s: State, t: State, m: Mark)
    requires Sees(w, s, t, m)
    ensures s.client.Starting? && m == Printed(Ready) ==> t.client.Sending?
    ensures (s.client.Starting? || s.client.Finishing?) && m.Printed? && m.event.Error? ==>
              t.client == Settling(m.event.destination)
    ensures s.client.Starting? && m.Exit? ==> t.client == Recovering(AtStartup)
    ensures s.client.Finishing? && m.Exit? ==> t.client == Recovering(AtFinish)
    ensures s.client.Exiting? && m.Exit? && m.code != 0 ==> t.client == Recovering(AtFinish)
  {
  }

  /** A failed write whose probe finds the content at the path can still return. */
  lemma ProbeCanReturn(w: Write, s: State)
    requires s.client.Recovering? && exists mode :: Stat(s.commit.fs, w.path) == Found(File(w.content, mode))
    ensures var probing := s.(client := Probing(s.client.stage));
            Next(w, s, probing) && Next(w, probing, probing.(client := Returned))
  {
    var probing := s.(client := Probing(s.client.stage));
    assert ClientActs(w, s, probing);
    assert ClientActs(w, probing, probing.(client := Returned));
  }

  // ---------------------------------------------------------------------------
  // Runs in which nothing goes wrong.

  /** The client asks for one kind of marker after the other. */
  predicate Foremost(c: Client, screen: set<Mark>, m: Mark) {
    match m
    case Exit(_) => c.Exiting? || forall x <- screen :: x.Printed? ==> !AsksFor(c, x.event)
    case Printed(event) => event.Error? || forall x <- screen :: x.Printed? ==> !x.event.Error?
  }

  predicate AsksFor(c: Client, event: Event) {
    event.Error? || (c.Starting? && event.Ready?) || (c.Finishing? && event.Done?)
  }

  /** One step of the client or of the receiver, no call of which fails. */
  ghost predicate Smooth(w: Write, s: State, t: State) {
    || (exists m :: Sees(w, s, t, m) && Foremost(s.client, s.screen, m))
    || ClientSends(w, s, t)
    || (s.client.Preparing? && ClientActs(w, s, t))
    || (ReceiverActs(w, s, t) && NoCallFails(w, s, t))
  }

  ghost predicate NoCallFails(w: Write, s: State, t: State) {
    && (s.receiver.Verifying? ==> t.receiver.Committing?)
    && (t.commit != s.commit ==> Commit.Act(JobOf(w, s.payload), s.commit, t.commit))
  }

  ghost predicate SmoothRun(w: Write, run: seq<State>) {
    Run(w, run) && forall k :: 0 <= k < |run| - 1 ==> Smooth(w, run[k], run[k + 1])
  }

  predicate Trying(c: Client) {
    InTry(c) || c.Returned?
  }

  /** What both sides know while nothing goes wrong. */
  ghost predicate Untroubled(w: Write, a: Fs, s: State) {
    && s.clean && Trying(s.client)
    && (forall x <- s.screen :: Expectable(w, s, x))
    && (s.receiver.Reporting? ==> s.receiver == Reporting(Done(|w.content|, w.sha256(w.content)), 0))
    && (s.receiver.Exited? ==> s.receiver.code == 0 && Printed(Done(|w.content|, w.sha256(w.content))) in s.screen)
    && (s.receiver.Committing? ==> s.payload == w.content)
    && (!s.receiver.Committing? && !s.receiver.Reporting? && !s.receiver.Exited? ==>
          Commit.Starts(s.commit) && s.commit.fs == a)
    && QuietCommit.QuietInv(JobOf(w, w.content), a, s.commit)
  }

  /** The markers that may have come up. */
  predicate Expectable(w: Write, s: State, x: Mark) {
    match x
    case Printed(Ready) => true
    case Printed(Done(n, sha)) => n == |w.content| && sha == w.sha256(w.content) && s.receiver.Exited?
    case Printed(Error(_, _)) => false
    case Exit(code) => code == 0 && s.receiver.Exited?
  }

  lemma StartsUntroubled(w: Write, s: State)
    requires ValidWrite(w) && Starts(s)
    ensures Untroubled(w, s.commit.fs, s)
  {
    QuietCommit.QuietStart(JobOf(w, w.content), s.commit);
  }

  /** The client: it has sent everything before the receiver stops listening, so when it still
      waits for READY there is neither a result nor an exit. */
  lemma SeeingStaysUntroubled(w: Write, a: Fs, s: State, t: State, m: Mark)
    requires Untroubled(w, a, s) && CleanTerminal.CleanInv(w, s) && ClientInv(w, s)
    requires Sees(w, s, t, m) && Foremost(s.client, s.screen, m)
    ensures Untroubled(w, a, t)
  {
    hide QuietCommit.QuietInv, Commit.Starts;
    assert Expectable(w, s, m);
    assert s.client.Starting? && s.receiver.Exited? ==> s.sent == |w.pieces| && w.pieces != [];
    assert s.receiver.Exited? ==> Printed(Done(|w.content|, w.sha256(w.content))) in s.screen;
    hide ValidWrite, CleanTerminal.CleanInv;
    assert Trying(t.client) && t == s.(client := t.client);
    hide Sees, Foremost, ClientInv;
    SameMarks(w, s, t);
  }

  lemma SameMarks(w: Write, s: State, t: State)
    requires (forall x <- s.screen :: Expectable(w, s, x)) && t.screen == s.screen && t.receiver == s.receiver
    ensures forall x <- t.screen :: Expectable(w, t, x)
  {
    forall x <- t.screen ensures Expectable(w, t, x) {
      assert Expectable(w, s, x);
    }
  }

  lemma ClientStaysUntroubled(w: Write, a: Fs, s: State, t: State)
    requires Untroubled(w, a, s) && CleanTerminal.CleanInv(w, s) && ClientInv(w, s)
    requires || (exists m :: Sees(w, s, t, m) && Foremost(s.client, s.screen, m))
             || ClientSends(w, s, t)
             || (s.client.Preparing? && ClientActs(w, s, t))
    ensures Untroubled(w, a, t)
  {
    hide QuietCommit.QuietInv, Commit.Starts, CleanTerminal.CleanInv, ClientInv, Sees, Foremost;
    if m :| Sees(w, s, t, m) && Foremost(s.client, s.screen, m) {
      hide Untroubled;
      SeeingStaysUntroubled(w, a, s, t, m);
    } else {
      SameMarks(w, s, t);
    }
  }

  lemma ReceiverStaysUntroubled(w: Write, a: Fs, s: State, t: State)
    requires Untroubled(w, a, s) && CleanTerminal.CleanInv(w, s)
    requires ReceiverActs(w, s, t) && NoCallFails(w, s, t)
    ensures Untroubled(w, a, t)
  {
    hide Untroubled, ReceiverActs, CleanTerminal.CleanInv, NoCallFails;
    assert ValidWrite(w) by { CleanValid(w, s); }
    match s.receiver
    case Listening(_) => ListeningStaysUntroubled(w, a, s, t);
    case Committing => CommittingStaysUntroubled(w, a, s, t);
    case Verifying(_) => VerifyingStaysUntroubled(w, a, s, t);
    case Reporting(_, _) => PrintingStaysUntroubled(w, a, s, t);
    case Exited(_) => PrintingStaysUntroubled(w, a, s, t);
    case _ => SettingUpStaysUntroubled(w, a, s, t);
  }

  lemma PrintingStaysUntroubled(w: Write, a: Fs, s: State, t: State)
    requires Untroubled(w, a, s) && ReceiverActs(w, s, t) && (s.receiver.Reporting? || s.receiver.Exited?)
    ensures Untroubled(w, a, t)
  {
    hide QuietCommit.QuietInv, Commit.Starts;
    forall x <- t.screen ensures Expectable(w, t, x) {
      assert x in s.screen ==> Expectable(w, s, x);
    }
  }

  lemma SettingUpStaysUntroubled(w: Write, a: Fs, s: State, t: State)
    requires Untroubled(w, a, s) && ReceiverActs(w, s, t) && CleanTerminal.SettingUp(s.receiver)
    ensures Untroubled(w, a, t)
  {
    hide QuietCommit.QuietInv, Commit.Starts;
    forall x <- t.screen ensures Expectable(w, t, x) {
      assert x in s.screen ==> Expectable(w, s, x);
    }
  }

  lemma CleanValid(w: Write, s: State)
    requires CleanTerminal.CleanInv(w, s)
    ensures ValidWrite(w)
  {
  }

  lemma ListeningStaysUntroubled(w: Write, a: Fs, s: State, t: State)
    requires Untroubled(w, a, s) && CleanTerminal.CleanInv(w, s)
    requires ReceiverActs(w, s, t) && s.receiver.Listening?
    ensures Untroubled(w, a, t)
  {
    hide Untroubled, Takes, CleanTerminal.CleanInv;
    var n: nat :| 0 < n <= |s.queue| && Takes(w, s, t, n);
    ReadingStaysUntroubled(w, a, s, t, n);
  }

  lemma ReadingStaysUntroubled(w: Write, a: Fs, s: State, t: State, n: nat)
    requires Untroubled(w, a, s) && CleanTerminal.CleanInv(w, s)
    requires s.receiver.Listening? && 0 < n <= |s.queue| && Takes(w, s, t, n)
    ensures Untroubled(w, a, t)
  {
    CleanTerminal.CleanVerdict(w, s, n);
    hide QuietCommit.QuietInv, Commit.Starts, Transfer.Judge, Delim, Expected, ValidWrite, CleanTerminal.CleanInv;
    forall x <- t.screen ensures Expectable(w, t, x) {
      assert Expectable(w, s, x);
    }
  }

  lemma VerifyingStaysUntroubled(w: Write, a: Fs, s: State, t: State)
    requires Untroubled(w, a, s) && ValidWrite(w)
    requires ReceiverActs(w, s, t) && s.receiver.Verifying? && NoCallFails(w, s, t)
    ensures Untroubled(w, a, t)
  {
    hide QuietCommit.QuietInv, Commit.Starts, Delim, Transfer.DecodesTo;
    forall x <- t.screen ensures Expectable(w, t, x) {
      assert Expectable(w, s, x);
    }
  }

  lemma CommittingStaysUntroubled(w: Write, a: Fs, s: State, t: State)
    requires Untroubled(w, a, s) && ReceiverActs(w, s, t) && s.receiver.Committing? && NoCallFails(w, s, t)
    ensures Untroubled(w, a, t)
  {
    var j := JobOf(w, w.content);
    assert s.commit.pc != Commit.End(false);
    hide QuietCommit.QuietInv, Commit.Starts, Commit.Own, Commit.Act;
    if t.commit != s.commit {
      QuietCommit.QuietStepInv(j, a, s.commit, t.commit);
    }
    forall x <- t.screen ensures Expectable(w, t, x) {
      assert Expectable(w, s, x);
    }
  }

  lemma {:induction false} SmoothRunUntroubled(w: Write, run: seq<State>, i: nat)
    requires SmoothRun(w, run) && i < |run|
    ensures Untroubled(w, run[0].commit.fs, run[i])
  {
    if i == 0 {
      StartsUntroubled(w, run[0]);
    } else {
      SmoothRunUntroubled(w, run, i - 1);
      CleanTerminal.RunClean(w, run, i - 1);
      RunInv(w, run, i - 1);
      var s, t := run[i - 1], run[i];
      assert Smooth(w, s, t);
      hide Untroubled, SmoothRun, Run, CleanTerminal.CleanInv, ReceiverActs, NoCallFails, ClientActs, ClientSends;
      if ReceiverActs(w, s, t) && NoCallFails(w, s, t) {
        ReceiverStaysUntroubled(w, run[0].commit.fs, s, t);
      } else {
        ClientStaysUntroubled(w, run[0].commit.fs, s, t);
      }
    }
  }

  /** As long as no call fails and nobody interferes, the client never gives up: in every
      interleaving it is still trying, or it has returned. */
  lemma NeverGivesUpWithoutACause(w: Write, run: seq<State>, i: nat)
    requires SmoothRun(w, run) && i < |run|
    ensures Trying(run[i].client)
    ensures forall stage, d :: Printed(Error(stage, d)) !in run[i].screen
    ensures forall code :: Exit(code) in run[i].screen ==> code == 0
  {
    SmoothRunUntroubled(w, run, i);
    forall x <- run[i].screen ensures Expectable(w, run[i], x) {
    }
  }

  // ---------------------------------------------------------------------------
  // Such a run to the return.

  lemma Then(w: Write, run: seq<State>, t: State) returns (longer: seq<State>)
    requires SmoothRun(w, run) && run != [] && Smooth(w, Last(run), t)
    ensures SmoothRun(w, longer) && longer == run + [t]
  {
    longer := run + [t];
    assert Next(w, Last(run), t) by { SmoothIsNext(w, Last(run), t); }
    hide Next, ValidWrite, Smooth;
    forall i | 0 <= i < |longer| - 1
      ensures Next(w, longer[i], longer[i + 1]) && Smooth(w, longer[i], longer[i + 1])
    {
    }
  }

  lemma SmoothIsNext(w: Write, s: State, t: State)
    requires Smooth(w, s, t)
    ensures Next(w, s, t)
  {
    hide ReceiverActs, ClientActs, ClientSends, Sees, Foremost, NoCallFails;
    if m :| Sees(w, s, t, m) && Foremost(s.client, s.screen, m) {
      assert ClientSees(w, s, t);
    }
  }

  lemma ReceiverThen(w: Write, run: seq<State>, t: State) returns (longer: seq<State>)
    requires SmoothRun(w, run) && run != [] && ReceiverActs(w, Last(run), t) && NoCallFails(w, Last(run), t)
    ensures SmoothRun(w, longer) && longer == run + [t]
  {
    hide SmoothRun, ReceiverActs, NoCallFails;
    longer := Then(w, run, t);
  }

  lemma SeeingThen(w: Write, run: seq<State>, t: State, m: Mark) returns (longer: seq<State>)
    requires SmoothRun(w, run) && run != []
    requires Sees(w, Last(run), t, m) && Foremost(Last(run).client, Last(run).screen, m)
    ensures SmoothRun(w, longer) && longer == run + [t]
  {
    hide SmoothRun, Sees, Foremost;
    longer := Then(w, run, t);
  }

  lemma UntilReady(w: Write, c: Commit.State) returns (run: seq<State>)
    requires ValidWrite(w) && Commit.Starts(c)
    ensures SmoothRun(w, run) && run != [] && run[0].commit == c && Last(run) == CleanTerminal.AtReady(c)
  {
    var s := State(Preparing, Absent, false, 0, "", true, {}, "", [], c, true);
    assert SmoothRun(w, [s]);
    var t := s.(client := Starting, launched := true);
    assert ClientActs(w, s, t);
    hide SmoothRun, ValidWrite;
    run := Then(w, [s], t);
    t, s := t.(receiver := Booting), t;
    assert ReceiverActs(w, s, t);
    run := ReceiverThen(w, run, t);
    t, s := t.(receiver := Muted, echo := false), t;
    assert ReceiverActs(w, s, t);
    run := ReceiverThen(w, run, t);
    t, s := t.(receiver := Listening(""), screen := {Printed(Ready)}), t;
    assert {} + {Printed(Ready)} == {Printed(Ready)};
    assert ReceiverActs(w, s, t);
    run := ReceiverThen(w, run, t);
    assert Sees(w, t, CleanTerminal.AtReady(c), Printed(Ready));
    run := SeeingThen(w, run, CleanTerminal.AtReady(c), Printed(Ready));
  }

  /** The client has pasted `k` pieces, and the receiver has not read yet. */
  function Pasting(w: Write, c: Commit.State, k: nat): State
    requires k <= |w.pieces|
  {
    CleanTerminal.AtReady(c).(sent := k, queue := Flatten(w.pieces[..k]),
                              client := if k == |w.pieces| then Finishing else Sending)
  }

  lemma {:induction false} UntilPasted(w: Write, c: Commit.State, k: nat) returns (run: seq<State>)
    requires ValidWrite(w) && Commit.Starts(c) && k <= |w.pieces|
    ensures SmoothRun(w, run) && run != [] && run[0].commit == c && Last(run) == Pasting(w, c, k)
  {
    if k == 0 {
      run := UntilReady(w, c);
      assert w.pieces[..0] == [] && w.pieces != [];
    } else {
      run := UntilPasted(w, c, k - 1);
      assert w.pieces[..k] == w.pieces[..k - 1] + [w.pieces[k - 1]];
      FlattenAppend(w.pieces[..k - 1], w.pieces[k - 1]);
      assert ClientSends(w, Last(run), Pasting(w, c, k));
      hide SmoothRun, ValidWrite, Pasting, ClientSends;
      run := Then(w, run, Pasting(w, c, k));
    }
  }

  /** Read after read until everything has been consumed. */
  lemma {:induction false} UntilRead(w: Write, run: seq<State>) returns (longer: seq<State>)
    requires SmoothRun(w, run) && run != [] && Last(run).receiver.Listening? && Last(run).queue != ""
    requires Last(run).clean && DelimiterSent(w, Last(run)) && CleanTerminal.CleanInv(w, Last(run))
    ensures SmoothRun(w, longer) && run < longer
    ensures Last(longer) == Last(run).(receiver := Verifying(Base64.Encode(w.content)), queue := "", echo := true)
    decreases |Last(run).queue|
  {
    var s := Last(run);
    var t := OneRead(w, s);
    hide SmoothRun, ReceiverActs, Base64.Encode, CleanTerminal.CleanInv, DelimiterSent;
    longer := ReceiverThen(w, run, t);
    if t.receiver.Listening? {
      longer := UntilRead(w, longer);
    }
  }

  lemma OneRead(w: Write, s: State) returns (t: State)
    requires s.receiver.Listening? && s.queue != "" && s.clean && DelimiterSent(w, s) && CleanTerminal.CleanInv(w, s)
    ensures ReceiverActs(w, s, t) && NoCallFails(w, s, t)
    ensures if t.receiver.Listening? then
              && t == s.(receiver := t.receiver, queue := t.queue) && t.queue != "" && |t.queue| < |s.queue|
              && DelimiterSent(w, t) && CleanTerminal.CleanInv(w, t)
            else t == s.(receiver := Verifying(Base64.Encode(w.content)), queue := "", echo := true)
  {
    var n := Min(Transfer.READ_LIMIT, |s.queue|);
    var now, rest := s.receiver.consumed + s.queue[..n], s.queue[n..];
    AllThatIsPasted(w, s, now, rest, n);
    CleanValid(w, s);
    CleanTerminal.PartVerdict(w, now, rest);
    t := if rest == "" then s.(receiver := Verifying(Base64.Encode(w.content)), queue := "", echo := true)
         else s.(receiver := Listening(now), queue := rest);
    hide ValidWrite, Transfer.Judge, Base64.Encode, Delim, CleanTerminal.CleanInv, Expected;
    assert Takes(w, s, t, n);
    CleanTerminal.TakingKeepsClean(w, s, t, n);
    hide Takes;
    assert ReceiverActs(w, s, t);
  }

  lemma AllThatIsPasted(w: Write, s: State, now: string, rest: string, n: nat)
    requires CleanTerminal.CleanInv(w, s) && s.clean && s.receiver.Listening? && DelimiterSent(w, s) && n <= |s.queue|
    requires now == s.receiver.consumed + s.queue[..n] && rest == s.queue[n..]
    ensures now + rest == Base64.Encode(w.content) + Delim(w)
  {
    assert w.pieces[..s.sent] == w.pieces;
    Associates(s.receiver.consumed, s.queue[..n], rest);
    Rejoins(s.queue, n);
  }

  lemma UntilVerified(w: Write, run: seq<State>) returns (longer: seq<State>)
    requires SmoothRun(w, run) && run != [] && Last(run).receiver == Verifying(Base64.Encode(w.content))
    ensures SmoothRun(w, longer) && run < longer
    ensures Last(longer) == Last(run).(receiver := Committing, payload := w.content)
  {
    var s := Last(run);
    var t := s.(receiver := Committing, payload := w.content);
    hide SmoothRun, Transfer.DecodeBlocks, Base64.Decode, Base64.Encode;
    Base64.RoundTrip(w.content);
    Transfer.LaxerIff(Base64.Encode(w.content));
    assert ReceiverActs(w, s, t);
    hide ReceiverActs;
    longer := ReceiverThen(w, run, t);
  }

  /** The commit, step by step. */
  lemma {:induction false} UntilCommitted(w: Write, a: Fs, run: seq<State>) returns (longer: seq<State>)
    requires SmoothRun(w, run) && run != [] && Last(run).receiver.Committing? && Last(run).payload == w.content
    requires QuietCommit.OnItsWay(JobOf(w, w.content), a, Last(run).commit)
    ensures SmoothRun(w, longer) && run <= longer
    ensures Last(longer) == Last(run).(commit := Last(longer).commit) && Last(longer).commit.pc == Commit.End(true)
    decreases QuietCommit.Rank(Last(run).commit.pc), |w.content| - Last(run).commit.copied
  {
    var j, s := JobOf(w, w.content), Last(run);
    hide SmoothRun, QuietCommit.OnItsWay, ReceiverActs, NoCallFails;
    QuietCommit.CopiedFits(j, a, s.commit);
    if s.commit.pc.End? {
      longer := run;
    } else {
      var next := OneCallMore(w, a, run);
      longer := UntilCommitted(w, a, next);
    }
  }

  lemma OneCallMore(w: Write, a: Fs, run: seq<State>) returns (longer: seq<State>)
    requires SmoothRun(w, run) && run != [] && Last(run).receiver.Committing? && Last(run).payload == w.content
    requires QuietCommit.OnItsWay(JobOf(w, w.content), a, Last(run).commit) && !Last(run).commit.pc.End?
    ensures SmoothRun(w, longer) && run <= longer
    ensures Last(longer) == Last(run).(commit := Last(longer).commit)
    ensures QuietCommit.OnItsWay(JobOf(w, w.content), a, Last(longer).commit)
    ensures QuietCommit.Nearer(JobOf(w, w.content), Last(longer).commit, Last(run).commit)
    ensures Last(longer).commit.copied <= |w.content|
  {
    hide SmoothRun, QuietCommit.OnItsWay, QuietCommit.Nearer, JobOf, ReceiverActs, NoCallFails;
    var t := OneCall(w, a, Last(run));
    longer := ReceiverThen(w, run, t);
  }

  lemma OneCall(w: Write, a: Fs, s: State) returns (t: State)
    requires s.receiver.Committing? && s.payload == w.content && !s.commit.pc.End?
    requires QuietCommit.OnItsWay(JobOf(w, w.content), a, s.commit)
    ensures ReceiverActs(w, s, t) && NoCallFails(w, s, t) && t == s.(commit := t.commit)
    ensures QuietCommit.OnItsWay(JobOf(w, w.content), a, t.commit)
    ensures QuietCommit.Nearer(JobOf(w, w.content), t.commit, s.commit) && t.commit.copied <= |w.content|
  {
    var j := JobOf(w, w.content);
    hide QuietCommit.OnItsWay, Commit.Act;
    var c := QuietCommit.GoesOn(j, a, s.commit);
    QuietCommit.StaysOnItsWay(j, a, s.commit, c);
    QuietCommit.CopiedFits(j, a, c);
    t := s.(commit := c);
  }

  /** DONE, EXIT 0, and the client reads them. */
  lemma UntilReturned(w: Write, run: seq<State>) returns (longer: seq<State>, k: nat)
    requires SmoothRun(w, run) && run != [] && Last(run).client.Finishing? && Last(run).receiver.Committing?
    requires Last(run).commit.pc == Commit.End(true) && Last(run).payload == w.content
    requires Last(run).screen == {Printed(Ready)}
    ensures SmoothRun(w, longer) && run < longer && k < |longer|
    ensures longer[k].client.Exiting? && Last(longer).client.Returned?
    ensures Last(longer).screen == {Printed(Ready), Printed(Done(|w.content|, w.sha256(w.content))), Exit(0)}
  {
    hide SmoothRun;
    var done := Done(|w.content|, w.sha256(w.content));
    var s := Last(run);
    var t := s.(receiver := Reporting(done, 0));
    assert ReceiverActs(w, s, t);
    longer := ReceiverThen(w, run, t);
    t, s := t.(receiver := Exited(0), screen := {Printed(Ready), Printed(done)}), t;
    assert ReceiverActs(w, s, t);
    longer := ReceiverThen(w, longer, t);
    t, s := t.(screen := {Printed(Ready), Printed(done), Exit(0)}), t;
    assert ReceiverActs(w, s, t);
    longer := ReceiverThen(w, longer, t);
    t, s := t.(client := Exiting), t;
    assert Sees(w, s, t, Printed(done));
    longer := SeeingThen(w, longer, t, Printed(done));
    k := |longer| - 1;
    t, s := t.(client := Returned), t;
    assert Sees(w, s, t, Exit(0));
    longer := SeeingThen(w, longer, t, Exit(0));
  }

  ghost predicate Returns(w: Write, c: Commit.State, run: seq<State>, k: nat) {
    && SmoothRun(w, run) && run[0].commit == c && k < |run| && run[k].client.Exiting? && Last(run).client.Returned?
    && Printed(Done(|w.content|, w.sha256(w.content))) in Last(run).screen && Exit(0) in Last(run).screen
  }

  /** To every place where a file can be put, every write has a run in which no call fails and
      nobody interferes, and in which the client reads DONE and then EXIT 0 and returns. */
  lemma GoodWriteReturns(w: Write, c: Commit.State)
    requires ValidWrite(w) && Commit.Starts(c) && QuietCommit.Placeable(JobOf(w, w.content), c.fs)
    ensures exists run: seq<State>, k: nat :: Returns(w, c, run, k)
  {
    var j := JobOf(w, w.content);
    QuietCommit.QuietStart(j, c);
    assert QuietCommit.OnItsWay(j, c.fs, c);
    hide QuietCommit.OnItsWay;
    var run := UntilPasted(w, c, |w.pieces|);
    CleanTerminal.RunClean(w, run, |run| - 1);
    assert Last(run).queue != "" by { SomethingPasted(w); }
    assert DelimiterSent(w, Last(run));
    hide SmoothRun, ValidWrite, CleanTerminal.CleanInv;
    run := UntilRead(w, run);
    run := UntilVerified(w, run);
    run := UntilCommitted(w, c.fs, run);
    var k: nat;
    run, k := UntilReturned(w, run);
    assert Returns(w, c, run, k);
  }

  lemma SomethingPasted(w: Write)
    requires ValidWrite(w)
    ensures Flatten(w.pieces[..|w.pieces|]) != ""
  {
    assert w.pieces[..|w.pieces|] == w.pieces;
    CleanTerminal.DelimShape(w);
  }
}
