/** Where the payload's characters go: none of them reaches the shell or is echoed. */
module CleanTerminal {
  import opened Common
  import Base64
  import Transfer
  import opened FileTree
  import Commit
  import opened Host
  import opened WriteProtocol

  function Pasted(w: Write, s: State): string
    requires s.sent <= |w.pieces|
  {
    Flatten(w.pieces[..s.sent])
  }

  /** Past the wait for READY. */
  predicate Told(c: Client) {
    c.Sending? || c.Finishing? || c.Exiting?
  }

  predicate SettingUp(r: Receiver) {
    r.Absent? || r.Booting? || r.Muted?
  }

  ghost predicate CleanInv(w: Write, s: State) {
    && ValidWrite(w) && s.sent <= |w.pieces|
    && (Told(s.client) || s.sent > 0 ==> Printed(Ready) in s.screen)
    && (Printed(Ready) in s.screen ==> !SettingUp(s.receiver))
    && (s.clean ==>
          && s.shell == ""
          && (SettingUp(s.receiver) ==> s.queue == "")
          && (s.receiver.Muted? ==> !s.echo)
          && (s.receiver.Listening? ==> !s.echo && s.receiver.consumed + s.queue == Pasted(w, s))
          && (!Unfed(s.receiver) ==> s.sent == |w.pieces| && s.queue == ""))
  }

  lemma CleanStart(w: Write, s: State)
    requires ValidWrite(w) && Starts(s)
    ensures CleanInv(w, s)
  {
  }

  lemma PasteExtends(w: Write, s: State)
    requires s.sent < |w.pieces|
    ensures Flatten(w.pieces[..s.sent + 1]) == Pasted(w, s) + w.pieces[s.sent]
  {
    assert w.pieces[..s.sent + 1] == w.pieces[..s.sent] + [w.pieces[s.sent]];
    FlattenAppend(w.pieces[..s.sent], w.pieces[s.sent]);
  }

  /** The verdict on a part of what the client pastes in all. */
  lemma PartVerdict(w: Write, now: string, more: string)
    requires ValidWrite(w) && now + more == Base64.Encode(w.content) + Delim(w)
    ensures Transfer.Judge(now, Delim(w), Expected(w)) ==
            if more == "" then Some(Transfer.Accepted(Base64.Encode(w.content))) else None
  {
    hide Delim, OccursAt, FindFrom, Contains, Base64.Encode;
    var encoded, d := Base64.Encode(w.content), Delim(w);
    assert d != "" && d[0] == '.' by { DelimShape(w); }
    Transfer.DelimiterAfter(encoded, d, w.content);
    if more == "" {
      assert now == encoded + d;
      assert (encoded + d)[..|encoded|] == encoded;
    } else {
      assert now <= now + more;
      assert now < encoded + d && now <= encoded + d;
    }
  }

  lemma DelimShape(w: Write)
    ensures Delim(w) != "" && Delim(w)[0] == '.'
  {
  }

  /** On a clean terminal the receiver's verdict after a read is to go on, until it has
      everything, and then to accept. */
  lemma CleanVerdict(w: Write, s: State, n: nat)
    requires CleanInv(w, s) && s.clean && s.receiver.Listening? && 0 < n <= |s.queue|
    ensures var now := s.receiver.consumed + s.queue[..n];
      match Transfer.Judge(now, Delim(w), Expected(w))
      case None => true
      case Some(Accepted(_)) => s.sent == |w.pieces| && s.queue[n..] == ""
      case Some(Rejected(_)) => false
  {
    hide Transfer.Judge, Delim, Base64.Encode, Expected;
    var now, rest := s.receiver.consumed + s.queue[..n], s.queue[n..];
    FlattenPrefix(w.pieces, s.sent);
    var unsent := Flatten(w.pieces[s.sent..]);
    assert now + rest == Pasted(w, s);
    assert now + (rest + unsent) == Base64.Encode(w.content) + Delim(w);
    PartVerdict(w, now, rest + unsent);
    if rest + unsent == "" {
      LastPieceSent(w, s);
    }
  }

  lemma LastPieceSent(w: Write, s: State)
    requires ValidWrite(w) && s.sent <= |w.pieces| && Flatten(w.pieces[s.sent..]) == ""
    ensures s.sent == |w.pieces|
  {
    if s.sent < |w.pieces| {
      var tail := w.pieces[s.sent..];
      assert tail[|tail| - 1] == Delim(w);
      assert tail == tail[..|tail| - 1] + [Delim(w)];
      FlattenAppend(tail[..|tail| - 1], Delim(w));
    }
  }

  lemma SendingKeepsClean(w: Write, s: State, t: State)
    requires CleanInv(w, s) && s.client.Sending? && s.sent < |w.pieces|
    requires t == s.(client := t.client, sent := s.sent + 1, queue := s.queue + w.pieces[s.sent])
    ensures CleanInv(w, t)
  {
    hide ValidWrite;
    PasteExtends(w, s);
    if s.receiver.Listening? {
      assert s.receiver.consumed + (s.queue + w.pieces[s.sent]) == s.receiver.consumed + s.queue + w.pieces[s.sent];
    }
  }

  lemma WaitingKeepsClean(w: Write, s: State, t: State)
    requires CleanInv(w, s) && t == s.(client := t.client, launched := t.launched)
    requires Told(t.client) ==> Told(s.client) || Printed(Ready) in s.screen
    ensures CleanInv(w, t)
  {
    hide ValidWrite;
    assert Pasted(w, t) == Pasted(w, s);
  }

  predicate Sent(w: Write, s: State, t: State) {
    && s.client.Sending? && s.sent < |w.pieces|
    && t == s.(client := t.client, sent := s.sent + 1, queue := s.queue + w.pieces[s.sent])
  }

  predicate Waited(s: State, t: State) {
    t == s.(client := t.client, launched := t.launched) && !Told(t.client)
  }

  lemma UnseeingClient(w: Write, s: State, t: State)
    requires ClientStep(w, s, t) && !ClientSees(w, s, t)
    ensures Sent(w, s, t) || Waited(s, t)
  {
    hide ClientSees, Reads;
    if ClientRaises(w, s, t) || ClientSends(w, s, t) {
      hide ClientActs;
      assert t.sent == s.sent ==> Waited(s, t);
      assert t.sent != s.sent ==> Sent(w, s, t);
    } else {
      hide ClientRaises, ClientSends;
      assert Waited(s, t);
    }
  }

  lemma ClientKeepsClean(w: Write, s: State, t: State)
    requires CleanInv(w, s) && ClientStep(w, s, t)
    ensures CleanInv(w, t)
  {
    hide ClientStep, CleanInv, ClientSees;
    if ClientSees(w, s, t) {
      ToldOnlyByReady(w, s, t);
      WaitingKeepsClean(w, s, t);
    } else {
      UnseeingClient(w, s, t);
      if Sent(w, s, t) { SendingKeepsClean(w, s, t); } else { WaitingKeepsClean(w, s, t); }
    }
  }

  lemma ToldOnlyByReady(w: Write, s: State, t: State)
    requires ClientSees(w, s, t)
    ensures t == s.(client := t.client)
    ensures Told(t.client) ==> Told(s.client) || Printed(Ready) in s.screen
  {
    var m :| Sees(w, s, t, m);
  }

  lemma TakingKeepsClean(w: Write, s: State, t: State, n: nat)
    requires CleanInv(w, s) && s.receiver.Listening? && 0 < n <= |s.queue| && Takes(w, s, t, n)
    ensures CleanInv(w, t)
  {
    hide ValidWrite, Transfer.Judge, Delim, Expected;
    if s.clean {
      CleanVerdict(w, s, n);
      assert s.receiver.consumed + s.queue[..n] + s.queue[n..] == s.receiver.consumed + s.queue;
    }
  }

  lemma ReceiverKeepsClean(w: Write, s: State, t: State)
    requires CleanInv(w, s) && ReceiverActs(w, s, t)
    ensures CleanInv(w, t)
  {
    hide CleanInv;
    if s.receiver.Listening? {
      hide Takes;
      var n: nat :| 0 < n <= |s.queue| && Takes(w, s, t, n);
      TakingKeepsClean(w, s, t, n);
    } else if s.receiver.Muted? {
      hide ReceiverActs;
      ListeningStartsClean(w, s, t);
    } else {
      hide ReceiverActs;
      ElsewhereKeepsClean(w, s, t);
    }
  }

  lemma ElsewhereKeepsClean(w: Write, s: State, t: State)
    requires CleanInv(w, s) && ReceiverActs(w, s, t) && !s.receiver.Listening? && !s.receiver.Muted?
    ensures CleanInv(w, t)
  {
    hide ReceiverActs, ValidWrite;
    ElsewhereShape(w, s, t);
  }

  lemma ElsewhereShape(w: Write, s: State, t: State)
    requires ReceiverActs(w, s, t) && !s.receiver.Listening? && !s.receiver.Muted?
    ensures Elsewhere(s, t)
  {
    hide Takes, Delim, Commit.Own, Transfer.DecodesTo, Commit.ReportedState;
  }

  predicate Elsewhere(s: State, t: State) {
    && t == s.(receiver := t.receiver, echo := t.echo, screen := t.screen, payload := t.payload, commit := t.commit)
    && s.screen <= t.screen && (SettingUp(s.receiver) ==> t.screen == s.screen)
    && !t.receiver.Listening? && (t.receiver.Muted? ==> !t.echo)
    && (SettingUp(s.receiver) <==> SettingUp(t.receiver))
    && (Printed(Ready) in t.screen ==> Printed(Ready) in s.screen || !SettingUp(t.receiver))
  }

  lemma ListeningStartsClean(w: Write, s: State, t: State)
    requires CleanInv(w, s) && ReceiverActs(w, s, t) && s.receiver.Muted?
    ensures CleanInv(w, t)
  {
    hide ValidWrite, Flatten;
    if s.clean {
      assert w.pieces[..s.sent] == [];
      NothingPasted();
    }
  }

  lemma NothingPasted()
    ensures Flatten<char>([]) == "" == "" + ""
  {
  }

  lemma OthersKeepClean(w: Write, s: State, t: State)
    requires CleanInv(w, s)
    requires ReceiverRaises(s, t) || ReceiverDies(s, t) || ShellReads(s, t) || Noise(w, s, t) || OthersAct(s, t)
    ensures CleanInv(w, t)
  {
    hide ValidWrite, Delim, Contains, Foreign, Commit.Others;
  }

  lemma {:induction false} RunClean(w: Write, run: seq<State>, i: nat)
    requires Run(w, run) && i < |run|
    ensures CleanInv(w, run[i])
  {
    hide CleanInv, ClientStep, ReceiverActs, ReceiverRaises, ReceiverDies, ShellReads, Noise, OthersAct;
    if i == 0 {
      CleanStart(w, run[0]);
    } else {
      RunClean(w, run, i - 1);
      var s, t := run[i - 1], run[i];
      assert Next(w, s, t);
      if ClientStep(w, s, t) { ClientKeepsClean(w, s, t); }
      else if ReceiverActs(w, s, t) { ReceiverKeepsClean(w, s, t); }
      else { OthersKeepClean(w, s, t); }
    }
  }

  /** Over a terminal that loses and adds nothing, with a receiver that nobody interrupts, in
      every interleaving: the shell has read nothing; whatever is on its way is on its way to
      a listening receiver with echo off; and once the receiver stops listening, the client
      has sent everything and all of it has been consumed. */
  lemma NoPayloadReachesTheShell(w: Write, run: seq<State>, i: nat)
    requires Run(w, run) && i < |run| && run[i].clean
    ensures run[i].shell == ""
    ensures run[i].queue != "" ==> run[i].receiver.Listening? && !run[i].echo
    ensures !Unfed(run[i].receiver) ==> DelimiterSent(w, run[i]) && run[i].queue == ""
  {
    RunClean(w, run, i);
  }

  /** Every piece is pasted with echo off. */
  lemma PastedUnechoed(w: Write, run: seq<State>, i: nat)
    requires Run(w, run) && i + 1 < |run| && run[i].clean && ClientSends(w, run[i], run[i + 1])
    ensures run[i].receiver.Listening? && !run[i].echo
  {
    hide ValidWrite;
    RunClean(w, run, i);
  }

  // ---------------------------------------------------------------------------
  // The assumption is needed, each part of it: a receiver that raises, that is killed, or that
  // gives up over noise while the client is still sending hands the payload to the shell.

  lemma Then(w: Write, run: seq<State>, t: State) returns (longer: seq<State>)
    requires Run(w, run) && Next(w, Last(run), t)
    ensures Run(w, longer) && longer == run + [t]
  {
    longer := run + [t];
    hide Next, ValidWrite;
    forall i | 0 <= i < |longer| - 1 ensures Next(w, longer[i], longer[i + 1]) {
    }
  }

  /** The client has just seen READY. */
  function AtReady(c: Commit.State): State {
    State(Sending, Listening(""), true, 0, "", false, {Printed(Ready)}, "", [], c, true)
  }

  lemma UntilReady(w: Write, c: Commit.State) returns (run: seq<State>)
    requires ValidWrite(w) && Commit.Starts(c)
    ensures Run(w, run) && Last(run) == AtReady(c)
  {
    var s := State(Preparing, Absent, false, 0, "", true, {}, "", [], c, true);
    assert Run(w, [s]);
    hide Run, ValidWrite, Noise, OthersAct;
    var t := s.(client := Starting, launched := true);
    assert ClientActs(w, s, t);
    run := Then(w, [s], t);
    t, s := t.(receiver := Booting), t;
    assert ReceiverActs(w, s, t);
    run := Then(w, run, t);
    t, s := t.(receiver := Muted, echo := false), t;
    assert ReceiverActs(w, s, t);
    run := Then(w, run, t);
    t, s := t.(receiver := Listening(""), screen := {Printed(Ready)}), t;
    assert {} + {Printed(Ready)} == {Printed(Ready)};
    assert ReceiverActs(w, s, t);
    run := Then(w, run, t);
    assert Sees(w, t, AtReady(c), Printed(Ready));
    run := Then(w, run, AtReady(c));
  }

  /** The receiver has gone, and the client does not know it yet. */
  predicate Deserted(w: Write, s: State) {
    s.client.Sending? && s.sent == 0 && w.pieces != [] && s.receiver.Exited? && s.queue == "" && s.shell == ""
  }

  lemma NextPieceGoesToTheShell(w: Write, run: seq<State>) returns (longer: seq<State>)
    requires Run(w, run) && Deserted(w, Last(run)) && w.pieces[0] != ""
    ensures Run(w, longer) && run < longer && Last(longer).shell == w.pieces[0]
  {
    var s := Last(run);
    hide Run;
    var t := s.(sent := 1, queue := w.pieces[0], client := if |w.pieces| == 1 then Finishing else Sending);
    assert "" + w.pieces[0] == w.pieces[0];
    assert ClientSends(w, s, t);
    longer := Then(w, run, t);
    var n := |t.queue|;
    assert "" + t.queue[..n] == t.queue && t.queue[n..] == "";
    var u := t.(shell := t.queue, queue := "");
    assert ShellReads(t, u);
    longer := Then(w, longer, u);
  }

  /** A payload in the shell, in a run that was clean until step `k`. */
  ghost predicate LeaksAfter(w: Write, run: seq<State>, k: nat) {
    Run(w, run) && k + 1 < |run| && run[k].clean && Last(run).shell == w.pieces[0]
  }

  lemma Reported(w: Write, run: seq<State>, code: nat) returns (longer: seq<State>)
    requires Run(w, run) && Last(run).receiver.Reporting? && Last(run).receiver.code == code
    ensures Run(w, longer) && run < longer
    ensures Last(longer) == Last(run).(receiver := Exited(code), screen := Last(longer).screen)
  {
    var s := Last(run);
    hide Run;
    var t := s.(receiver := Exited(code), screen := s.screen + {Printed(s.receiver.event)});
    assert ReceiverActs(w, s, t);
    longer := Then(w, run, t);
  }

  lemma InterruptedReceiverLeaksPayload(w: Write, c: Commit.State)
    requires ValidWrite(w) && Commit.Starts(c) && w.pieces[0] != ""
    ensures exists run: seq<State>, k: nat :: LeaksAfter(w, run, k) && ReceiverRaises(run[k], run[k + 1])
  {
    var run := UntilReady(w, c);
    hide Run, ValidWrite;
    var k, s := |run| - 1, AtReady(c);
    var t := s.(receiver := Reporting(Error(AtTransfer, Unchanged), 1), echo := true, clean := false);
    assert ReceiverRaises(s, t);
    run := Then(w, run, t);
    run := Reported(w, run, 1);
    run := NextPieceGoesToTheShell(w, run);
    assert LeaksAfter(w, run, k) && ReceiverRaises(run[k], run[k + 1]);
  }

  lemma KilledReceiverLeaksPayload(w: Write, c: Commit.State)
    requires ValidWrite(w) && Commit.Starts(c) && w.pieces[0] != ""
    ensures exists run: seq<State>, k: nat :: LeaksAfter(w, run, k) && ReceiverDies(run[k], run[k + 1])
  {
    var run := UntilReady(w, c);
    hide Run, ValidWrite;
    var k, s := |run| - 1, AtReady(c);
    var t := s.(receiver := Exited(137), clean := false);
    assert ReceiverDies(s, t);
    run := Then(w, run, t);
    run := NextPieceGoesToTheShell(w, run);
    assert LeaksAfter(w, run, k) && ReceiverDies(run[k], run[k + 1]);
  }

  /** More keys than the payload and one read together. */
  function Keys(w: Write): string {
    seq(Expected(w) + Transfer.READ_LIMIT + 1, i => 'a')
  }

  /** What the receiver says to the keys it has read so far. */
  lemma KeysAreTooLong(w: Write, n: nat)
    requires n <= |Keys(w)|
    ensures !Contains(Keys(w)[..n], Delim(w))
    ensures Transfer.Judge(Keys(w)[..n], Delim(w), Expected(w)) ==
            if n < |Keys(w)| then None else Some(Transfer.Rejected(Transfer.TooLong))
  {
    DelimShape(w);
    forall j ensures !OccursAt(Keys(w)[..n], Delim(w), j) {
      assert 0 <= j < n ==> Keys(w)[j] != Delim(w)[0];
    }
  }

  /** It has read `n` of them, and the others wait. */
  predicate Swamped(w: Write, s: State, n: nat) {
    n < |Keys(w)| && s.receiver == Listening(Keys(w)[..n]) && s.queue == Keys(w)[n..]
  }

  /** One read more: it goes on, or gives up. */
  lemma SwampedReads(w: Write, s: State, n: nat) returns (t: State, m: nat)
    requires Swamped(w, s, n)
    ensures ReceiverActs(w, s, t) && n < m <= |Keys(w)|
    ensures if m < |Keys(w)| then Swamped(w, t, m) && t == s.(receiver := t.receiver, queue := t.queue)
            else t == s.(receiver := Reporting(Error(AtTransfer, Unchanged), 1), queue := "", echo := true)
  {
    var read := Min(Transfer.READ_LIMIT, |s.queue|);
    m := n + read;
    KeysAreTooLong(w, m);
    var keys := Keys(w);
    hide Transfer.Judge, Delim, Keys, Expected;
    assert keys[..n] + keys[n..][..read] == keys[..m] && keys[n..][read..] == keys[m..];
    if m < |keys| {
      t := s.(receiver := Listening(keys[..m]), queue := keys[m..]);
    } else {
      assert keys[m..] == "";
      t := s.(receiver := Reporting(Error(AtTransfer, Unchanged), 1), queue := "", echo := true);
    }
    assert Takes(w, s, t, read);
  }

  /** Read after read, until it gives up. */
  lemma {:induction false} SwampedGivesUp(w: Write, run: seq<State>, n: nat) returns (longer: seq<State>)
    requires Run(w, run) && run != [] && Swamped(w, Last(run), n)
    ensures Run(w, longer) && run < longer
    ensures Last(longer) ==
            Last(run).(receiver := Reporting(Error(AtTransfer, Unchanged), 1), queue := "", echo := true)
    decreases |Keys(w)| - n
  {
    var s := Last(run);
    var t, m := SwampedReads(w, s, n);
    hide Run, Swamped, ReceiverActs, Keys;
    longer := Then(w, run, t);
    if m < |Keys(w)| {
      longer := SwampedGivesUp(w, longer, m);
    }
  }

  lemma NoiseLeaksPayload(w: Write, c: Commit.State)
    requires ValidWrite(w) && Commit.Starts(c) && w.pieces[0] != ""
    ensures exists run: seq<State>, k: nat :: LeaksAfter(w, run, k) && Noise(w, run[k], run[k + 1])
  {
    var run := UntilReady(w, c);
    var k, s := |run| - 1, AtReady(c);
    var t := s.(queue := Keys(w), clean := false);
    assert Keys(w)[..0] == "" && Keys(w)[0..] == Keys(w)[..|Keys(w)|] == Keys(w);
    assert Noise(w, s, t) by {
      KeysAreTooLong(w, |Keys(w)|);
      NothingBefore(t.queue);
      hide Delim, Keys;
    }
    hide Run, ValidWrite, Noise, ReceiverActs, Keys;
    run := Then(w, run, t);
    run := SwampedGivesUp(w, run, 0);
    run := Reported(w, run, 1);
    run := NextPieceGoesToTheShell(w, run);
    assert LeaksAfter(w, run, k) && Noise(w, run[k], run[k + 1]);
  }
}
