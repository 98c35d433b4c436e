/** The client and the receiver of one write as two parties that interleave freely, joined
    by a terminal and a screen, over a file system that others change meanwhile. */
module WriteProtocol {
  import opened Common
  import Base64
  import Transfer
  import opened FileTree
  import Commit
  import opened Host

  /** One call of `write_remote_file`. */
  datatype Write = Write(path: Path, content: seq<byte>, umask: Mode, token: string,
                         pieces: seq<string>, sha256: seq<byte> -> string)

  /** `Waiting` states follow the source's `stage`; `Recovering` is the exception handler,
      `Probing` its look at the destination once the pane has recovered. */
  datatype Client =
    | Preparing
    | Starting
    | Sending
    | Finishing
    | Exiting
    | Recovering(stage: Stage)
    | Probing(stage: Stage)
    | Settling(destination: DestinationState)
    | Returned
    | Failed(destination: DestinationState)
    | Cancelled

  datatype Receiver =
    | Absent
    | Booting
    | Muted
    | Listening(consumed: string)
    | Verifying(text: string)
    | Committing
    | Reporting(event: Event, code: int)
    | Exited(code: int)

  datatype Mark = Printed(event: Event) | Exit(code: int)

  /** `sent` counts the pieces that reached the terminal.  `clean` records that so far no
      call of the receiver raised before it had the payload, that nobody killed it, and that
      the terminal carried nothing but what the client pasted. */
  datatype State = State(
    client: Client, receiver: Receiver, launched: bool, sent: nat,
    queue: string, echo: bool, screen: set<Mark>, shell: string,
    payload: seq<byte>, commit: Commit.State, clean: bool)

  function Delim(w: Write): string {
    Transfer.Delimiter(w.token)
  }

  function JobOf(w: Write, payload: seq<byte>): Commit.Job {
    Commit.Job(w.path, payload, w.umask)
  }

  function Expected(w: Write): nat {
    4 * ((|w.content| + 2) / 3)
  }

  /** The pieces are what the client's send loop pastes; the digest tells the content from
      every other byte string of the same length. */
  ghost predicate ValidWrite(w: Write) {
    && w.pieces != [] && w.pieces[|w.pieces| - 1] == Delim(w)
    && Flatten(w.pieces) == Base64.Encode(w.content) + Delim(w)
    && |Delim(w)| - 1 <= Transfer.READ_LIMIT
    && (forall data :: |data| == |w.content| && w.sha256(data) == w.sha256(w.content) ==> data == w.content)
  }

  predicate Starts(s: State) {
    && s == State(Preparing, Absent, false, 0, "", true, {}, "", [], s.commit, true)
    && Commit.Starts(s.commit)
  }

  predicate DelimiterSent(w: Write, s: State) {
    s.sent == |w.pieces|
  }

  /** What the terminal has delivered to the receiver so far and still holds for it. */
  function Stream(s: State): string {
    if s.receiver.Listening? then s.receiver.consumed + s.queue else s.queue
  }

  // ---------------------------------------------------------------------------
  // The client.

  function ReportAfter(stage: Stage): DestinationState {
    if stage == AtPrepare || stage == AtStartup then Unchanged else Unknown
  }

  function StageOf(c: Client): Stage {
    match c
    case Preparing => AtPrepare
    case Starting => AtStartup
    case Sending => AtTransfer
    case _ => AtFinish
  }

  predicate InTry(c: Client) {
    c.Preparing? || c.Starting? || c.Sending? || c.Finishing? || c.Exiting?
  }

  /** Something raised: a failed paste or capture, a timeout, an unexpected marker.  A paste
      that raised may still have reached the terminal. */
  ghost predicate ClientRaises(w: Write, s: State, t: State) {
    && InTry(s.client)
    && t == s.(client := Recovering(StageOf(s.client)), launched := t.launched, sent := t.sent, queue := t.queue)
    && (t.launched == s.launched || s.client.Preparing?)
    && (|| (t.sent == s.sent && t.queue == s.queue)
        || (s.client.Sending? && s.sent < |w.pieces| &&
            t.sent == s.sent + 1 && t.queue == s.queue + w.pieces[s.sent]))
  }

  /** The wait for READY, ERROR or EXIT. */
  predicate SeesAtStart(s: State, t: State, m: Mark) {
    match m
    case Printed(Ready) => t == s.(client := Sending)
    case Printed(Error(_, d)) => t == s.(client := Settling(d))
    case Printed(Done(_, _)) => false
    case Exit(_) => t == s.(client := Recovering(AtStartup))
  }

  /** The wait for DONE, ERROR or EXIT. */
  predicate SeesAtFinish(w: Write, s: State, t: State, m: Mark) {
    match m
    case Printed(Done(n, sha)) =>
      t == s.(client := if n == |w.content| && sha == w.sha256(w.content) then Exiting else Recovering(AtFinish))
    case Printed(Error(_, d)) => t == s.(client := Settling(d))
    case Printed(Ready) => false
    case Exit(_) => t == s.(client := Recovering(AtFinish))
  }

  /** The wait for EXIT after DONE. */
  predicate SeesAtExit(s: State, t: State, m: Mark) {
    m.Exit? && t == s.(client := if m.code == 0 then Returned else Recovering(AtFinish))
  }

  predicate Sees(w: Write, s: State, t: State, m: Mark) {
    && m in s.screen
    && (|| (s.client.Starting? && SeesAtStart(s, t, m))
        || (s.client.Finishing? && SeesAtFinish(w, s, t, m))
        || (s.client.Exiting? && SeesAtExit(s, t, m)))
  }

  ghost predicate ClientSees(w: Write, s: State, t: State) {
    exists m :: Sees(w, s, t, m)
  }

  ghost predicate ClientSends(w: Write, s: State, t: State) {
    && s.client.Sending? && s.sent < |w.pieces|
    && t == s.(sent := s.sent + 1, queue := s.queue + w.pieces[s.sent],
               client := if s.sent + 1 == |w.pieces| then Finishing else Sending)
  }

  /** The destination holds the content, as a reader of the path sees it. */
  predicate Reads(w: Write, s: State) {
    match Stat(s.commit.fs, w.path)
    case Found(File(data, _)) => |data| == |w.content| && w.sha256(data) == w.sha256(w.content)
    case _ => false
  }

  ghost predicate ClientActs(w: Write, s: State, t: State) {
    match s.client
    case Preparing =>
      t == s.(client := Starting, launched := true)
    case Settling(d) =>
      t == s.(client := Failed(d))
    case Recovering(stage) =>
      t == s.(client := Probing(stage)) || t == s.(client := Failed(ReportAfter(stage)))
    case Probing(stage) =>
      || (Reads(w, s) && t == s.(client := Returned))
      || t == s.(client := Failed(ReportAfter(stage)))
    case _ => false
  }

  ghost predicate ClientStep(w: Write, s: State, t: State) {
    || ClientRaises(w, s, t)
    || ClientSees(w, s, t)
    || ClientSends(w, s, t)
    || ClientActs(w, s, t)
    || (!s.client.Returned? && !s.client.Failed? && t == s.(client := Cancelled))
  }

  // ---------------------------------------------------------------------------
  // The receiver.

  /** Restoring the terminal: the flush may or may not discard what is still queued. */
  predicate Restored(s: State, t: State) {
    t.echo && (t.queue == "" || t.queue == s.queue)
  }

  /** One read of the terminal, of `n` characters. */
  ghost predicate Takes(w: Write, s: State, t: State, n: nat)
    requires s.receiver.Listening? && n <= |s.queue|
  {
    var now, rest := s.receiver.consumed + s.queue[..n], s.queue[n..];
    match Transfer.Judge(now, Delim(w), Expected(w))
    case None => t == s.(receiver := Listening(now), queue := rest)
    case Some(Accepted(text)) =>
      && (t.queue == "" || t.queue == rest)
      && t == s.(receiver := Verifying(text), queue := t.queue, echo := true)
    case Some(Rejected(_)) =>
      && (t.queue == "" || t.queue == rest)
      && t == s.(receiver := Reporting(Error(AtTransfer, Unchanged), 1), queue := t.queue, echo := true)
  }

  ghost predicate ReceiverActs(w: Write, s: State, t: State) {
    match s.receiver
    case Absent =>
      s.launched && t == s.(receiver := Booting)
    case Booting =>
      t == s.(receiver := Muted, echo := false)
    case Muted =>
      t == s.(receiver := Listening(""), screen := s.screen + {Printed(Ready)})
    case Listening(_) =>
      exists n: nat :: 0 < n <= |s.queue| && n <= Transfer.READ_LIMIT && Takes(w, s, t, n)
    case Verifying(text) =>
      || t == s.(receiver := Reporting(Error(AtVerify, Unchanged), 1))
      || (&& Transfer.DecodesTo(text, t.payload)
          && |t.payload| == |w.content| && w.sha256(t.payload) == w.sha256(w.content)
          && t == s.(receiver := Committing, payload := t.payload))
    case Committing =>
      || (Commit.Own(JobOf(w, s.payload), s.commit, t.commit) && t == s.(commit := t.commit))
      || (s.commit.pc == Commit.End(true) &&
          t == s.(receiver := Reporting(Done(|s.payload|, w.sha256(s.payload)), 0)))
      || (s.commit.pc == Commit.End(false) &&
          t == s.(receiver := Reporting(Error(AtCommit, Commit.ReportedState(s.commit)), 1)))
    case Reporting(event, code) =>
      t == s.(receiver := Exited(code), screen := s.screen + {Printed(event)})
    case Exited(code) =>
      t == s.(screen := s.screen + {Exit(code)})
  }

  /** A call raises, or the user interrupts, while the receiver sets up or listens. */
  ghost predicate ReceiverRaises(s: State, t: State) {
    && (s.receiver.Booting? || s.receiver.Muted? || s.receiver.Listening?)
    && Restored(s, t)
    && t == s.(receiver := Reporting(Error(AtTransfer, Unchanged), 1), queue := t.queue, echo := t.echo, clean := false)
  }

  /** The process disappears without a word. */
  ghost predicate ReceiverDies(s: State, t: State) {
    && !s.receiver.Absent? && !s.receiver.Exited?
    && t.receiver.Exited? && t.receiver.code != 0 && t == s.(receiver := t.receiver, clean := false)
  }

  // ---------------------------------------------------------------------------
  // Everything else.

  /** The shell reads the terminal whenever the receiver does not run. */
  ghost predicate ShellReads(s: State, t: State) {
    && (s.receiver.Absent? || s.receiver.Exited?)
    && exists n :: 0 < n <= |s.queue| && t == s.(shell := s.shell + s.queue[..n], queue := s.queue[n..])
  }

  /** Keys typed by someone else, lost or garbled characters: anything, except that the
      delimiter with its random token does not appear before it is sent. */
  ghost predicate Noise(w: Write, s: State, t: State) {
    && t == s.(queue := t.queue, clean := false)
    && (!DelimiterSent(w, s) ==> !Contains(Stream(t), Delim(w)))
  }

  ghost predicate OthersAct(s: State, t: State) {
    Commit.Others(s.commit, t.commit) && t == s.(commit := t.commit)
  }

  ghost predicate Next(w: Write, s: State, t: State) {
    || ClientStep(w, s, t)
    || ReceiverActs(w, s, t)
    || ReceiverRaises(s, t)
    || ReceiverDies(s, t)
    || ShellReads(s, t)
    || Noise(w, s, t)
    || OthersAct(s, t)
  }

  ghost predicate Run(w: Write, run: seq<State>) {
    && ValidWrite(w) && run != [] && Starts(run[0])
    && forall i :: 0 <= i < |run| - 1 ==> Next(w, run[i], run[i + 1])
  }

  // ---------------------------------------------------------------------------
  // What every step keeps.

  predicate Early(stage: Stage) {
    stage == AtPrepare || stage == AtStartup
  }

  /** The receiver has not got the payload. */
  predicate Unfed(r: Receiver) {
    r.Absent? || r.Booting? || r.Muted? || r.Listening?
  }

  ghost predicate UnchangedMark(s: State) {
    exists stage :: Printed(Error(stage, Unchanged)) in s.screen
  }

  ghost predicate DoneMark(s: State) {
    exists n, sha :: Printed(Done(n, sha)) in s.screen
  }

  predicate GaveUpUnchanged(c: Client) {
    (c.Failed? || c.Settling?) && c.destination == Unchanged
  }

  ghost predicate ClientInv(w: Write, s: State) {
    && s.sent <= |w.pieces|
    && (s.client.Preparing? || s.client.Starting? ==> s.sent == 0)
    && ((s.client.Recovering? || s.client.Probing?) && Early(s.client.stage) ==> s.sent == 0)
    && (GaveUpUnchanged(s.client) ==> s.sent == 0 || UnchangedMark(s))
    && (s.client.Exiting? ==> DoneMark(s))
  }

  ghost predicate ReceiverInv(w: Write, s: State) {
    && (Unfed(s.receiver) || s.receiver.Verifying? ==> Commit.Starts(s.commit))
    && (!DelimiterSent(w, s) ==>
          && Commit.Starts(s.commit)
          && (Unfed(s.receiver) || s.receiver.Reporting? || s.receiver.Exited?)
          && !Contains(Stream(s), Delim(w)))
    && (!Commit.Starts(s.commit) || s.receiver.Committing? ==> s.payload == w.content)
    && (s.receiver.Reporting? && s.receiver.event.Error? && s.receiver.event.destination == Unchanged ==>
          !s.commit.published)
    && (UnchangedMark(s) ==> !s.commit.published && s.receiver.Exited?)
    && (s.receiver.Reporting? && s.receiver.event.Done? ==> s.commit.published)
    && (DoneMark(s) ==> s.commit.published && s.receiver.Exited?)
    && !(s.receiver.Reporting? && s.receiver.event.Ready?)
  }

  ghost predicate Inv(w: Write, s: State) {
    && ValidWrite(w)
    && Commit.Inv(JobOf(w, s.payload), s.commit)
    && ClientInv(w, s)
    && ReceiverInv(w, s)
  }

  lemma StartInv(w: Write, s: State)
    requires ValidWrite(w) && Starts(s)
    ensures Inv(w, s)
  {
    Commit.StartInv(JobOf(w, []), s.commit);
    Transfer.NothingFound(Delim(w));
  }

  /** A payload piece cannot complete a delimiter: it has no `.`. */
  lemma PieceAddsNoDelimiter(w: Write, stream: string, k: nat)
    requires ValidWrite(w) && k + 1 < |w.pieces|
    ensures Contains(stream + w.pieces[k], Delim(w)) ==> Contains(stream, Delim(w))
  {
    PieceAlphabet(w, k);
    forall i | OccursAt(stream + w.pieces[k], Delim(w), i)
      ensures Contains(stream, Delim(w))
    {
      EndsBefore(stream, w.pieces[k], Delim(w), i);
    }
  }

  lemma EndsBefore(stream: string, piece: string, d: string, i: nat)
    requires OccursAt(stream + piece, d, i) && d != "" && d[|d| - 1] == '.' && '.' !in piece
    ensures OccursAt(stream, d, i)
  {
    var last := i + |d| - 1;
    assert (stream + piece)[last] == '.' by {
      assert (stream + piece)[i..i + |d|][|d| - 1] == '.';
    }
    assert last < |stream|;
    OccursShift("", stream, piece, d, i);
    assert "" + stream + piece == stream + piece;
  }

  lemma PieceAlphabet(w: Write, k: nat)
    requires ValidWrite(w) && k + 1 < |w.pieces|
    ensures '.' !in w.pieces[k]
  {
    var n := |w.pieces| - 1;
    FlattenPrefix(w.pieces, n);
    assert w.pieces[n..] == [Delim(w)];
    assert Flatten([Delim(w)]) == Delim(w);
    var front := w.pieces[..n];
    assert Flatten(front) == Base64.Encode(w.content) by {
      assert |Flatten(front)| == |Base64.Encode(w.content)|;
      assert (Flatten(front) + Delim(w))[..|Flatten(front)|] == Flatten(front);
    }
    Base64.EncodeAlphabet(w.content);
    FlattenPrefix(front, k);
    assert Flatten(front[k..]) == front[k] + Flatten(front[k + 1..]) by {
      assert front[k..][1..] == front[k + 1..];
    }
    assert forall c <- front[k] :: c in Flatten(front);
  }

  /** Another piece on its way leaves the stream free of the delimiter, unless it is the
      delimiter. */
  lemma SendingKeepsInv(w: Write, s: State, t: State)
    requires Inv(w, s) && s.client.Sending? && s.sent < |w.pieces|
    requires t == s.(sent := s.sent + 1, queue := s.queue + w.pieces[s.sent], client := t.client)
    ensures ReceiverInv(w, t)
  {
    if t.sent < |w.pieces| {
      PieceAddsNoDelimiter(w, Stream(s), s.sent);
      assert Stream(t) == Stream(s) + w.pieces[s.sent];
    }
  }

  lemma ClientSendKeepsInv(w: Write, s: State, t: State)
    requires Inv(w, s) && (ClientSends(w, s, t) || ClientRaises(w, s, t))
    ensures Inv(w, t)
  {
    hide Commit.Inv;
    if t.sent == s.sent + 1 {
      SendingKeepsInv(w, s, t);
    }
  }

  lemma OnlyTheClient(w: Write, s: State, t: State)
    requires ReceiverInv(w, s) && t == s.(client := t.client, launched := t.launched)
    ensures ReceiverInv(w, t)
  {
    hide Commit.Starts, Contains, DelimiterSent;
    assert DelimiterSent(w, s) == DelimiterSent(w, t) by { SameSent(w, s, t); }
    assert Stream(s) == Stream(t);
  }

  lemma SameSent(w: Write, s: State, t: State)
    requires s.sent == t.sent
    ensures DelimiterSent(w, s) == DelimiterSent(w, t)
  {
  }

  lemma SeeingKeepsInv(w: Write, s: State, t: State, m: Mark)
    requires Inv(w, s) && Sees(w, s, t, m)
    ensures Inv(w, t)
  {
    hide Commit.Inv, ReceiverInv, ValidWrite;
    OnlyTheClient(w, s, t);
  }

  lemma ClientKeepsInv(w: Write, s: State, t: State)
    requires Inv(w, s) && (ClientActs(w, s, t) || t == s.(client := Cancelled))
    ensures Inv(w, t)
  {
    hide Commit.Inv, ReceiverInv, ValidWrite, Reads, Stat;
    OnlyTheClient(w, s, t);
  }

  lemma PartContains(now: string, rest: string, d: string)
    ensures Contains(now, d) ==> Contains(now + rest, d)
  {
    if Contains(now, d) {
      var i :| OccursAt(now, d, i);
      OccursShift("", now, rest, d, i);
      NothingBefore(now);
      assert "" + now + rest == now + rest;
      assert OccursAt(now + rest, d, i);
    }
  }

  lemma TakingKeepsInv(w: Write, s: State, t: State, n: nat)
    requires Inv(w, s) && s.receiver.Listening? && 0 < n <= |s.queue| && Takes(w, s, t, n)
    ensures Inv(w, t)
  {
    var now, rest := s.receiver.consumed + s.queue[..n], s.queue[n..];
    Associates(s.receiver.consumed, s.queue[..n], rest);
    Rejoins(s.queue, n);
    PartContains(now, rest, Delim(w));
    TailHasNoDelimiter(now, rest, Delim(w));
    Transfer.NothingFound(Delim(w));
  }

  lemma TailHasNoDelimiter(a: string, b: string, d: string)
    ensures Contains(b, d) ==> Contains(a + b, d)
  {
    forall i | OccursAt(b, d, i)
      ensures OccursAt(a + b, d, |a| + i)
    {
      OccursShift(a, b, "", d, i);
      assert a + b + "" == a + b;
    }
  }

  lemma SetupKeepsInv(w: Write, s: State, t: State)
    requires Inv(w, s) && ReceiverActs(w, s, t)
    requires s.receiver.Absent? || s.receiver.Booting? || s.receiver.Muted?
    ensures Inv(w, t)
  {
    hide Commit.Inv, Commit.Starts, Contains, Delim;
    assert Stream(t) == Stream(s);
  }

  /** Length and digest match, so the payload is the content. */
  lemma VerifyingKeepsInv(w: Write, s: State, t: State)
    requires Inv(w, s) && ReceiverActs(w, s, t) && s.receiver.Verifying?
    ensures Inv(w, t)
  {
    hide Contains, Delim, Commit.Inv;
    Commit.StartInv(JobOf(w, t.payload), t.commit);
  }

  lemma CommittingKeepsInv(w: Write, s: State, t: State)
    requires Inv(w, s) && ReceiverActs(w, s, t) && s.receiver.Committing?
    ensures Inv(w, t)
  {
    hide Contains, Delim, Commit.Inv, Commit.Own, Commit.Starts;
    if s.commit.pc.End? {
      CommitEnded(JobOf(w, s.payload), s.commit);
    }
    if t.commit != s.commit {
      Commit.NextKeepsInv(JobOf(w, s.payload), s.commit, t.commit);
    }
  }

  lemma CommitEnded(j: Commit.Job, c: Commit.State)
    requires Commit.Inv(j, c) && c.pc.End?
    ensures c.pc.ok ==> c.published
    ensures Commit.ReportedState(c) == Unchanged ==> !c.published
  {
  }

  lemma ReportingKeepsInv(w: Write, s: State, t: State)
    requires Inv(w, s) && ReceiverActs(w, s, t) && (s.receiver.Reporting? || s.receiver.Exited?)
    ensures Inv(w, t)
  {
    hide Contains, Delim, Commit.Inv, Commit.Starts;
    assert Stream(t) == Stream(s);
  }

  lemma DisturbingKeepsInv(w: Write, s: State, t: State)
    requires Inv(w, s) && (ReceiverRaises(s, t) || ReceiverDies(s, t) || Noise(w, s, t))
    ensures Inv(w, t)
  {
    hide Commit.Inv, Commit.Starts, Delim, ValidWrite;
    assert Delim(w) != "" by { Delimited(w); }
    StartsUnpublished(s.commit);
    if s.receiver.Listening? {
      TailHasNoDelimiter(s.receiver.consumed, s.queue, Delim(w));
    }
    Transfer.NothingFound(Delim(w));
  }

  lemma StartsUnpublished(c: Commit.State)
    ensures Commit.Starts(c) ==> !c.published
  {
  }

  lemma Delimited(w: Write)
    ensures Delim(w) != ""
  {
  }

  lemma ShellKeepsInv(w: Write, s: State, t: State)
    requires Inv(w, s) && ShellReads(s, t)
    ensures Inv(w, t)
  {
    hide Commit.Inv, Commit.Starts, Delim, ValidWrite;
    var n :| 0 < n <= |s.queue| && t == s.(shell := s.shell + s.queue[..n], queue := s.queue[n..]);
    TailHasNoDelimiter(s.queue[..n], s.queue[n..], Delim(w));
    assert s.queue[..n] + s.queue[n..] == s.queue;
  }

  lemma OthersKeepInv(w: Write, s: State, t: State)
    requires Inv(w, s) && OthersAct(s, t)
    ensures Inv(w, t)
  {
    hide Commit.Inv, Delim, ValidWrite, Contains, Foreign;
    Commit.NextKeepsInv(JobOf(w, s.payload), s.commit, t.commit);
    OthersKeepStart(s.commit, t.commit);
    assert Stream(t) == Stream(s);
  }

  lemma OthersKeepStart(c: Commit.State, d: Commit.State)
    requires Commit.Others(c, d)
    ensures Commit.Starts(c) ==> Commit.Starts(d)
    ensures Commit.Starts(d) && WellFormed(c.fs) ==> Commit.Starts(c)
  {
  }

  lemma NextKeepsInv(w: Write, s: State, t: State)
    requires Inv(w, s) && Next(w, s, t)
    ensures Inv(w, t)
  {
    hide Inv, ClientSends, ClientRaises, ClientSees, ClientActs, ReceiverRaises, ReceiverDies, ShellReads, Noise,
      OthersAct, Takes, Commit.Own, Sees, Transfer.DecodesTo;
    if ClientSends(w, s, t) || ClientRaises(w, s, t) { ClientSendKeepsInv(w, s, t); }
    else if ClientSees(w, s, t) { ClientKeepsInvSeeing(w, s, t); }
    else if ClientStep(w, s, t) { ClientKeepsInv(w, s, t); }
    else if ReceiverActs(w, s, t) { ReceiverKeepsInv(w, s, t); }
    else if ShellReads(s, t) { ShellKeepsInv(w, s, t); }
    else if OthersAct(s, t) { OthersKeepInv(w, s, t); }
    else { DisturbingKeepsInv(w, s, t); }
  }

  lemma ClientKeepsInvSeeing(w: Write, s: State, t: State)
    requires Inv(w, s) && ClientSees(w, s, t)
    ensures Inv(w, t)
  {
    var m :| Sees(w, s, t, m);
    SeeingKeepsInv(w, s, t, m);
  }

  lemma ReceiverKeepsInv(w: Write, s: State, t: State)
    requires Inv(w, s) && ReceiverActs(w, s, t)
    ensures Inv(w, t)
  {
    hide Inv, Takes, Commit.Own, Transfer.DecodesTo;
    match s.receiver {
      case Listening(_) =>
        var n: nat :| 0 < n <= |s.queue| && Takes(w, s, t, n);
        TakingKeepsInv(w, s, t, n);
      case Verifying(_) => VerifyingKeepsInv(w, s, t);
      case Committing => CommittingKeepsInv(w, s, t);
      case Reporting(_, _) => ReportingKeepsInv(w, s, t);
      case Exited(_) => ReportingKeepsInv(w, s, t);
      case _ => SetupKeepsInv(w, s, t);
    }
  }

  lemma {:induction false} RunInv(w: Write, run: seq<State>, i: nat)
    requires Run(w, run) && i < |run|
    ensures Inv(w, run[i])
  {
    hide Inv, Next;
    if i == 0 {
      StartInv(w, run[0]);
    } else {
      RunInv(w, run, i - 1);
      NextKeepsInv(w, run[i - 1], run[i]);
    }
  }
}
