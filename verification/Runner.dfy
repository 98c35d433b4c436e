/** `run_in_pane`: typing the wrapper and polling the pane until the command has finished or
    its time is over. */
module Runner {
  import opened Common
  import opened Text
  import opened Framing
  import opened Screen
  import opened FramingGuarantees

  /** One round of polling: a short capture, and the full one taken if that shows a finished
      command.  None: tmux failed. */
  datatype Poll = Poll(short: Option<string>, full: Option<string>)

  datatype RunReply =
    | Completed(output: string, exitCode: nat, cwd: string)
    | TimedOut(output: string)
    | Invalid(wrapError: WrapError)
    | CaptureFailed
    | Incomplete(parseError: ParseError)

  /** The screen shows what the wrapper of a command has printed, with nothing else that shows
      the marker up to then. */
  ghost predicate ShowsRun(s: string, left: string, right: string, o: Outcome) {
    exists history, program, trailing :: IsRunOn(s, left, right, o, history, program, trailing)
  }

  ghost predicate IsRunOn(s: string, left: string, right: string, o: Outcome, history: string, program: string,
                          trailing: string)
  {
    && s == history + Printed(left, right, program, o) + trailing
    && '\n' !in o.cwd && !Contains(history, left + right) && !Contains(o.output, left + right)
  }

  /** What the last poll showed; nothing if there was no time for one. */
  function LastShown(polls: seq<Poll>): string {
    if polls == [] || Last(polls).short.None? then "" else Last(polls).short.value
  }

  /** The screen that a run whose time is over takes its output from: the late capture if that
      shows the BEGIN line, the last poll if only that does, and none otherwise. */
  ghost function Fallback(lastScreen: string, late: Option<string>, m: string): Option<string>
  {
    if late.Some? && Contains(late.value, Begin(m)) then late
    else if Contains(lastScreen, Begin(m)) then Some(lastScreen)
    else None
  }

  /** What a run makes of the poll that ends it. */
  ghost predicate Decides(p: Poll, left: string, right: string, reply: RunReply) {
    var m := left + right;
    && (p.short.Some? ==> Finishes(p.short.value, m))
    && (reply.CaptureFailed? <==> p.short.None? || p.full.None?)
    && (!reply.CaptureFailed? ==> ReadsCapture(p.full.value, left, right, reply))
  }

  /** What it makes of the final capture: output, exit code and directory of the command, if the
      BEGIN literal comes before the first END line and there is a CWD line after it. */
  ghost predicate ReadsCapture(s: string, left: string, right: string, reply: RunReply) {
    var m := left + right;
    && (reply.Completed? || reply.Incomplete?)
    && (reply == Incomplete(MarkersLost) <==> !Finishes(s, m))
    && (forall e: nat, digits, c: nat, directory :: Finished(s, m, e, digits, c, directory) ==>
          if Contains(s[..e], Begin(m)) then
            reply.Completed? && reply.exitCode == Value(digits) && reply.cwd == directory
          else reply == Incomplete(BeginLost))
    && (reply.Completed? ==> Attributable(s, m, reply.output))
    && (forall o :: ShowsRun(s, left, right, o) ==> reply == Completed(StripNewlines(o.output), o.exitCode, o.cwd))
  }

  lemma CaptureIsRead(s: string, left: string, right: string)
    requires Half(left) && Half(right)
    ensures ReadsCapture(s, left, right, match Parse(s, left + right)
                                         case Ok(r) => Completed(r.output, r.exitCode, r.cwd)
                                         case Err(e) => Incomplete(e))
  {
    var m := left + right;
    ParseIff(s, m);
    forall o | ShowsRun(s, left, right, o)
      ensures Parse(s, m) == Ok(Parsed(StripNewlines(o.output), o.exitCode, o.cwd))
    {
      var history, program, trailing :| IsRunOn(s, left, right, o, history, program, trailing);
      FramingRoundTrip(history, left, right, program, o, trailing);
    }
    if Parse(s, m).Ok? {
      ParsedIsAttributable(s, m);
    }
    hide Parse, Finished, Attributable, ShowsRun, Begin;
  }

  /** `polls` are the rounds for which there is time, `late` is the last capture. */
  method RunInPane(left: string, right: string, command: string, polls: seq<Poll>, late: Option<string>)
      returns (reply: RunReply, ghost rounds: nat)
    requires Half(left) && Half(right)
    ensures reply.Invalid? <==> Wrap(left, right, command).Err?
    ensures reply.Invalid? ==> reply.wrapError == Wrap(left, right, command).error
    ensures rounds <= |polls|
    ensures !reply.Invalid? ==>
              forall k :: 0 <= k < rounds ==> polls[k].short.Some? && !Finishes(polls[k].short.value, left + right)
    ensures !reply.Invalid? ==> (rounds == |polls| <==> reply.TimedOut?)
    ensures !reply.Invalid? && rounds < |polls| ==> Decides(polls[rounds], left, right, reply)
    ensures reply.TimedOut? ==>
              var source := Fallback(LastShown(polls), late, left + right);
              if source.None? then reply.output == ""
              else Partial(source.value, left + right) == Some(reply.output)
                   && Latest(source.value, left + right, reply.output)
  {
    hide Completion, Parse, Partial, Latest, Wrap, Begin, Finishes, ReadsCapture;
    rounds := 0;
    var wrapped := Wrap(left, right, command);
    if wrapped.Err? {
      return Invalid(wrapped.error), 0;
    }
    var m := left + right;
    var lastScreen := "";
    var i := 0;
    while i < |polls|
      invariant 0 <= i == rounds <= |polls|
      invariant forall k :: 0 <= k < i ==> polls[k].short.Some? && !Finishes(polls[k].short.value, m)
      invariant i == 0 ==> lastScreen == ""
      invariant i > 0 ==> polls[i - 1].short == Some(lastScreen)
    {
      if polls[i].short.None? {
        return CaptureFailed, rounds;
      }
      lastScreen := polls[i].short.value;
      var finished := Completion(lastScreen, m);
      CompletionIff(lastScreen, m);
      if finished.Some? {
        if polls[i].full.None? {
          return CaptureFailed, rounds;
        }
        var parsed := Parse(polls[i].full.value, m);
        CaptureIsRead(polls[i].full.value, left, right);
        match parsed {
          case Ok(r) =>
            return Completed(r.output, r.exitCode, r.cwd), rounds;
          case Err(e) =>
            return Incomplete(e), rounds;
        }
      }
      i := i + 1;
      rounds := i;
    }
    var output := AtDeadline(m, lastScreen, late);
    assert lastScreen == LastShown(polls);
    return TimedOut(output), rounds;
  }

  /** The output that can be attributed to a command whose time is over. */
  method AtDeadline(m: string, lastScreen: string, late: Option<string>) returns (output: string)
    ensures var source := Fallback(lastScreen, late, m);
            if source.None? then output == ""
            else Partial(source.value, m) == Some(output) && Latest(source.value, m, output)
  {
    hide Partial, Latest;
    var lateScreen := if late.Some? then late.value else lastScreen;
    PartialIsAttributable(lateScreen, m);
    PartialIsAttributable(lastScreen, m);
    var found := Partial(lateScreen, m);
    if found.None? {
      found := Partial(lastScreen, m);
    }
    return if found.Some? then found.value else "";
  }
}
