/** How a command is framed in the pane: the wrapper that is typed, what it prints, and how
    output, exit code and directory are parsed back out of a screen. */
module Framing {
  import opened Common
  import opened Text
  import opened Shell

  // ---------------------------------------------------------------------------
  // The wrapper.

  datatype Arg = Literal(text: string) | Token(text: string) | DoubleQuoted(text: string) | Status | Directory

  datatype Call = Printf(format: string, args: seq<Arg>) | Eval(program: string)

  function RenderArg(a: Arg): string {
    match a
    case Literal(text) => "'" + text + "'"
    case Token(text) => Quote(text)
    case DoubleQuoted(text) => "\"" + text + "\""
    case Status => "\"$?\""
    case Directory => "\"$PWD\""
  }

  function RenderArgs(args: seq<Arg>): (words: seq<string>)
    ensures |words| == |args| && forall i :: 0 <= i < |args| ==> words[i] == RenderArg(args[i])
  {
    if args == [] then [] else [RenderArg(args[0])] + RenderArgs(args[1..])
  }

  function RenderCall(c: Call): string {
    match c
    case Printf(format, args) => Join(["printf", "'" + format + "'"] + RenderArgs(args), " ")
    case Eval(program) => Join(["eval", Quote(program)], " ")
  }

  /** The four calls of the wrapper, on one line. */
  function Script(left: string, right: string, program: string): seq<Call> {
    [Printf("%s%s%s%s\\n", [Literal("__RSM_BEGIN_"), Token(left), Token(right), Literal("__")]),
     Eval(program),
     Printf("\\n%s%s%s_%s%s\\n", [Literal("__RSM_END_"), Token(left), Token(right), Status, DoubleQuoted("__")]),
     Printf("%s%s%s%s %s\\n", [Literal("__RSM_CWD_"), Token(left), Token(right), Literal("__"), Directory])]
  }

  datatype WrapError = ContainsNul | EmptyCommand

  function Normalise(command: string): string {
    Replace(Replace(command, "\r\n", "\n"), "\r", "\n")
  }

  /** Every line end, written in any of the three ways, as a line feed. */
  function LineFeeds(s: string): string {
    if s == "" then ""
    else if s[0] != '\r' then [s[0]] + LineFeeds(s[1..])
    else if |s| > 1 && s[1] == '\n' then "\n" + LineFeeds(s[2..])
    else "\n" + LineFeeds(s[1..])
  }

  lemma {:induction false} NormaliseIs(command: string)
    ensures Normalise(command) == LineFeeds(command)
    decreases |command|
  {
    var s := command;
    if s != "" {
      var paired := OccursAt(s, "\r\n", 0);
      if |s| > 1 { assert s[..2] == [s[0], s[1]] && s[0..2] == s[..2]; }
      assert paired <==> |s| > 1 && s[0] == '\r' && s[1] == '\n';
      var rest := if paired then s[2..] else s[1..];
      var first := if paired then "\n" else [s[0]];
      ReplaceStep(s, "\r\n", "\n");
      var half := Replace(rest, "\r\n", "\n");
      assert (first + half)[1..] == half && (first + half)[0] == first[0] && (first + half)[0..1] == first;
      ReplaceStep(first + half, "\r", "\n");
      NormaliseIs(rest);
    } else {
      assert Find("", "\r\n").None? && Find("", "\r").None?;
    }
  }

  function Wrap(left: string, right: string, command: string): Result<string, WrapError> {
    if '\0' in command then Err(ContainsNul)
    else if Blank(Normalise(command)) then Err(EmptyCommand)
    else
      var calls := Script(left, right, Normalise(command));
      Ok(Join([RenderCall(calls[0]), RenderCall(calls[1]), RenderCall(calls[2]), RenderCall(calls[3])], "; "))
  }

  // ---------------------------------------------------------------------------
  // What it prints.

  datatype Outcome = Outcome(output: string, exitCode: nat, cwd: string)

  function ArgValue(a: Arg, o: Outcome): string {
    match a
    case Literal(text) => text
    case Token(text) => text
    case DoubleQuoted(text) => text
    case Status => Decimal(o.exitCode)
    case Directory => o.cwd
  }

  /** `printf` with the two conversions that the wrapper uses. */
  function Format(format: string, args: seq<Arg>, o: Outcome): string {
    if |format| < 2 then format
    else if format[..2] == "%s" then
      if args == [] then Format(format[2..], [], o)
      else ArgValue(args[0], o) + Format(format[2..], args[1..], o)
    else if format[..2] == "\\n" then "\n" + Format(format[2..], args, o)
    else [format[0]] + Format(format[1..], args, o)
  }

  function Prints(c: Call, o: Outcome): string {
    match c
    case Printf(format, args) => Format(format, args, o)
    case Eval(_) => o.output
  }

  /** Everything that running the wrapper prints. */
  function Printed(left: string, right: string, program: string, o: Outcome): string {
    var calls := Script(left, right, program);
    Prints(calls[0], o) + Prints(calls[1], o) + Prints(calls[2], o) + Prints(calls[3], o)
  }

  function Begin(m: string): string {
    "__RSM_BEGIN_" + m + "__"
  }

  function EndMark(m: string): string {
    "__RSM_END_" + m + "_"
  }

  function CwdMark(m: string): string {
    "__RSM_CWD_" + m + "__ "
  }

  lemma Slot(rest: string, a: Arg, args: seq<Arg>, o: Outcome)
    ensures Format("%s" + rest, [a] + args, o) == ArgValue(a, o) + Format(rest, args, o)
  {
    assert ("%s" + rest)[..2] == "%s" && ("%s" + rest)[2..] == rest;
    assert ([a] + args)[1..] == args;
  }

  lemma Plain(c: char, rest: string, args: seq<Arg>, o: Outcome)
    requires c != '%' && c != '\\'
    ensures Format([c] + rest, args, o) == [c] + Format(rest, args, o)
  {
    assert ([c] + rest)[1..] == rest;
    if rest == "" {
      assert Format([c] + rest, args, o) == [c];
    } else {
      assert ([c] + rest)[..2][0] == c;
    }
  }

  /** The end of every format. */
  lemma LineEnds(o: Outcome)
    ensures Format("\\n", [], o) == "\n"
  {
    assert "\\n"[..2] == "\\n" && "\\n"[2..] == "";
  }

  /** Two halves of the marker and then the rest. */
  lemma Halves(name: string, left: string, right: string, rest: string, args: seq<Arg>, o: Outcome)
    ensures Format("%s%s%s" + rest, [Literal(name), Token(left), Token(right)] + args, o)
         == name + (left + right) + Format(rest, args, o)
  {
    hide Format;
    Slot(rest, Token(right), args, o);
    Slot("%s" + rest, Token(left), [Token(right)] + args, o);
    Slot("%s%s" + rest, Literal(name), [Token(left), Token(right)] + args, o);
    assert "%s" + ("%s" + rest) == "%s%s" + rest && "%s" + ("%s%s" + rest) == "%s%s%s" + rest;
    assert [Token(left)] + ([Token(right)] + args) == [Token(left), Token(right)] + args;
    assert [Literal(name)] + ([Token(left), Token(right)] + args) == [Literal(name), Token(left), Token(right)] + args;
    var f := Format(rest, args, o);
    assert name + (left + (right + f)) == name + (left + right) + f;
  }

  lemma FormatBegin(left: string, right: string, o: Outcome)
    ensures Prints(Script(left, right, "")[0], o) == Begin(left + right) + "\n"
  {
    hide Format;
    LineEnds(o);
    Slot("\\n", Literal("__"), [], o);
    Halves("__RSM_BEGIN_", left, right, "%s\\n", [Literal("__")], o);
    assert "%s%s%s" + "%s\\n" == "%s%s%s%s\\n" && "%s" + "\\n" == "%s\\n";
    assert [Literal("__")] + [] == [Literal("__")];
    assert [Literal("__RSM_BEGIN_"), Token(left), Token(right)] + [Literal("__")]
        == [Literal("__RSM_BEGIN_"), Token(left), Token(right), Literal("__")];
  }

  lemma Break(rest: string, args: seq<Arg>, o: Outcome)
    ensures Format("\\n" + rest, args, o) == "\n" + Format(rest, args, o)
  {
    assert ("\\n" + rest)[..2] == "\\n" && ("\\n" + rest)[2..] == rest;
  }

  lemma FormatEnd(left: string, right: string, o: Outcome)
    ensures Prints(Script(left, right, "")[2], o) == "\n" + EndMark(left + right) + Decimal(o.exitCode) + "__\n"
  {
    hide Decimal, Format;
    var args := [Status, DoubleQuoted("__")];
    var all := [Literal("__RSM_END_"), Token(left), Token(right)] + args;
    Break("%s%s%s_%s%s\\n", all, o);
    assert "\\n" + "%s%s%s_%s%s\\n" == "\\n%s%s%s_%s%s\\n";
    assert all == [Literal("__RSM_END_"), Token(left), Token(right), Status, DoubleQuoted("__")];
    LineEnds(o);
    Slot("\\n", DoubleQuoted("__"), [], o);
    Slot("%s\\n", Status, [DoubleQuoted("__")], o);
    Plain('_', "%s%s\\n", args, o);
    Halves("__RSM_END_", left, right, "_%s%s\\n", args, o);
    assert "%s%s%s" + "_%s%s\\n" == "%s%s%s_%s%s\\n" && ['_'] + "%s%s\\n" == "_%s%s\\n";
    assert "%s" + "%s\\n" == "%s%s\\n" && "%s" + "\\n" == "%s\\n";
    assert [Status] + [DoubleQuoted("__")] == args && [DoubleQuoted("__")] + [] == [DoubleQuoted("__")];
  }

  lemma FormatCwd(left: string, right: string, o: Outcome)
    ensures Prints(Script(left, right, "")[3], o) == CwdMark(left + right) + o.cwd + "\n"
  {
    hide Format;
    var args := [Literal("__"), Directory];
    LineEnds(o);
    Slot("\\n", Directory, [], o);
    Plain(' ', "%s\\n", [Directory], o);
    Slot(" %s\\n", Literal("__"), [Directory], o);
    Halves("__RSM_CWD_", left, right, "%s %s\\n", args, o);
    assert "%s%s%s" + "%s %s\\n" == "%s%s%s%s %s\\n" && "%s" + " %s\\n" == "%s %s\\n";
    assert [' '] + "%s\\n" == " %s\\n" && "%s" + "\\n" == "%s\\n";
    assert [Literal("__")] + [Directory] == args && [Directory] + [] == [Directory];
    assert [Literal("__RSM_CWD_"), Token(left), Token(right)] + args
        == [Literal("__RSM_CWD_"), Token(left), Token(right), Literal("__"), Directory];
  }

  /** The frame around the output: printing joins the halves of the marker. */
  function Frame(m: string, o: Outcome): string {
    Begin(m) + "\n" + o.output + "\n" + EndMark(m) + Decimal(o.exitCode) + "__\n" + CwdMark(m) + o.cwd + "\n"
  }

  lemma PrintedIsFrame(left: string, right: string, program: string, o: Outcome)
    ensures Printed(left, right, program, o) == Frame(left + right, o)
  {
    FormatBegin(left, right, o);
    FormatEnd(left, right, o);
    FormatCwd(left, right, o);
    hide Prints, Begin, EndMark, CwdMark, Decimal;
    var calls := Script(left, right, program);
    assert Prints(calls[1], o) == o.output by { PrintsOutput(program, o); }
  }

  lemma PrintsOutput(program: string, o: Outcome)
    ensures Prints(Eval(program), o) == o.output
  {
  }

  // ---------------------------------------------------------------------------
  // The echo of the wrapper.

  const HALF := 16

  /** The halves of a marker: `secrets.token_hex(8)`. */
  predicate Half(s: string) {
    |s| == HALF && forall i :: 0 <= i < |s| ==> '0' <= s[i] <= '9' || 'a' <= s[i] <= 'f'
  }

  lemma ContainsBeginContainsMarker(s: string, m: string)
    ensures Contains(s, Begin(m)) ==> Contains(s, m)
  {
    forall p | OccursAt(s, Begin(m), p)
      ensures Contains(s, m)
    {
      var i := p + |"__RSM_BEGIN_"|;
      assert s[i..i + |m|] == s[p..p + |Begin(m)|][|"__RSM_BEGIN_"|..|"__RSM_BEGIN_"| + |m|];
      assert OccursAt(s, m, i);
    }
  }

  lemma HalfIsQuotedAsIs(s: string)
    requires Half(s)
    ensures Quote(s) == s
  {
  }

  lemma BeginWords(left: string, right: string)
    requires Half(left) && Half(right)
    ensures RenderCall(Script(left, right, "")[0])
         == Join(["printf", "'%s%s%s%s\\n'", "'__RSM_BEGIN_'", left, right, "'__'"], " ")
  {
    HalfIsQuotedAsIs(left);
    HalfIsQuotedAsIs(right);
    hide Quote, Join;
    var c := Script(left, right, "")[0];
    assert "'" + c.format + "'" == "'%s%s%s%s\\n'" && "'" + "__RSM_BEGIN_" + "'" == "'__RSM_BEGIN_'";
    assert "'" + "__" + "'" == "'__'";
    var words := ["printf", "'" + c.format + "'"] + RenderArgs(c.args);
    assert words == ["printf", "'%s%s%s%s\\n'", "'__RSM_BEGIN_'", left, right, "'__'"];
  }

  lemma EndWords(left: string, right: string)
    requires Half(left) && Half(right)
    ensures RenderCall(Script(left, right, "")[2])
         == Join(["printf", "'\\n%s%s%s_%s%s\\n'", "'__RSM_END_'", left, right, "\"$?\"", "\"__\""], " ")
  {
    HalfIsQuotedAsIs(left);
    HalfIsQuotedAsIs(right);
    hide Quote, Join;
    var c := Script(left, right, "")[2];
    assert "'" + c.format + "'" == "'\\n%s%s%s_%s%s\\n'" && "'" + "__RSM_END_" + "'" == "'__RSM_END_'";
    assert "\"" + "__" + "\"" == "\"__\"";
    var words := ["printf", "'" + c.format + "'"] + RenderArgs(c.args);
    assert words == ["printf", "'\\n%s%s%s_%s%s\\n'", "'__RSM_END_'", left, right, "\"$?\"", "\"__\""];
  }

  lemma CwdWords(left: string, right: string)
    requires Half(left) && Half(right)
    ensures RenderCall(Script(left, right, "")[3])
         == Join(["printf", "'%s%s%s%s %s\\n'", "'__RSM_CWD_'", left, right, "'__'", "\"$PWD\""], " ")
  {
    HalfIsQuotedAsIs(left);
    HalfIsQuotedAsIs(right);
    hide Quote, Join;
    var c := Script(left, right, "")[3];
    assert "'" + c.format + "'" == "'%s%s%s%s %s\\n'" && "'" + "__RSM_CWD_" + "'" == "'__RSM_CWD_'";
    assert "'" + "__" + "'" == "'__'";
    var words := ["printf", "'" + c.format + "'"] + RenderArgs(c.args);
    assert words == ["printf", "'%s%s%s%s %s\\n'", "'__RSM_CWD_'", left, right, "'__'", "\"$PWD\""];
  }

  /** The wrapper, written out.  Its second command is `eval` of one word, and a shell reads that
      word as the command with its line ends normalised, whatever is in it. */
  lemma WrapIs(left: string, right: string, command: string) returns (word: string)
    requires Half(left) && Half(right) && Wrap(left, right, command).Ok?
    ensures Wrap(left, right, command).value == Join([
              Join(["printf", "'%s%s%s%s\\n'", "'__RSM_BEGIN_'", left, right, "'__'"], " "),
              Join(["eval", word], " "),
              Join(["printf", "'\\n%s%s%s_%s%s\\n'", "'__RSM_END_'", left, right, "\"$?\"", "\"__\""], " "),
              Join(["printf", "'%s%s%s%s %s\\n'", "'__RSM_CWD_'", left, right, "'__'", "\"$PWD\""], " ")], "; ")
    ensures Word(word, Mode.Plain) == Some(LineFeeds(command))
  {
    var program := Normalise(command);
    word := Quote(program);
    QuoteRoundTrip(program);
    NormaliseIs(command);
    BeginWords(left, right);
    EndWords(left, right);
    CwdWords(left, right);
    hide Quote, Normalise, Word, Join;
  }

  /** It is refused if it contains a NUL, and otherwise if there is nothing in it but white
      space. */
  lemma WrapRefuses(left: string, right: string, command: string)
    ensures Wrap(left, right, command) == Err(ContainsNul) <==> '\0' in command
    ensures Wrap(left, right, command) == Err(EmptyCommand) <==> '\0' !in command && Blank(LineFeeds(command))
  {
    NormaliseIs(command);
    hide Normalise, Join, RenderCall;
  }

  lemma NormaliseHasNo(command: string, m: string)
    requires m != "" && Outside("\r\n", m) && !Contains(command, m)
    ensures !Contains(Normalise(command), m)
  {
    assert '\n' in "\r\n" && '\r' in "\r\n";
    assert Outside("\n", m);
    ReplaceHasNo(command, "\r\n", "\n", m);
    ReplaceHasNo(Replace(command, "\r\n", "\n"), "\r", "\n", m);
  }

  /** A call whose words are all short cannot show the marker. */
  lemma PrintfHasNo(format: string, args: seq<Arg>, m: string)
    requires |format| + 2 < |m| && 6 < |m| && Outside(" ", m)
    requires forall a :: a in args ==> |RenderArg(a)| < |m|
    ensures !Contains(RenderCall(Printf(format, args)), m)
  {
    var words := ["printf", "'" + format + "'"] + RenderArgs(args);
    forall w | w in words ensures !Contains(w, m) {
      var i :| 0 <= i < |words| && words[i] == w;
      if i >= 2 {
        assert w == RenderArg(args[i - 2]) && args[i - 2] in args;
      }
      ShortHasNo(w, m);
    }
    JoinHasNo(words, " ", m);
  }

  lemma EvalHasNo(program: string, m: string)
    requires 4 < |m| && Outside(" '\"", m) && !Contains(program, m)
    ensures !Contains(RenderCall(Eval(program)), m)
  {
    assert ' ' in " '\"" && '\'' in " '\"" && '"' in " '\"";
    QuoteHasNo(program, m);
    ShortHasNo("eval", m);
    assert Outside(" ", m);
    JoinHasNo(["eval", Quote(program)], " ", m);
  }

  /** The typed wrapper never shows the BEGIN literal: it keeps the halves of the marker apart,
      and neither quoting nor the normalisation of line ends brings them together. */
  lemma EchoHasNoBegin(left: string, right: string, command: string)
    requires Half(left) && Half(right) && !Contains(command, left + right)
    requires Wrap(left, right, command).Ok?
    ensures !Contains(Wrap(left, right, command).value, left + right)
    ensures !Contains(Wrap(left, right, command).value, Begin(left + right))
  {
    var m := left + right;
    var calls := Script(left, right, Normalise(command));
    var wrapped := Wrap(left, right, command).value;
    HalfIsQuotedAsIs(left);
    HalfIsQuotedAsIs(right);
    assert Outside("\r\n", m) && Outside(" '\"", m) && Outside(" ", m) && Outside("; ", m);
    NormaliseHasNo(command, m);
    PrintfHasNo(calls[0].format, calls[0].args, m);
    EvalHasNo(Normalise(command), m);
    PrintfHasNo(calls[2].format, calls[2].args, m);
    PrintfHasNo(calls[3].format, calls[3].args, m);
    var lines := [RenderCall(calls[0]), RenderCall(calls[1]), RenderCall(calls[2]), RenderCall(calls[3])];
    hide RenderCall, Normalise;
    JoinHasNo(lines, "; ", m);
    ContainsBeginContainsMarker(wrapped, m);
  }
}
