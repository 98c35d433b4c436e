/** Printing and parsing undo each other, and what is parsed out of a screen was printed by
    the command it is attributed to. */
module FramingGuarantees {
  import opened Common
  import opened Text
  import opened Framing
  import opened Screen

  predicate Marker(m: string) {
    |m| == 2 * HALF && forall i :: 0 <= i < |m| ==> '0' <= m[i] <= '9' || 'a' <= m[i] <= 'f'
  }

  /** Where the output of the command stops, and where the END line does. */
  function EndOf(history: string, m: string, o: Outcome): nat {
    |history| + |Begin(m)| + 1 + |o.output| + 1
  }

  function AfterEnd(history: string, m: string, o: Outcome): nat {
    EndOf(history, m, o) + |EndMark(m)| + |Decimal(o.exitCode)| + 2
  }

  /** The first part of a screen shows the frame up to the end of the output, ... */
  predicate ShowsOutput(s: string, history: string, m: string, o: Outcome) {
    var h := |history|;
    var e := EndOf(history, m, o);
    && e <= |s| && s[..h] == history
    && s[h..h + |Begin(m)|] == Begin(m) && s[h + |Begin(m)|] == '\n'
    && s[h + |Begin(m)| + 1..e - 1] == o.output && s[e - 1] == '\n'
  }

  /** ... and the rest of it shows the END line and the directory. */
  predicate ShowsEnd(s: string, history: string, m: string, o: Outcome) {
    var e := EndOf(history, m, o);
    var d := e + |EndMark(m)|;
    var f := AfterEnd(history, m, o);
    var c := f + 1 + |CwdMark(m)|;
    && f + 1 <= |s| && s[e..d] == EndMark(m) && s[d..f - 2] == Decimal(o.exitCode)
    && s[f - 2..f] == "__" && s[f] == '\n'
    && c + |o.cwd| < |s| && s[f + 1..c] == CwdMark(m) && s[c..c + |o.cwd|] == o.cwd && s[c + |o.cwd|] == '\n'
  }

  lemma FrameShowsOutput(history: string, m: string, o: Outcome, trailing: string)
    ensures ShowsOutput(history + Frame(m, o) + trailing, history, m, o)
  {
    var s := history + Frame(m, o) + trailing;
    var rest := EndMark(m) + Decimal(o.exitCode) + "__\n" + CwdMark(m) + o.cwd + "\n" + trailing;
    hide Begin, EndMark, CwdMark, Decimal;
    assert s == history + Begin(m) + ("\n" + o.output + "\n" + rest);
    assert s == (history + Begin(m) + "\n") + o.output + ("\n" + rest);
  }

  lemma FrameShowsEnd(history: string, m: string, o: Outcome, trailing: string)
    ensures ShowsEnd(history + Frame(m, o) + trailing, history, m, o)
  {
    var s := history + Frame(m, o) + trailing;
    var upto := history + Begin(m) + "\n" + o.output + "\n";
    var code, tail := Decimal(o.exitCode), o.cwd + "\n" + trailing;
    hide Begin, EndMark, CwdMark, Decimal;
    Whole(history, m, o, trailing);
    hide Frame;
    assert |upto| == EndOf(history, m, o);
    EndPart(s, upto, m, code, tail);
    DirectoryPart(s, upto, m, code, o.cwd, trailing);
  }

  lemma Whole(history: string, m: string, o: Outcome, trailing: string)
    ensures history + Frame(m, o) + trailing
         == (history + Begin(m) + "\n" + o.output + "\n") + EndMark(m) + Decimal(o.exitCode) + "__\n" + CwdMark(m)
            + (o.cwd + "\n" + trailing)
  {
    hide Begin, EndMark, CwdMark, Decimal;
  }

  lemma EndPart(s: string, upto: string, m: string, code: string, tail: string)
    requires s == upto + EndMark(m) + code + "__\n" + CwdMark(m) + tail
    ensures var d := |upto| + |EndMark(m)|;
            var f := d + |code| + 2;
            && f + 1 + |CwdMark(m)| <= |s|
            && s[|upto|..d] == EndMark(m) && s[d..f - 2] == code && s[f - 2..f] == "__" && s[f] == '\n'
            && s[f + 1..f + 1 + |CwdMark(m)|] == CwdMark(m)
  {
    Regroup(s, upto, m, code, tail);
    hide EndMark, CwdMark;
    PartAt(s, upto, EndMark(m), code + "__" + "\n" + CwdMark(m) + tail);
    PartAt(s, upto + EndMark(m), code, "__" + "\n" + CwdMark(m) + tail);
    PartAt(s, upto + EndMark(m) + code, "__", "\n" + CwdMark(m) + tail);
    PartAt(s, upto + EndMark(m) + code + "__", "\n", CwdMark(m) + tail);
    PartAt(s, upto + EndMark(m) + code + "__" + "\n", CwdMark(m), tail);
  }

  lemma DirectoryPart(s: string, upto: string, m: string, code: string, cwd: string, trailing: string)
    requires s == upto + EndMark(m) + code + "__\n" + CwdMark(m) + (cwd + "\n" + trailing)
    ensures var c := |upto| + |EndMark(m)| + |code| + 3 + |CwdMark(m)|;
            c + |cwd| < |s| && s[c..c + |cwd|] == cwd && s[c + |cwd|] == '\n'
  {
    hide EndMark, CwdMark;
    var before := upto + EndMark(m) + code + "__\n" + CwdMark(m);
    assert s == before + cwd + ("\n" + trailing);
    PartAt(s, before, cwd, "\n" + trailing);
    PartAt(s, before + cwd, "\n", trailing);
  }

  lemma Regroup(s: string, upto: string, m: string, code: string, tail: string)
    requires s == upto + EndMark(m) + code + "__\n" + CwdMark(m) + tail
    ensures s == upto + EndMark(m) + (code + "__" + "\n" + CwdMark(m) + tail)
    ensures s == (upto + EndMark(m)) + code + ("__" + "\n" + CwdMark(m) + tail)
    ensures s == (upto + EndMark(m) + code) + "__" + ("\n" + CwdMark(m) + tail)
    ensures s == (upto + EndMark(m) + code + "__") + "\n" + (CwdMark(m) + tail)
    ensures s == (upto + EndMark(m) + code + "__" + "\n") + CwdMark(m) + tail
  {
    hide EndMark, CwdMark;
    assert "__\n" == "__" + "\n";
  }

  /** Up to the marker in the END line, the marker occurs in the BEGIN line and nowhere else. */
  lemma MarkerOnlyThere(s: string, history: string, m: string, o: Outcome, q: int)
    requires Marker(m) && !Contains(history, m) && !Contains(o.output, m)
    requires ShowsOutput(s, history, m, o) && OccursAt(s, m, q)
    requires q < EndOf(history, m, o) || (q < EndOf(history, m, o) + 10 <= |s| && s[EndOf(history, m, o) + 9] == '_')
    ensures q == |history| + 12
  {
    var h, e := |history|, EndOf(history, m, o);
    assert s[h] == Begin(m)[0] == '_' && s[h + 11] == Begin(m)[11] == '_' && s[h + 44] == Begin(m)[44] == '_';
    SliceHas(s, 0, h, m, q);
    SliceHas(s, h + 47, e - 1, m, q);
    assert s[0..h] == s[..h];
    Spares(s, m, q, h);
    Spares(s, m, q, h + 11);
    Spares(s, m, q, h + 44);
    Spares(s, m, q, h + 46);
    Spares(s, m, q, e - 1);
    if e <= q {
      Spares(s, m, q, e + 9);
    }
  }

  /** An occurrence of the marker does not cover an underscore or a line end. */
  lemma Spares(s: string, m: string, q: int, i: nat)
    requires Marker(m) && OccursAt(s, m, q) && i < |s| && (s[i] == '_' || s[i] == '\n')
    ensures !(q <= i < q + |m|)
  {
    if q <= i < q + |m| {
      OccursUses(s, m, q, i);
    }
  }

  ghost predicate Framed(s: string, history: string, m: string, o: Outcome) {
    && Marker(m) && !Contains(history, m) && !Contains(o.output, m) && '\n' !in o.cwd
    && ShowsOutput(s, history, m, o) && ShowsEnd(s, history, m, o)
  }

  lemma StartsWith(s: string, d: string, p: int)
    requires d != ""
    ensures OccursAt(s, d, p) ==> s[p] == d[0]
  {
    if OccursAt(s, d, p) {
      assert s[p] == s[p..p + |d|][0];
    }
  }

  /** Nothing before the END line of the frame looks like one. */
  lemma NoEarlierEnd(s: string, history: string, m: string, o: Outcome, p: int)
    requires Framed(s, history, m, o) && p < EndOf(history, m, o)
    ensures !OccursAt(s, EndMark(m), p)
  {
    var h, e := |history|, EndOf(history, m, o);
    StartsWith(s, EndMark(m), p);
    StartsWith(s, EndMark(m), e);
    assert s[h..h + |Begin(m)|][2] == Begin(m)[2] == 'R';
    assert s[e..e + |EndMark(m)|][9] == '_';
    if OccursAt(s, EndMark(m), p) {
      SliceOfSlice(s, p, p + |EndMark(m)|, 10, 10 + |m|);
      assert OccursAt(s, m, p + 10);
      MarkerOnlyThere(s, history, m, o, p + 10);
    }
  }

  lemma {:induction false} DigitsEndIs(s: string, i: nat, e: nat)
    requires i <= e < |s| && (forall k :: i <= k < e ==> IsDigit(s[k])) && !IsDigit(s[e])
    ensures DigitsEnd(s, i) == e
    decreases e - i
  {
    if i < e {
      DigitsEndIs(s, i + 1, e);
    }
  }

  lemma {:induction false} LineEndIs(s: string, i: nat, e: nat)
    requires i <= e <= |s| && (forall k :: i <= k < e ==> s[k] != '\n') && LineStops(s, e)
    ensures LineEnd(s, i) == e
    decreases e - i
  {
    if i < e {
      LineEndIs(s, i + 1, e);
    }
  }

  lemma EndIsThere(s: string, m: string, e: nat, code: string, f: nat)
    requires var d := e + |EndMark(m)|;
             && f == d + |code| + 2 < |s| && s[e..d] == EndMark(m) && s[d..f - 2] == code && s[f - 2..f] == "__"
             && s[f] == '\n' && LineStart(s, e) && AllDigits(code)
    ensures EndAt(s, e, m) && EndStops(s, e, m) == f && ExitCode(s, e, m) == Value(code)
  {
    var d := e + |EndMark(m)|;
    assert OccursAt(s, EndMark(m), e) && OccursAt(s, "__", f - 2);
    hide EndMark, Value;
    DigitsBetween(s, d, f - 2, code);
  }

  lemma DigitsBetween(s: string, d: nat, e: nat, code: string)
    requires d <= e && e + 2 <= |s| && s[d..e] == code && s[e..e + 2] == "__" && AllDigits(code)
    ensures DigitsEnd(s, d) == e
  {
    forall k | d <= k < e ensures IsDigit(s[k]) {
      assert s[k] == s[d..e][k - d];
    }
    assert s[e] == s[e..e + 2][0];
    DigitsEndIs(s, d, e);
  }

  lemma FindEndIs(s: string, m: string, e: nat)
    requires e < |s| && EndAt(s, e, m) && forall p :: 0 <= p < e ==> !EndAt(s, p, m)
    ensures FindEnd(s, 0, m) == Some(e)
  {
    hide EndAt, FindEnd;
  }

  lemma EndIsFound(s: string, history: string, m: string, o: Outcome)
    requires Framed(s, history, m, o)
    ensures FindEnd(s, 0, m) == Some(EndOf(history, m, o))
    ensures EndStops(s, EndOf(history, m, o), m) == AfterEnd(history, m, o)
    ensures ExitCode(s, EndOf(history, m, o), m) == o.exitCode
  {
    var e, f := EndOf(history, m, o), AfterEnd(history, m, o);
    hide EndStops, ExitCode, FindEnd;
    EndIsThere(s, m, e, Decimal(o.exitCode), f);
    DecimalRoundTrip(o.exitCode);
    forall p | 0 <= p < e ensures !EndAt(s, p, m) {
      NoEarlierEnd(s, history, m, o, p);
      assert EndAt(s, p, m) ==> OccursAt(s, EndMark(m), p);
      hide EndAt;
    }
    assert e < |s|;
    hide Framed, EndAt, EndMark, EndOf, AfterEnd;
    FindEndIs(s, m, e);
  }

  lemma DirectoryIsFound(s: string, history: string, m: string, o: Outcome)
    requires Framed(s, history, m, o)
    ensures FindCwd(s, AfterEnd(history, m, o), m) == Some(AfterEnd(history, m, o) + 1)
    ensures DirectoryAt(s, AfterEnd(history, m, o) + 1, m) == o.cwd
  {
    var f := AfterEnd(history, m, o);
    var c := f + 1 + |CwdMark(m)|;
    StartsWith(s, CwdMark(m), f);
    assert OccursAt(s, CwdMark(m), f + 1);
    assert CwdAt(s, f + 1, m);
    forall k | c <= k < c + |o.cwd| ensures s[k] != '\n' {
      assert s[k] == s[c..c + |o.cwd|][k - c];
    }
    LineEndIs(s, c, c + |o.cwd|);
  }

  /** The BEGIN literal is where the frame begins, and nowhere else before the END line. */
  lemma BeginIsFound(u: string, history: string, m: string, o: Outcome)
    requires Marker(m) && !Contains(history, m) && !Contains(o.output, m)
    requires ShowsOutput(u, history, m, o) && |u| == EndOf(history, m, o)
    ensures LastFrom(u, Begin(m), 0) == Some(|history|)
  {
    var h := |history|;
    assert OccursAt(u, Begin(m), h);
    forall p | OccursAt(u, Begin(m), p) ensures p == h {
      SliceOfSlice(u, p, p + |Begin(m)|, 12, 12 + |m|);
      assert OccursAt(u, m, p + 12);
      MarkerOnlyThere(u, history, m, o, p + 12);
    }
  }

  lemma {:induction false} StripMore(t: string)
    ensures StripNewlines(t + "\n") == StripNewlines(t)
  {
    assert (t + "\n")[..|t|] == t;
  }

  lemma PrefixShows(s: string, history: string, m: string, o: Outcome)
    requires ShowsOutput(s, history, m, o)
    ensures ShowsOutput(s[..EndOf(history, m, o)], history, m, o)
  {
    var h, e, l := |history|, EndOf(history, m, o), |Begin(m)|;
    hide Begin;
    SliceOfSlice(s, 0, e, 0, h);
    SliceOfSlice(s, 0, e, h, h + l);
    SliceOfSlice(s, 0, e, h + l + 1, e - 1);
    assert s[0..e] == s[..e];
  }

  lemma OutputSlice(s: string, history: string, m: string, o: Outcome)
    requires ShowsOutput(s, history, m, o)
    ensures var b := |history| + |Begin(m)|;
            var e := EndOf(history, m, o);
            s[b] == '\n' && s[b + 1..e] == o.output + "\n"
  {
    hide Begin;
    var a, e := |history| + |Begin(m)| + 1, EndOf(history, m, o);
    assert s[a..e] == s[a..e - 1] + [s[e - 1]];
  }

  lemma OutputIsExtracted(s: string, history: string, m: string, o: Outcome)
    requires Framed(s, history, m, o)
    requires EndAt(s, EndOf(history, m, o), m)
    ensures Contains(s[..EndOf(history, m, o)], Begin(m))
    ensures ExtractOutput(s, m, EndOf(history, m, o)) == StripNewlines(o.output)
  {
    var u := s[..EndOf(history, m, o)];
    hide EndAt, LastFrom, ShowsEnd, ShowsOutput, Begin, Contains, StripNewlines;
    PrefixShows(s, history, m, o);
    BeginIsFound(u, history, m, o);
    OutputSlice(s, history, m, o);
    StripMore(o.output);
    FoundContains(u, Begin(m));
  }

  lemma FoundContains(u: string, d: string)
    requires d != ""
    ensures LastFrom(u, d, 0).Some? ==> Contains(u, d)
  {
  }

  /** Whatever the screen shows before and after it, as long as the marker is new to the
      history and to the output: parsing what the wrapper printed gives back the output up to
      final line ends, the exit code and the directory. */
  lemma {:induction false} FramingRoundTrip(history: string, left: string, right: string, program: string, o: Outcome,
                         trailing: string)
    requires Half(left) && Half(right) && '\n' !in o.cwd
    requires !Contains(history, left + right) && !Contains(o.output, left + right)
    ensures Parse(history + Printed(left, right, program, o) + trailing, left + right)
         == Ok(Parsed(StripNewlines(o.output), o.exitCode, o.cwd))
  {
    var m := left + right;
    hide *;
    PrintedIsFrame(left, right, program, o);
    FrameIsFramed(history, m, o, trailing) by {
      TwoHalves(left, right);
    }
    ParseFramed(history + Frame(m, o) + trailing, history, m, o);
  }

  lemma TwoHalves(left: string, right: string)
    requires Half(left) && Half(right)
    ensures Marker(left + right)
  {
  }

  lemma FrameIsFramed(history: string, m: string, o: Outcome, trailing: string)
    requires Marker(m) && !Contains(history, m) && !Contains(o.output, m) && '\n' !in o.cwd
    ensures Framed(history + Frame(m, o) + trailing, history, m, o)
  {
    FrameShowsOutput(history, m, o, trailing);
    FrameShowsEnd(history, m, o, trailing);
    hide Frame, ShowsOutput, ShowsEnd;
  }

  lemma ParseFramed(s: string, history: string, m: string, o: Outcome)
    requires Framed(s, history, m, o)
    ensures Parse(s, m) == Ok(Parsed(StripNewlines(o.output), o.exitCode, o.cwd))
  {
    hide Framed, EndMark, CwdMark, Begin, EndAt, CwdAt, ExtractOutput, ExitCode, DirectoryAt, EndStops;
    hide FindEnd, FindCwd, EndOf, AfterEnd, Find;
    EndIsFound(s, history, m, o);
    DirectoryIsFound(s, history, m, o);
    OutputIsExtracted(s, history, m, o);
  }

  // ---------------------------------------------------------------------------
  // Output of commands that have not finished.

  /** `text` is what the screen shows between a BEGIN literal, with no other one after it, and
      the first END line after that, or else the end of the screen. */
  ghost predicate Between(s: string, m: string, text: string, b: nat, e: nat) {
    var start := if OccursAt(s, Begin(m) + "\n", b) then b + |Begin(m)| + 1 else b + |Begin(m)|;
    && OccursAt(s, Begin(m), b) && start <= e <= |s|
    && (e == |s| || EndAt(s, e, m))
    && (forall p :: start <= p < e ==> !EndAt(s, p, m))
    && (forall p :: b + |Begin(m)| <= p && p + |Begin(m)| <= e ==> !OccursAt(s, Begin(m), p))
    && text == StripNewlines(s[start..e])
  }

  lemma AfterBeginIs(s: string, m: string, b: nat)
    requires OccursAt(s, Begin(m), b)
    ensures AfterBegin(s, b, m) == if OccursAt(s, Begin(m) + "\n", b) then b + |Begin(m)| + 1 else b + |Begin(m)|
  {
    hide Begin;
    OccursInParts(s, Begin(m), "\n", b);
    var e := b + |Begin(m)|;
    if e < |s| { assert s[e..e + 1] == [s[e]]; }
  }

  ghost predicate Attributable(s: string, m: string, text: string) {
    exists b: nat, e: nat :: Between(s, m, text, b, e)
  }

  /** The same, and the BEGIN literal is the last on the whole screen. */
  ghost predicate Latest(s: string, m: string, text: string) {
    exists b: nat, e: nat :: Between(s, m, text, b, e) && LastFrom(s, Begin(m), 0) == Some(b)
  }

  /** Partial output is attributable, and there is some exactly when BEGIN is on the screen. */
  lemma PartialIsAttributable(s: string, m: string)
    ensures Partial(s, m).None? <==> !Contains(s, Begin(m))
    ensures Partial(s, m).Some? ==> Latest(s, m, Partial(s, m).value)
  {
    var b := LastFrom(s, Begin(m), 0);
    if b.Some? {
      var start := AfterBegin(s, b.value, m);
      AfterBeginIs(s, m, b.value);
      var e := FindEnd(s, start, m);
      hide EndAt, LastFrom, FindEnd, Begin;
      assert Between(s, m, Partial(s, m).value, b.value, if e.Some? then e.value else |s|);
    }
  }

  lemma OccursInPrefix(s: string, e: nat, d: string, p: int)
    requires e <= |s| && 0 <= p && p + |d| <= e
    ensures OccursAt(s, d, p) <==> OccursAt(s[..e], d, p)
  {
    SliceOfSlice(s, 0, e, p, p + |d|);
    assert s[0..e] == s[..e];
  }

  lemma ExtractedIsAttributable(s: string, m: string, e: nat)
    requires EndAt(s, e, m) && (forall p :: 0 <= p < e ==> !EndAt(s, p, m)) && Contains(s[..e], Begin(m))
    ensures Attributable(s, m, ExtractOutput(s, m, e))
  {
    EndStarts(s, m, e);
    var u := s[..e];
    var b := LastFrom(u, Begin(m), 0).value;
    OccursInPrefix(s, e, Begin(m), b);
    AfterBeginIs(s, m, b);
    hide EndAt, LastFrom, Begin;
    OccursInPrefix(s, e, Begin(m), b);
    forall p | b + |Begin(m)| <= p && p + |Begin(m)| <= e ensures !OccursAt(s, Begin(m), p) {
      OccursInPrefix(s, e, Begin(m), p);
      assert !OccursAt(u, Begin(m), p);
    }
    hide OccursAt;
    assert Between(s, m, ExtractOutput(s, m, e), b, e);
  }

  /** So is the output of a finished command. */
  lemma ParsedIsAttributable(s: string, m: string)
    requires Parse(s, m).Ok?
    ensures Attributable(s, m, Parse(s, m).value.output)
  {
    hide EndAt, CwdAt, FindEnd, FindCwd, ExtractOutput, Attributable, Begin, Find, ExitCode, DirectoryAt;
    ExtractedIsAttributable(s, m, Completion(s, m).value.0);
  }

  lemma EndStarts(s: string, m: string, e: nat)
    requires EndAt(s, e, m)
    ensures OccursAt(s, EndMark(m), e) && s[e] == '_'
  {
    StartsWith(s, EndMark(m), e);
  }

  /** A screen that is cut inside the output shows what has been printed so far, up to final
      line ends. */
  lemma {:induction false} PartialOfCut(history: string, m: string, output: string, k: nat)
    requires Marker(m) && !Contains(history, m) && !Contains(output, m) && k <= |output|
    ensures Partial(history + Begin(m) + "\n" + output[..k], m) == Some(StripNewlines(output[..k]))
  {
    var cut := output[..k];
    var s := history + Begin(m) + "\n" + cut;
    var o := Outcome(cut, 0, "");
    SliceContains(output, 0, k, m);
    assert output[0..k] == cut;
    var t := s + "\n";
    CutShows(history, m, o);
    var h := |history|;
    assert s == history + Begin(m) + ("\n" + cut);
    PartAt(s, history, Begin(m), "\n" + cut);
    assert OccursAt(s, Begin(m), h);
    forall p | OccursAt(s, Begin(m), p) ensures p == h {
      MarkIn(s, t, "__RSM_BEGIN_", m, "__", p);
      MarkerOnlyThere(t, history, m, o, p + 12);
    }
    forall p | OccursAt(s, EndMark(m), p) ensures p == h + 2 {
      MarkIn(s, t, "__RSM_END_", m, "_", p);
      MarkerOnlyThere(t, history, m, o, p + 10);
    }
    PartAt(s, history + Begin(m) + "\n", cut, "");
    assert s[h + |Begin(m)|..h + |Begin(m)| + 1] == "\n" by { PartAt(s, history + Begin(m), "\n", cut); }
    CutParses(s, m, h);
  }

  lemma CutShows(history: string, m: string, o: Outcome)
    ensures ShowsOutput(history + Begin(m) + "\n" + o.output + "\n", history, m, o)
  {
    var s := history + Begin(m) + "\n" + o.output + "\n";
    hide Begin;
    assert s == history + Begin(m) + ("\n" + o.output + "\n");
    assert s == (history + Begin(m) + "\n") + o.output + "\n";
  }

  /** The marker inside a marker literal, on a longer screen. */
  lemma MarkIn(s: string, t: string, before: string, m: string, after: string, p: int)
    requires s <= t && OccursAt(s, before + m + after, p)
    ensures OccursAt(t, m, p + |before|)
  {
    SliceOfSlice(s, p, p + |before + m + after|, |before|, |before| + |m|);
    PartAt(before + m + after, before, m, after);
    assert t[p + |before|..p + |before| + |m|] == s[p + |before|..p + |before| + |m|];
  }

  lemma CutParses(s: string, m: string, h: nat)
    requires OccursAt(s, Begin(m), h) && h + |Begin(m)| < |s| && s[h + |Begin(m)|] == '\n'
    requires forall p :: OccursAt(s, Begin(m), p) ==> p == h
    requires forall p :: OccursAt(s, EndMark(m), p) ==> p == h + 2
    ensures Partial(s, m) == Some(StripNewlines(s[h + |Begin(m)| + 1..]))
  {
    assert LastFrom(s, Begin(m), 0) == Some(h);
    var start := h + |Begin(m)| + 1;
    assert forall p :: start <= p ==> !EndAt(s, p, m);
    assert FindEnd(s, start, m).None?;
    assert s[start..|s|] == s[start..];
  }

  // ---------------------------------------------------------------------------
  // What a capture says about a finished command.

  /** An END line with these digits begins at `p`. */
  predicate EndLine(s: string, m: string, p: nat, digits: string) {
    var e := p + |EndMark(m) + digits + "__"|;
    && AllDigits(digits) && OccursAt(s, EndMark(m) + digits + "__", p)
    && (p == 0 || s[p - 1] == '\n') && (e == |s| || s[e] == '\n')
  }

  /** A CWD line with this directory begins at `p`. */
  predicate CwdLine(s: string, m: string, p: nat, directory: string) {
    var e := p + |CwdMark(m) + directory|;
    && '\n' !in directory && OccursAt(s, CwdMark(m) + directory, p)
    && (p == 0 || s[p - 1] == '\n') && (e == |s| || s[e] == '\n')
  }

  lemma OccursInParts(s: string, a: string, b: string, p: nat)
    ensures OccursAt(s, a + b, p) <==> OccursAt(s, a, p) && OccursAt(s, b, p + |a|)
  {
    if p + |a| + |b| <= |s| {
      var t := s[p..p + |a| + |b|];
      assert s[p..p + |a|] == t[..|a|] && s[p + |a|..p + |a| + |b|] == t[|a|..];
      assert t == t[..|a|] + t[|a|..];
      PrefixBefore(a, b);
    }
  }

  /** The END pattern matches exactly where there is such a line, and the exit code is the number
      that its digits show. */
  lemma EndAtIff(s: string, m: string, p: nat)
    ensures EndAt(s, p, m) <==> exists digits :: EndLine(s, m, p, digits)
    ensures forall digits :: EndLine(s, m, p, digits) ==>
              && EndAt(s, p, m) && ExitCode(s, p, m) == Value(digits)
              && EndStops(s, p, m) == p + |EndMark(m) + digits + "__"|
  {
    hide EndMark;
    if EndAt(s, p, m) {
      var d := DigitsStart(p, m);
      var e := DigitsEnd(s, d);
      var digits := s[d..e];
      OccursInParts(s, EndMark(m), digits, p);
      OccursInParts(s, EndMark(m) + digits, "__", p);
      assert EndLine(s, m, p, digits);
    }
    forall digits | EndLine(s, m, p, digits)
      ensures EndAt(s, p, m) && ExitCode(s, p, m) == Value(digits)
      ensures EndStops(s, p, m) == p + |EndMark(m) + digits + "__"|
    {
      EndLineIsThere(s, m, p, digits);
    }
  }

  lemma EndLineIsThere(s: string, m: string, p: nat, digits: string)
    requires EndLine(s, m, p, digits)
    ensures EndAt(s, p, m) && ExitCode(s, p, m) == Value(digits)
    ensures EndStops(s, p, m) == p + |EndMark(m) + digits + "__"|
  {
    hide EndMark;
    OccursInParts(s, EndMark(m), digits, p);
    OccursInParts(s, EndMark(m) + digits, "__", p);
    var d := DigitsStart(p, m);
    var e := d + |digits|;
    assert s[d..e] == digits && s[e..e + 2] == "__";
    assert s[e] == s[e..e + 2][0];
    DigitsEndIs(s, d, e);
  }

  lemma CwdAtIff(s: string, m: string, p: nat)
    ensures CwdAt(s, p, m) <==> exists directory :: CwdLine(s, m, p, directory)
    ensures forall directory :: CwdLine(s, m, p, directory) ==> CwdAt(s, p, m) && DirectoryAt(s, p, m) == directory
  {
    hide CwdMark;
    if CwdAt(s, p, m) {
      var directory := DirectoryAt(s, p, m);
      OccursInParts(s, CwdMark(m), directory, p);
      assert CwdLine(s, m, p, directory);
    }
    forall directory | CwdLine(s, m, p, directory) ensures CwdAt(s, p, m) && DirectoryAt(s, p, m) == directory {
      OccursInParts(s, CwdMark(m), directory, p);
      var d := p + |CwdMark(m)|;
      assert s[d..d + |directory|] == directory;
      LineEndIs(s, d, d + |directory|);
    }
  }

  /** A finished command: its first END line, and the first CWD line after that. */
  ghost predicate Finished(s: string, m: string, e: nat, digits: string, c: nat, directory: string) {
    && EndLine(s, m, e, digits)
    && (forall p: nat, other :: p < e ==> !EndLine(s, m, p, other))
    && CwdLine(s, m, c, directory) && e + |EndMark(m) + digits + "__"| <= c
    && (forall p: nat, other :: e + |EndMark(m) + digits + "__"| <= p < c ==> !CwdLine(s, m, p, other))
  }

  ghost predicate Finishes(s: string, m: string) {
    exists e: nat, digits, c: nat, directory :: Finished(s, m, e, digits, c, directory)
  }

  lemma CompletionIff(s: string, m: string)
    ensures Completion(s, m).Some? <==> Finishes(s, m)
    ensures forall e: nat, digits, c: nat, directory :: Finished(s, m, e, digits, c, directory) ==>
              && Completion(s, m) == Some((e, c)) && EndAt(s, e, m) && CwdAt(s, c, m)
              && ExitCode(s, e, m) == Value(digits) && DirectoryAt(s, c, m) == directory
  {
    if Completion(s, m).Some? {
      CompletedFinishes(s, m);
    }
    forall e: nat, digits, c: nat, directory | Finished(s, m, e, digits, c, directory)
      ensures Completion(s, m) == Some((e, c)) && EndAt(s, e, m) && CwdAt(s, c, m)
      ensures ExitCode(s, e, m) == Value(digits) && DirectoryAt(s, c, m) == directory
    {
      FinishedMeans(s, m, e, digits, c, directory);
    }
  }

  lemma CompletedFinishes(s: string, m: string)
    requires Completion(s, m).Some?
    ensures Finishes(s, m)
  {
    var e, c := Completion(s, m).value.0, Completion(s, m).value.1;
    CompletionIsFirst(s, m);
    hide Completion, EndAt, CwdAt, EndLine, CwdLine, ExitCode, DirectoryAt, EndStops, EndMark;
    EndAtIff(s, m, e);
    CwdAtIff(s, m, c);
    var digits :| EndLine(s, m, e, digits);
    var directory :| CwdLine(s, m, c, directory);
    forall p: nat, other | p < e ensures !EndLine(s, m, p, other) { EndAtIff(s, m, p); }
    forall p: nat, other | EndStops(s, e, m) <= p < c ensures !CwdLine(s, m, p, other) { CwdAtIff(s, m, p); }
    assert Finished(s, m, e, digits, c, directory);
  }

  lemma CompletionIsFirst(s: string, m: string)
    requires Completion(s, m).Some?
    ensures var e, c := Completion(s, m).value.0, Completion(s, m).value.1;
            && (forall p: nat :: p < e ==> !EndAt(s, p, m)) && EndStops(s, e, m) <= c
            && (forall p: nat :: EndStops(s, e, m) <= p < c ==> !CwdAt(s, p, m))
  {
    hide EndAt, CwdAt, EndStops;
  }

  lemma FinishedMeans(s: string, m: string, e: nat, digits: string, c: nat, directory: string)
    requires Finished(s, m, e, digits, c, directory)
    ensures Completion(s, m) == Some((e, c)) && EndAt(s, e, m) && CwdAt(s, c, m)
    ensures ExitCode(s, e, m) == Value(digits) && DirectoryAt(s, c, m) == directory
  {
    EndAtIff(s, m, e);
    CwdAtIff(s, m, c);
    assert AllDigits(digits);
    hide Completion, EndAt, CwdAt, EndLine, CwdLine, ExitCode, DirectoryAt, EndStops, EndMark;
    forall p: nat | p < e ensures !EndAt(s, p, m) { EndAtIff(s, m, p); }
    forall p: nat | EndStops(s, e, m) <= p < c ensures !CwdAt(s, p, m) { CwdAtIff(s, m, p); }
    FirstMatches(s, m, e, c);
  }

  lemma FirstMatches(s: string, m: string, e: nat, c: nat)
    requires EndAt(s, e, m) && (forall p: nat :: p < e ==> !EndAt(s, p, m)) && EndStops(s, e, m) <= c
    requires CwdAt(s, c, m) && (forall p: nat :: EndStops(s, e, m) <= p < c ==> !CwdAt(s, p, m))
    ensures Completion(s, m) == Some((e, c))
  {
    hide EndAt, CwdAt;
  }

  /** What the final capture gives, told by its lines alone. */
  lemma ParseIff(s: string, m: string)
    ensures Parse(s, m) == Err(MarkersLost) <==> !Finishes(s, m)
    ensures forall e: nat, digits, c: nat, directory :: Finished(s, m, e, digits, c, directory) ==>
              if Contains(s[..e], Begin(m)) then
                Parse(s, m).Ok? && Parse(s, m).value.exitCode == Value(digits) && Parse(s, m).value.cwd == directory
              else Parse(s, m) == Err(BeginLost)
  {
    CompletionIff(s, m);
    hide Finished, Completion, EndAt, CwdAt, ExitCode, DirectoryAt, ExtractOutput, Begin;
  }
}
