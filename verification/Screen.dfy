/** Parsing a captured screen: which command output it shows, and whether it is complete. */
module Screen {
  import opened Common
  import opened Text
  import opened Framing

  // ---------------------------------------------------------------------------
  // The marker lines.

  predicate LineStart(s: string, p: int) {
    p == 0 || (0 < p <= |s| && s[p - 1] == '\n')
  }

  predicate LineStops(s: string, p: int) {
    p == |s| || (0 <= p < |s| && s[p] == '\n')
  }

  function DigitsEnd(s: string, i: nat): (e: nat)
    requires i <= |s|
    ensures i <= e <= |s| && forall k :: i <= k < e ==> IsDigit(s[k])
    ensures e < |s| ==> !IsDigit(s[e])
    decreases |s| - i
  {
    if i < |s| && IsDigit(s[i]) then DigitsEnd(s, i + 1) else i
  }

  function LineEnd(s: string, i: nat): (e: nat)
    requires i <= |s|
    ensures i <= e <= |s| && (forall k :: i <= k < e ==> s[k] != '\n') && LineStops(s, e)
    decreases |s| - i
  {
    if i < |s| && s[i] != '\n' then LineEnd(s, i + 1) else i
  }

  /** Where the digits of an END line at `p` are. */
  function DigitsStart(p: int, m: string): int {
    p + |EndMark(m)|
  }

  /** The END pattern matches at `p`, alone on its line. */
  predicate EndAt(s: string, p: int, m: string) {
    && LineStart(s, p) && OccursAt(s, EndMark(m), p)
    && var d := DigitsStart(p, m);
       var e := DigitsEnd(s, d);
       d < e && OccursAt(s, "__", e) && LineStops(s, e + 2)
  }

  function ExitCode(s: string, p: int, m: string): nat
    requires EndAt(s, p, m)
  {
    Value(s[DigitsStart(p, m)..DigitsEnd(s, DigitsStart(p, m))])
  }

  function EndStops(s: string, p: int, m: string): (e: nat)
    requires EndAt(s, p, m)
    ensures p < e <= |s|
  {
    DigitsEnd(s, DigitsStart(p, m)) + 2
  }

  /** The CWD pattern matches at `p`; the directory is the rest of the line. */
  predicate CwdAt(s: string, p: int, m: string) {
    LineStart(s, p) && OccursAt(s, CwdMark(m), p)
  }

  function DirectoryAt(s: string, p: int, m: string): string
    requires CwdAt(s, p, m)
  {
    s[p + |CwdMark(m)|..LineEnd(s, p + |CwdMark(m)|)]
  }

  /** `end_re.search(s, i)`. */
  function FindEnd(s: string, i: nat, m: string): (r: Option<nat>)
    requires i <= |s|
    ensures r.Some? ==> i <= r.value < |s| && EndAt(s, r.value, m)
    ensures r.Some? ==> forall j :: i <= j < r.value ==> !EndAt(s, j, m)
    ensures r.None? ==> forall j :: i <= j ==> !EndAt(s, j, m)
    decreases |s| - i
  {
    if i == |s| then None
    else if EndAt(s, i, m) then Some(i)
    else FindEnd(s, i + 1, m)
  }

  function FindCwd(s: string, i: nat, m: string): (r: Option<nat>)
    requires i <= |s|
    ensures r.Some? ==> i <= r.value < |s| && CwdAt(s, r.value, m)
    ensures r.Some? ==> forall j :: i <= j < r.value ==> !CwdAt(s, j, m)
    ensures r.None? ==> forall j :: i <= j ==> !CwdAt(s, j, m)
    decreases |s| - i
  {
    if i == |s| then None
    else if CwdAt(s, i, m) then Some(i)
    else FindCwd(s, i + 1, m)
  }

  /** The last of the matches that `finditer` goes through from `i` on. */
  function LastFrom(s: string, d: string, i: nat): (r: Option<nat>)
    requires i <= |s| && d != ""
    ensures r.Some? ==> i <= r.value && OccursAt(s, d, r.value)
    ensures r.Some? ==> forall j :: r.value + |d| <= j ==> !OccursAt(s, d, j)
    ensures r.None? ==> forall j :: i <= j ==> !OccursAt(s, d, j)
    decreases |s| - i
  {
    var k := FindFrom(s, d, i);
    if k.None? then None
    else
      var later := LastFrom(s, d, k.value + |d|);
      if later.Some? then later else k
  }

  function AfterBegin(s: string, b: nat, m: string): (e: nat)
    requires OccursAt(s, Begin(m), b)
    ensures b < e <= |s|
  {
    var e := b + |Begin(m)|;
    if e < |s| && s[e] == '\n' then e + 1 else e
  }

  // ---------------------------------------------------------------------------
  // The parsers.

  datatype Parsed = Parsed(output: string, exitCode: nat, cwd: string)

  datatype ParseError = MarkersLost | BeginLost

  /** Where the END line and the directory line of a finished command are. */
  function Completion(s: string, m: string): (r: Option<(nat, nat)>)
    ensures r.Some? ==> EndAt(s, r.value.0, m) && CwdAt(s, r.value.1, m)
  {
    var e := FindEnd(s, 0, m);
    if e.None? then None
    else
      var c := FindCwd(s, EndStops(s, e.value, m), m);
      if c.None? then None else Some((e.value, c.value))
  }

  /** `_extract_output`, once some BEGIN is known to come before the END line. */
  function ExtractOutput(s: string, m: string, end: nat): string
    requires EndAt(s, end, m) && Contains(s[..end], Begin(m))
  {
    var b := LastFrom(s[..end], Begin(m), 0).value;
    assert OccursAt(s, Begin(m), b) by { assert s[..end][b..b + |Begin(m)|] == s[b..b + |Begin(m)|]; }
    assert s[end] == EndMark(m)[0];
    StripNewlines(s[AfterBegin(s, b, m)..end])
  }

  /** What `run_in_pane` makes of the final capture. */
  function Parse(s: string, m: string): Result<Parsed, ParseError> {
    var c := Completion(s, m);
    if c.None? then Err(MarkersLost)
    else if Find(s[..c.value.0], Begin(m)).None? then Err(BeginLost)
    else
      Ok(Parsed(ExtractOutput(s, m, c.value.0), ExitCode(s, c.value.0, m), DirectoryAt(s, c.value.1, m)))
  }

  /** `_extract_partial_output`. */
  function Partial(s: string, m: string): Option<string> {
    var b := LastFrom(s, Begin(m), 0);
    if b.None? then None
    else
      var start := AfterBegin(s, b.value, m);
      var e := FindEnd(s, start, m);
      Some(StripNewlines(s[start..if e.Some? then e.value else |s|]))
  }
}
