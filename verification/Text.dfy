/** Python's string operations that the tools rely on: `replace`, `count`, `split` and
    `join`, stripping, white space, and decimal numbers. */
module Text {
  import opened Common

  // ---------------------------------------------------------------------------
  // Pieces.

  function Join(parts: seq<string>, sep: string): string {
    if parts == [] then ""
    else if |parts| == 1 then parts[0]
    else parts[0] + sep + Join(parts[1..], sep)
  }

  /** `s.split(gap)`, from the left and without overlaps. */
  function Split(s: string, gap: string): (parts: seq<string>)
    requires gap != ""
    ensures parts != []
    decreases |s|
  {
    var k := Find(s, gap);
    if k.None? then [s] else [s[..k.value]] + Split(s[k.value + |gap|..], gap)
  }

  /** `s.replace(gap, new)`. */
  function Replace(s: string, gap: string, fill: string): string
    requires gap != ""
    decreases |s|
  {
    var k := Find(s, gap);
    if k.None? then s else s[..k.value] + fill + Replace(s[k.value + |gap|..], gap, fill)
  }

  /** `s.count(gap)`. */
  function Count(s: string, gap: string): (n: nat)
    requires gap != ""
    ensures n == 0 <==> !Contains(s, gap)
    decreases |s|
  {
    var k := Find(s, gap);
    if k.None? then 0 else 1 + Count(s[k.value + |gap|..], gap)
  }

  /** Replacing is splitting and joining; joining with `gap` itself changes nothing. */
  lemma {:induction false} ReplaceIsJoinOfSplit(s: string, gap: string, fill: string)
    requires gap != ""
    ensures Replace(s, gap, fill) == Join(Split(s, gap), fill)
    ensures |Split(s, gap)| == Count(s, gap) + 1
    decreases |s|
  {
    hide Find;
    var k := Find(s, gap);
    if k.Some? {
      var rest := s[k.value + |gap|..];
      ReplaceIsJoinOfSplit(rest, gap, fill);
      assert Split(s, gap)[1..] == Split(rest, gap);
    }
  }

  /** Where the gap is not, the first character stays. */
  lemma ReplaceStep(s: string, gap: string, fill: string)
    requires gap != "" && s != ""
    ensures Replace(s, gap, fill) ==
            if OccursAt(s, gap, 0) then fill + Replace(s[|gap|..], gap, fill)
            else [s[0]] + Replace(s[1..], gap, fill)
  {
    hide *;
    if OccursAt(s, gap, 0) {
      FindIs(s, gap, 0);
      ReplaceUnfolds(s, gap, fill);
      NothingBefore(fill);
    } else {
      FindLater(s, gap);
      ReplaceUnfolds(s, gap, fill);
      ReplaceUnfolds(s[1..], gap, fill);
      var k := Find(s[1..], gap);
      if k.Some? {
        FoundFits(s[1..], gap);
        LaterSlices(s, k.value, |gap|);
        var later := Replace(s[1..][k.value + |gap|..], gap, fill);
        Associates([s[0]], s[1..][..k.value], fill);
        Associates([s[0]], s[1..][..k.value] + fill, later);
      } else {
        FirstApart(s);
      }
    }
  }

  lemma ReplaceUnfolds(s: string, gap: string, fill: string)
    requires gap != ""
    ensures Replace(s, gap, fill) == match Find(s, gap)
              case None => s
              case Some(k) => s[..k] + fill + Replace(s[k + |gap|..], gap, fill)
  {
  }

  lemma FoundFits(s: string, d: string)
    requires Find(s, d).Some?
    ensures Find(s, d).value + |d| <= |s|
  {
  }

  lemma LaterSlices(s: string, k: nat, g: nat)
    requires k + g + 1 <= |s|
    ensures s[..k + 1] == [s[0]] + s[1..][..k] && s[k + 1 + g..] == s[1..][k + g..]
  {
  }

  lemma FirstApart(s: string)
    requires s != ""
    ensures s == [s[0]] + s[1..]
  {
  }

  lemma FindLater(s: string, d: string)
    requires s != "" && !OccursAt(s, d, 0)
    ensures Find(s, d) == match Find(s[1..], d) case None => None case Some(k) => Some(k + 1)
  {
    forall i | 0 <= i ensures OccursAt(s[1..], d, i) <==> OccursAt(s, d, i + 1) {
      if i + 1 + |d| <= |s| {
        assert s[1..][i..i + |d|] == s[i + 1..i + 1 + |d|];
      }
    }
    var k := Find(s[1..], d);
    if k.Some? {
      forall j | 0 <= j < k.value + 1 ensures !OccursAt(s, d, j) {
        assert j > 0 ==> !OccursAt(s[1..], d, j - 1);
      }
      FindIs(s, d, k.value + 1);
    } else {
      forall j ensures !OccursAt(s, d, j) {
        assert j > 0 ==> !OccursAt(s[1..], d, j - 1);
      }
    }
  }

  lemma {:induction false} PiecesHaveNo(s: string, gap: string)
    requires gap != ""
    ensures forall p :: p in Split(s, gap) ==> !Contains(p, gap)
    decreases |s|
  {
    var k := Find(s, gap);
    if k.Some? {
      PiecesHaveNo(s[k.value + |gap|..], gap);
      FirstPieceHasNo(s, k.value, gap);
    }
  }

  lemma FirstPieceHasNo(s: string, k: nat, gap: string)
    requires k <= |s| && forall j :: 0 <= j < k ==> !OccursAt(s, gap, j)
    requires gap != ""
    ensures !Contains(s[..k], gap)
  {
    forall i
      ensures OccursAt(s[..k], gap, i) ==> OccursAt(s, gap, i)
    {
      assert OccursAt(s[..k], gap, i) ==> s[..k][i..i + |gap|] == s[i..i + |gap|];
    }
  }

  lemma {:induction false} JoinOfSplit(s: string, gap: string)
    requires gap != ""
    ensures Join(Split(s, gap), gap) == s
    decreases |s|
  {
    var k := Find(s, gap);
    if k.Some? {
      var rest := s[k.value + |gap|..];
      JoinOfSplit(rest, gap);
      assert Split(s, gap)[1..] == Split(rest, gap);
      hide Find;
      ThreeParts(s, k.value, k.value + |gap|);
    }
  }

  lemma ThreeParts(s: string, a: nat, b: nat)
    requires a <= b <= |s|
    ensures s == s[..a] + s[a..b] + s[b..]
  {
  }

  // ---------------------------------------------------------------------------
  // What a word cannot be split over.

  /** No character of `s` belongs to `word`. */
  predicate Outside(s: string, word: string) {
    forall c :: c in s ==> c !in word
  }

  lemma ShortHasNo(s: string, word: string)
    requires |s| < |word|
    ensures !Contains(s, word)
  {
  }

  /** Text around a piece that `word` does not use. */
  lemma ContainsAround(a: string, sep: string, b: string, word: string)
    requires sep != "" && Outside(sep, word) && word != ""
    requires !Contains(a, word) && !Contains(b, word)
    ensures !Contains(a + sep + b, word)
    decreases |sep|
  {
    var c, rest := sep[0], sep[1..];
    assert c in sep;
    if rest == "" {
      ContainsSplit(a, c, b, word);
      assert sep == [c];
    } else {
      assert forall d :: d in rest ==> d in sep;
      ContainsAround("", rest, b, word) by {
        assert Contains("", word) ==> exists i :: OccursAt("", word, i);
      }
      ContainsSplit(a, c, "" + rest + b, word);
      assert a + sep + b == a + [c] + ("" + rest + b);
    }
  }

  lemma {:induction false} JoinHasNo(parts: seq<string>, sep: string, word: string)
    requires sep != "" && Outside(sep, word) && word != ""
    requires forall p :: p in parts ==> !Contains(p, word)
    ensures !Contains(Join(parts, sep), word)
  {
    if |parts| == 1 {
      assert parts[0] in parts;
    } else if |parts| > 1 {
      JoinHasNo(parts[1..], sep, word);
      ContainsAround(parts[0], sep, Join(parts[1..], sep), word);
    } else {
      assert !Contains("", word);
    }
  }

  lemma SliceContains(s: string, a: nat, b: nat, word: string)
    requires a <= b <= |s|
    ensures Contains(s[a..b], word) ==> Contains(s, word)
  {
    forall i | OccursAt(s[a..b], word, i)
      ensures Contains(s, word)
    {
      SliceOfSlice(s, a, b, i, i + |word|);
      assert OccursAt(s, word, a + i);
    }
  }

  lemma SliceHas(s: string, a: nat, b: nat, word: string, i: int)
    requires a <= b <= |s|
    ensures OccursAt(s, word, i) && a <= i && i + |word| <= b ==> Contains(s[a..b], word)
  {
    if OccursAt(s, word, i) && a <= i && i + |word| <= b {
      SliceOfSlice(s, a, b, i - a, i - a + |word|);
      assert OccursAt(s[a..b], word, i - a);
    }
  }

  /** Replacing by text that the word does not use cannot make the word appear. */
  lemma {:induction false} ReplaceHasNo(s: string, gap: string, fill: string, word: string)
    requires gap != "" && fill != "" && Outside(fill, word) && word != "" && !Contains(s, word)
    ensures !Contains(Replace(s, gap, fill), word)
    decreases |s|
  {
    var k := Find(s, gap);
    if k.Some? {
      SliceContains(s, 0, k.value, word);
      SliceContains(s, k.value + |gap|, |s|, word);
      assert s[k.value + |gap|..|s|] == s[k.value + |gap|..];
      assert s[0..k.value] == s[..k.value];
      ReplaceHasNo(s[k.value + |gap|..], gap, fill, word);
      ContainsAround(s[..k.value], fill, Replace(s[k.value + |gap|..], gap, fill), word);
    }
  }

  /** An occurrence, character by character. */
  lemma OccursChars(s: string, d: string, i: int)
    ensures OccursAt(s, d, i) ==> forall k {:trigger d[k]} :: 0 <= k < |d| ==> s[i + k] == d[k]
  {
    if OccursAt(s, d, i) {
      forall k {:trigger d[k]} | 0 <= k < |d| ensures s[i + k] == d[k] {
        assert s[i..i + |d|][k] == d[k];
      }
    }
  }

  // ---------------------------------------------------------------------------
  // Stripping.

  /** `s.rstrip("\n")`. */
  function StripNewlines(s: string): (r: string)
    ensures r <= s
    ensures forall i :: |r| <= i < |s| ==> s[i] == '\n'
    ensures r != "" ==> r[|r| - 1] != '\n'
  {
    if s != "" && s[|s| - 1] == '\n' then StripNewlines(s[..|s| - 1]) else s
  }

  /** The result is determined by these properties. */
  lemma {:induction false} StripNewlinesIs(s: string, r: string)
    requires r <= s && (forall i :: |r| <= i < |s| ==> s[i] == '\n') && (r != "" ==> r[|r| - 1] != '\n')
    ensures StripNewlines(s) == r
  {
    if |s| == |r| {
      assert s == r;
    } else {
      assert s[|s| - 1] == '\n';
      StripNewlinesIs(s[..|s| - 1], r);
    }
  }

  /** Python's `str.isspace`. */
  predicate IsSpace(c: char) {
    || c == ' ' || '\t' <= c <= '\r' || '\U{1c}' <= c <= '\U{1f}' || c == '\U{85}' || c == '\U{a0}'
    || c == '\U{1680}' || '\U{2000}' <= c <= '\U{200a}' || c == '\U{2028}' || c == '\U{2029}'
    || c == '\U{202f}' || c == '\U{205f}' || c == '\U{3000}'
  }

  const WHITE_SPACE :=
    "\t\n\U{b}\U{c}\r\U{1c}\U{1d}\U{1e}\U{1f} \U{85}\U{a0}\U{1680}\U{2000}\U{2001}\U{2002}\U{2003}\U{2004}" +
    "\U{2005}\U{2006}\U{2007}\U{2008}\U{2009}\U{200a}\U{2028}\U{2029}\U{202f}\U{205f}\U{3000}"

  const LINE_BREAKS := "\n\U{b}\U{c}\r\U{1c}\U{1d}\U{1e}\U{85}\U{2028}\U{2029}"

  /** The 29 characters of white space, and the ten of them that end a line. */
  lemma SpacesAre(c: char)
    ensures |WHITE_SPACE| == 29 && (IsSpace(c) <==> c in WHITE_SPACE)
    ensures |LINE_BREAKS| == 10 && (BreaksLine(c) <==> c in LINE_BREAKS)
  {
  }

  /** `s.strip()`. */
  function Strip(s: string): string {
    if s != "" && IsSpace(s[0]) then Strip(s[1..])
    else if s != "" && IsSpace(s[|s| - 1]) then Strip(s[..|s| - 1])
    else s
  }

  /** White space goes at both ends, and nothing else. */
  lemma {:induction false} StripIs(a: string, r: string, b: string)
    requires Blank(a) && Blank(b) && (r != "" ==> !IsSpace(r[0]) && !IsSpace(r[|r| - 1]))
    ensures Strip(a + r + b) == r
    decreases |a| + |b|
  {
    hide IsSpace;
    var s := a + r + b;
    if a != "" {
      assert s[0] == a[0] && a[0] in a && s[1..] == a[1..] + r + b;
      StripIs(a[1..], r, b);
    } else if b != "" {
      var init := b[..|b| - 1];
      assert b[|b| - 1] in b && b[0] in b && s[|s| - 1] == b[|b| - 1];
      if r == "" {
        assert s == b && s[1..] == "" + "" + b[1..];
        StripIs("", "", b[1..]);
      } else {
        assert s[0] == r[0] && s[..|s| - 1] == "" + r + init;
        StripIs("", r, init);
      }
    } else {
      assert s == r;
    }
  }

  predicate Blank(s: string) {
    forall c :: c in s ==> IsSpace(c)
  }

  // ---------------------------------------------------------------------------
  // Lines.

  predicate BreaksLine(c: char) {
    '\n' <= c <= '\r' || '\U{1c}' <= c <= '\U{1e}' || c == '\U{85}' || c == '\U{2028}' || c == '\U{2029}'
  }

  /** `s.splitlines()[0]`. */
  function FirstLine(s: string): (line: string)
    ensures line <= s
  {
    if s == "" || BreaksLine(s[0]) then "" else [s[0]] + FirstLine(s[1..])
  }

  /** `s.splitlines()`. */
  function Lines(s: string): seq<string>
    decreases |s|
  {
    if s == "" then []
    else
      var line := FirstLine(s);
      if line == s then [s]
      else if |line| + 1 < |s| && s[|line|] == '\r' && s[|line| + 1] == '\n' then [line] + Lines(s[|line| + 2..])
      else [line] + Lines(s[|line| + 1..])
  }

  predicate OneLine(s: string) {
    forall i :: 0 <= i < |s| ==> !BreaksLine(s[i])
  }

  lemma {:induction false} FirstLineIs(line: string, rest: string)
    requires OneLine(line) && (rest == "" || BreaksLine(rest[0]))
    ensures FirstLine(line + rest) == line
  {
    if line == "" {
      assert line + rest == rest;
    } else {
      FirstLineIs(line[1..], rest);
      assert (line + rest)[1..] == line[1..] + rest;
    }
  }

  lemma LinesAfter(line: string, more: string, n: nat)
    requires OneLine(line) && more != "" && BreaksLine(more[0])
    requires n == if |more| > 1 && more[0] == '\r' && more[1] == '\n' then 2 else 1
    ensures Lines(line + more) == [line] + Lines(more[n..])
  {
    FirstLineIs(line, more);
    var s := line + more;
    hide FirstLine, OneLine, BreaksLine;
    assert s[|line|] == more[0] && (|more| > 1 ==> s[|line| + 1] == more[1]);
    assert s[|line| + n..] == more[n..] && FirstLine(s) != s;
  }

  /** A line ends at any of the line breaks, a carriage return with a line feed after it counting
      as one; what comes after the last of them is a line if there is anything. */
  lemma LinesStep(line: string, c: char, rest: string)
    requires OneLine(line) && BreaksLine(c)
    ensures Lines("") == [] && (line != "" ==> Lines(line) == [line])
    ensures Lines(line + ("\r\n" + rest)) == [line] + Lines(rest)
    ensures (c == '\r' && rest != "" ==> rest[0] != '\n') ==> Lines(line + ([c] + rest)) == [line] + Lines(rest)
  {
    FirstLineIs(line, "");
    assert line + "" == line && Lines("") == [] && (line != "" ==> Lines(line) == [line]);
    hide Lines, OneLine, BreaksLine;
    assert ("\r\n" + rest)[2..] == rest && ([c] + rest)[1..] == rest;
    assert BreaksLine('\r') by { SpacesAre('\r'); assert LINE_BREAKS[3] == '\r'; }
    LinesAfter(line, "\r\n" + rest, 2);
    if c == '\r' && rest != "" ==> rest[0] != '\n' {
      LinesAfter(line, [c] + rest, 1);
    }
  }

  /** Lines that were joined come apart again; an empty last one would be lost. */
  lemma {:induction false} LinesOfJoin(lines: seq<string>)
    requires forall l :: l in lines ==> OneLine(l) && l != ""
    ensures Lines(Join(lines, "\n")) == lines
  {
    hide Lines, FirstLine, OneLine, BreaksLine;
    assert BreaksLine('\n') by { SpacesAre('\n'); assert LINE_BREAKS[0] == '\n'; }
    if lines == [] {
      assert OneLine("") by { NoLines(); }
      LinesStep("", '\n', "");
    } else {
      assert lines[0] in lines;
      LinesOfJoin(lines[1..]);
      var line, rest := lines[0], Join(lines[1..], "\n");
      LinesStep(line, '\n', rest);
      assert |lines| > 1 ==> Join(lines, "\n") == line + (['\n'] + rest);
    }
  }

  lemma NoLines()
    ensures OneLine("")
  {
  }

  // ---------------------------------------------------------------------------
  // Decimal numbers.

  predicate IsDigit(c: char) {
    '0' <= c <= '9'
  }

  predicate AllDigits(s: string) {
    s != "" && forall i :: 0 <= i < |s| ==> IsDigit(s[i])
  }

  function Digit(d: nat): char
    requires d < 10
  {
    '0' + d as char
  }

  function DigitValue(c: char): nat
    requires IsDigit(c)
  {
    c as int - '0' as int
  }

  function Decimal(n: nat): (s: string)
    ensures AllDigits(s)
  {
    if n < 10 then [Digit(n)] else Decimal(n / 10) + [Digit(n % 10)]
  }

  function Value(s: string): nat
    requires AllDigits(s)
  {
    (if |s| == 1 then 0 else 10 * Value(s[..|s| - 1])) + DigitValue(s[|s| - 1])
  }

  /** Reading a number back. */
  lemma {:induction false} DecimalRoundTrip(n: nat)
    ensures Value(Decimal(n)) == n
  {
    if n >= 10 {
      DecimalRoundTrip(n / 10);
      var s := Decimal(n);
      assert s[..|s| - 1] == Decimal(n / 10);
    }
  }
}
