/** Quoting for the shell, as `shlex.quote` does it, and how a shell reads it back. */
module Shell {
  import opened Common
  import opened Text

  predicate Safe(c: char) {
    'a' <= c <= 'z' || 'A' <= c <= 'Z' || '0' <= c <= '9' || c in "_@%+=:,./-"
  }

  predicate AllSafe(s: string) {
    forall i :: 0 <= i < |s| ==> Safe(s[i])
  }

  const ESCAPED_QUOTE := "'\"'\"'"

  function Quote(s: string): string {
    if s == "" then "''"
    else if AllSafe(s) then s
    else "'" + Replace(s, "'", ESCAPED_QUOTE) + "'"
  }

  // ---------------------------------------------------------------------------
  // How a shell reads one word: section 2.2 of the POSIX shell command language.

  datatype Mode = Plain | Single | Double

  /** What ends a word or makes a shell expand it, outside quotes; every other character stands for
      itself. */
  predicate Special(c: char) {
    || c <= '$' || '&' <= c <= '*' || ';' <= c <= '<' || '>' <= c <= '?' || '[' <= c <= '^' || c == '`'
    || '{' <= c <= '\U{7f}'
  }

  /** The value of a word that ends with the text; none if it does not, or needs expansion. */
  function Word(t: string, m: Mode): Option<string> {
    if t == "" then (if m.Plain? then Some("") else None)
    else
      var c, rest := t[0], t[1..];
      if m.Plain? && c == '\'' then Word(rest, Single)
      else if m.Plain? && c == '"' then Word(rest, Double)
      else if m.Single? && c == '\'' then Word(rest, Plain)
      else if m.Double? && c == '"' then Word(rest, Plain)
      else if m.Plain? && Special(c) then None
      else if m.Double? && c in "$`\\" then None
      else Prefixed([c], Word(rest, m))
  }

  function Prefixed(a: string, r: Option<string>): Option<string> {
    if r.Some? then Some(a + r.value) else None
  }

  lemma SafeIsPlain(c: char)
    requires Safe(c)
    ensures !Special(c) && c != '\'' && c != '"'
  {
  }

  lemma {:induction false} SafeReads(s: string)
    requires AllSafe(s)
    ensures Word(s, Plain) == Some(s)
  {
    if s != "" {
      SafeReads(s[1..]);
      assert Safe(s[0]);
      SafeIsPlain(s[0]);
      hide Safe, Special;
      assert s == [s[0]] + s[1..];
    }
  }

  lemma {:induction false} SingleReads(a: string, t: string)
    requires '\'' !in a
    ensures Word(a + t, Single) == Prefixed(a, Word(t, Single))
  {
    if a == "" {
      assert a + t == t;
      var r := Word(t, Single);
      assert r.Some? ==> a + r.value == r.value;
    } else {
      SingleReads(a[1..], t);
      assert (a + t)[1..] == a[1..] + t;
      assert a == [a[0]] + a[1..];
      var r := Word(t, Single);
      assert r.Some? ==> a + r.value == [a[0]] + (a[1..] + r.value);
    }
  }

  lemma EscapedQuoteReads(t: string)
    ensures Word(ESCAPED_QUOTE + t, Single) == Prefixed("'", Word(t, Single))
  {
    var u := ESCAPED_QUOTE + t;
    assert u[0] == '\'' && u[1] == '"' && u[2] == '\'' && u[3] == '"' && u[4] == '\'';
    assert u[1..][1..][1..][1..][1..] == t;
    assert Word(u[1..][1..][1..][1..], Plain) == Word(t, Single);
    assert Word(u[1..][1..][1..], Double) == Word(t, Single);
    assert Word(u[1..][1..], Double) == Prefixed("'", Word(t, Single));
    assert Word(u[1..], Plain) == Word(u[1..][1..], Double);
  }

  lemma FirstQuote(s: string)
    ensures var k := Find(s, "'");
            '\'' !in s[..if k.None? then |s| else k.value] && (k.Some? ==> s == s[..k.value] + "'" + s[k.value + 1..])
  {
    var k := Find(s, "'");
    var a := s[..if k.None? then |s| else k.value];
    forall i | 0 <= i < |a| ensures a[i] != '\'' {
      assert a[i] == '\'' ==> OccursAt(s, "'", i);
    }
    if k.Some? {
      assert s[k.value..k.value + 1] == "'";
    }
  }

  lemma {:induction false} BodyReads(s: string)
    ensures Word(Replace(s, "'", ESCAPED_QUOTE) + "'", Single) == Some(s)
    decreases |s|
  {
    var k := Find(s, "'");
    FirstQuote(s);
    if k.None? {
      SingleReads(s, "'");
      assert Word("'", Single) == Some("") by { assert "'"[1..] == ""; }
      assert s[..|s|] == s;
      NothingAfter(s);
    } else {
      var a, rest := s[..k.value], s[k.value + 1..];
      var t := Replace(rest, "'", ESCAPED_QUOTE) + "'";
      BodyReads(rest);
      var later := Replace(rest, "'", ESCAPED_QUOTE);
      assert Replace(s, "'", ESCAPED_QUOTE) == a + ESCAPED_QUOTE + later;
      hide Word, Replace, Find;
      Associates(a + ESCAPED_QUOTE, later, "'");
      Associates(a, ESCAPED_QUOTE, t);
      EscapedQuoteReads(t);
      SingleReads(a, ESCAPED_QUOTE + t);
      Associates(a, "'", rest);
    }
  }

  /** A shell reads a quoted text as one word, and its value is the text: nothing in it can
      end the word or be expanded. */
  lemma {:induction false} QuoteRoundTrip(s: string)
    ensures Word(Quote(s), Plain) == Some(s)
  {
    if s == "" {
      assert "''"[1..] == "'" && "'"[1..] == "";
    } else if AllSafe(s) {
      SafeReads(s);
    } else {
      BodyReads(s);
      assert Quote(s)[1..] == Replace(s, "'", ESCAPED_QUOTE) + "'";
    }
  }

  /** Quoting does not make a word of letters and digits appear. */
  lemma QuoteHasNo(s: string, word: string)
    requires word != "" && '\'' !in word && '"' !in word && !Contains(s, word)
    ensures !Contains(Quote(s), word)
  {
    assert Outside("'", word);
    assert Outside(ESCAPED_QUOTE, word);
    var body := Replace(s, "'", ESCAPED_QUOTE);
    ReplaceHasNo(s, "'", ESCAPED_QUOTE, word);
    assert !Contains("", word);
    ContainsAround("", "'", body, word);
    ContainsAround("" + "'" + body, "'", "", word);
    assert "'" + body + "'" == "" + "'" + body + "'" + "";
    ContainsAround("", "''", "", word);
    assert "" + "''" + "" == "''";
  }
}
