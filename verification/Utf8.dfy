/** UTF-8, as section 3 of RFC 3629 defines it, with a decoder that ignores what is ill-formed. */
module Utf8 {
  import opened Common

  function EncodeChar(c: char): (b: seq<byte>)
    ensures 1 <= |b| <= 4
  {
    var v := c as int;
    if v < 0x80 then [v]
    else if v < 0x800 then [0xC0 + v / 0x40, 0x80 + v % 0x40]
    else if v < 0x1_0000 then [0xE0 + v / 0x1000, 0x80 + v / 0x40 % 0x40, 0x80 + v % 0x40]
    else [0xF0 + v / 0x4_0000, 0x80 + v / 0x1000 % 0x40, 0x80 + v / 0x40 % 0x40, 0x80 + v % 0x40]
  }

  function Encode(s: string): (b: seq<byte>)
    ensures s != "" ==> b != []
  {
    if s == "" then [] else EncodeChar(s[0]) + Encode(s[1..])
  }

  predicate Continues(x: byte) {
    0x80 <= x < 0xC0
  }

  predicate Scalar(v: int) {
    0 <= v < 0xD800 || 0xE000 <= v < 0x11_0000
  }

  /** The number of bytes that a first byte announces; 0: it is not a first byte. */
  function Announced(x: byte): nat {
    if x < 0x80 then 1 else if x < 0xC2 then 0 else if x < 0xE0 then 2 else if x < 0xF0 then 3 else if x < 0xF5 then 4
    else 0
  }

  /** The bits of a character and where they go, as the table of RFC 3629, section 3, has it. */
  lemma EncodeCharIs(c: char)
    ensures var v, b := c as int, EncodeChar(c);
      if v <= 0x7F then |b| == 1 && b[0] as int == v
      else if v <= 0x7FF then
        |b| == 2 && 0xC0 <= b[0] < 0xE0 && 0x80 <= b[1] < 0xC0 && (b[0] as int - 0xC0) * 64 + (b[1] as int - 0x80) == v
      else if v <= 0xFFFF then
        && |b| == 3 && 0xE0 <= b[0] < 0xF0 && 0x80 <= b[1] < 0xC0 && 0x80 <= b[2] < 0xC0
        && ((b[0] as int - 0xE0) * 64 + (b[1] as int - 0x80)) * 64 + (b[2] as int - 0x80) == v
      else
        && |b| == 4 && 0xF0 <= b[0] < 0xF8 && 0x80 <= b[1] < 0xC0 && 0x80 <= b[2] < 0xC0 && 0x80 <= b[3] < 0xC0
        && (((b[0] as int - 0xF0) * 64 + (b[1] as int - 0x80)) * 64 + (b[2] as int - 0x80)) * 64
           + (b[3] as int - 0x80) == v
  {
    var v := c as int;
    assert v == v / 0x40 * 0x40 + v % 0x40;
    assert v / 0x40 == v / 0x1000 * 0x40 + v / 0x40 % 0x40;
    assert v / 0x1000 == v / 0x4_0000 * 0x40 + v / 0x1000 % 0x40;
  }

  /** What a continuation byte contributes. */
  function Low(x: byte): int {
    var v: int := x;
    v - 0x80
  }

  /** The value of the announced bytes, whether or not it is allowed. */
  function Assembled(b: seq<byte>): int
    requires b != [] && |b| >= Announced(b[0])
  {
    var lead: int := b[0];
    match Announced(b[0])
    case 1 => lead
    case 2 => (lead - 0xC0) * 0x40 + Low(b[1])
    case 3 => (lead - 0xE0) * 0x1000 + Low(b[1]) * 0x40 + Low(b[2])
    case 4 => (lead - 0xF0) * 0x4_0000 + Low(b[1]) * 0x1000 + Low(b[2]) * 0x40 + Low(b[3])
    case _ => -1
  }

  function Smallest(n: nat): int {
    match n case 1 => 0 case 2 => 0x80 case 3 => 0x800 case _ => 0x1_0000
  }

  /** The character that the bytes begin with, if they begin with a well-formed one. */
  function First(b: seq<byte>): Option<char> {
    if b == [] then None
    else
      var n := Announced(b[0]);
      if n == 0 || |b| < n || exists i :: 1 <= i < n && !Continues(b[i]) then None
      else if Smallest(n) <= Assembled(b) && Scalar(Assembled(b)) then Some(Assembled(b) as char)
      else None
  }

  /** `b.decode("utf-8", errors="ignore")`. */
  function DecodeIgnore(b: seq<byte>): string {
    if b == [] then ""
    else
      var c := First(b);
      if c.Some? then [c.value] + DecodeIgnore(b[Announced(b[0])..])
      else DecodeIgnore(b[1..])
  }

  /** `b.decode("utf-8")`: None for what is ill-formed. */
  function DecodeStrict(b: seq<byte>): Option<string> {
    if b == [] then Some("")
    else
      var c := First(b);
      if c.None? then None
      else
        var rest := DecodeStrict(b[Announced(b[0])..]);
        if rest.None? then None else Some([c.value] + rest.value)
  }

  // ---------------------------------------------------------------------------
  // One character.

  lemma Leads(c: char)
    ensures Announced(EncodeChar(c)[0]) == |EncodeChar(c)|
    ensures forall i :: 1 <= i < |EncodeChar(c)| ==> Continues(EncodeChar(c)[i])
    ensures Smallest(|EncodeChar(c)|) <= c as int && Scalar(c as int)
  {
  }

  lemma Reassembles(c: char)
    requires Announced(EncodeChar(c)[0]) == |EncodeChar(c)|
    ensures Assembled(EncodeChar(c)) == c as int
  {
    var v := c as int;
    assert v == v / 0x40 * 0x40 + v % 0x40;
    assert v / 0x40 == v / 0x1000 * 0x40 + v / 0x40 % 0x40;
    assert v / 0x1000 == v / 0x4_0000 * 0x40 + v / 0x1000 % 0x40;
  }

  lemma FirstOfChar(c: char, rest: seq<byte>)
    ensures First(EncodeChar(c) + rest) == Some(c)
  {
    var e := EncodeChar(c);
    var b := e + rest;
    Leads(c);
    Reassembles(c);
    hide EncodeChar, Announced, Continues, Scalar, Smallest;
    forall i | 0 <= i < |e| ensures b[i] == e[i] {
    }
    assert Assembled(b) == Assembled(e);
  }

  /** No part of a character that stops short of its end, or begins after its beginning,
      begins with a character. */
  lemma PartsAreIgnored(c: char, i: nat, rest: seq<byte>)
    requires i < |EncodeChar(c)|
    ensures 0 < i ==> First(EncodeChar(c)[i..] + rest).None?
    ensures i > 0 ==> Announced(EncodeChar(c)[i]) == 0
    ensures First(EncodeChar(c)[..i]).None?
    ensures Announced(EncodeChar(c)[0]) == |EncodeChar(c)|
  {
  }

  lemma Two(a: int, b: int)
    requires 0 <= b < 0x40
    ensures (a * 0x40 + b) / 0x40 == a && (a * 0x40 + b) % 0x40 == b
  {
  }

  lemma TwoBytes(x: byte, y: byte, c: char)
    requires 0xC2 <= x < 0xE0 && Continues(y)
    requires c as int == (x as int - 0xC0) * 0x40 + Low(y)
    ensures EncodeChar(c) == [x, y]
  {
    Two(x as int - 0xC0, Low(y));
  }

  lemma ThreeBytes(x: byte, y: byte, z: byte, c: char)
    requires 0xE0 <= x < 0xF0 && Continues(y) && Continues(z)
    requires c as int == (x as int - 0xE0) * 0x1000 + Low(y) * 0x40 + Low(z) >= 0x800
    ensures EncodeChar(c) == [x, y, z]
  {
    Two((x as int - 0xE0) * 0x40 + Low(y), Low(z));
    Two(x as int - 0xE0, Low(y));
    assert c as int / 0x1000 == c as int / 0x40 / 0x40;
  }

  lemma FourBytes(x: byte, y: byte, z: byte, w: byte, c: char)
    requires 0xF0 <= x < 0xF5 && Continues(y) && Continues(z) && Continues(w)
    requires c as int == (x as int - 0xF0) * 0x4_0000 + Low(y) * 0x1000 + Low(z) * 0x40 + Low(w) >= 0x1_0000
    ensures EncodeChar(c) == [x, y, z, w]
  {
    Two((x as int - 0xF0) * 0x1000 + Low(y) * 0x40 + Low(z), Low(w));
    Two((x as int - 0xF0) * 0x40 + Low(y), Low(z));
    Two(x as int - 0xF0, Low(y));
    assert c as int / 0x1000 == c as int / 0x40 / 0x40;
    assert c as int / 0x4_0000 == c as int / 0x40 / 0x40 / 0x40;
  }

  /** What is decoded is what encodes to these bytes: no other form of a character passes. */
  lemma FirstIsChar(b: seq<byte>)
    requires First(b).Some?
    ensures EncodeChar(First(b).value) == b[..Announced(b[0])]
  {
    var c := First(b).value;
    hide EncodeChar;
    match Announced(b[0])
    case 1 => OneByte(b[0], c);
    case 2 =>
      TwoBytes(b[0], b[1], c);
      assert b[..2] == [b[0], b[1]];
    case 3 =>
      ThreeBytes(b[0], b[1], b[2], c);
      assert b[..3] == [b[0], b[1], b[2]];
    case _ =>
      FourBytes(b[0], b[1], b[2], b[3], c);
      assert b[..4] == [b[0], b[1], b[2], b[3]];
  }

  lemma OneByte(x: byte, c: char)
    requires c as int == x < 0x80
    ensures EncodeChar(c) == [x]
  {
  }

  // ---------------------------------------------------------------------------
  // Whole texts and parts of them.

  /** How many whole characters from the front fit into `room` bytes. */
  function Fit(s: string, room: nat): (k: nat)
    ensures k <= |s|
  {
    if s == "" || |EncodeChar(s[0])| > room then 0 else 1 + Fit(s[1..], room - |EncodeChar(s[0])|)
  }

  /** How many characters `skip` bytes from the front touch. */
  function Touched(s: string, skip: nat): (k: nat)
    ensures k <= |s|
  {
    if s == "" || skip == 0 then 0
    else if skip < |EncodeChar(s[0])| then 1
    else 1 + Touched(s[1..], skip - |EncodeChar(s[0])|)
  }

  lemma {:induction false} NothingFrom(b: seq<byte>, rest: seq<byte>)
    requires forall i :: 0 <= i < |b| ==> Announced(b[i]) == 0
    ensures DecodeIgnore(b + rest) == DecodeIgnore(rest)
  {
    if b == [] {
      assert b + rest == rest;
    } else {
      assert (b + rest)[1..] == b[1..] + rest && (b + rest)[0] == b[0];
      NothingFrom(b[1..], rest);
    }
  }

  lemma CharDecodes(c: char, rest: seq<byte>)
    ensures DecodeIgnore(EncodeChar(c) + rest) == [c] + DecodeIgnore(rest)
  {
    FirstOfChar(c, rest);
    Leads(c);
    var b := EncodeChar(c) + rest;
    assert b[0] == EncodeChar(c)[0];
    assert b[|EncodeChar(c)|..] == rest;
    hide First, EncodeChar, Announced;
  }

  /** A slice from the front decodes to the longest whole prefix inside it. */
  lemma {:induction false} PrefixDecodes(s: string, room: nat)
    requires room <= |Encode(s)|
    ensures DecodeIgnore(Encode(s)[..room]) == s[..Fit(s, room)]
  {
    hide EncodeChar, First;
    if s != "" {
      var e := EncodeChar(s[0]);
      if |e| <= room {
        PrefixDecodes(s[1..], room - |e|);
        assert Encode(s)[..room] == e + Encode(s[1..])[..room - |e|];
        CharDecodes(s[0], Encode(s[1..])[..room - |e|]);
        assert s[..Fit(s, room)] == [s[0]] + s[1..][..Fit(s[1..], room - |e|)];
      } else {
        assert Encode(s)[..room] == e[..room];
        PartOfCharDecodes(s[0], room);
      }
    }
  }

  lemma PartOfCharDecodes(c: char, i: nat)
    requires i < |EncodeChar(c)|
    ensures DecodeIgnore(EncodeChar(c)[..i]) == ""
  {
    PartsAreIgnored(c, i, []);
    if i > 0 {
      var b := EncodeChar(c)[..i][1..];
      forall k | 0 <= k < |b| ensures Announced(b[k]) == 0 {
        PartsAreIgnored(c, k + 1, []);
        assert b[k] == EncodeChar(c)[k + 1];
      }
      hide First, EncodeChar, Announced;
      NothingFrom(b, []);
      assert b + [] == b;
    }
  }

  /** A slice from the back decodes to the longest whole suffix inside it. */
  lemma {:induction false} SuffixDecodes(s: string, skip: nat)
    requires skip <= |Encode(s)|
    ensures DecodeIgnore(Encode(s)[skip..]) == s[Touched(s, skip)..]
  {
    hide EncodeChar, First;
    if s != "" {
      var e := EncodeChar(s[0]);
      if skip == 0 {
        SuffixDecodes(s[1..], 0);
        assert Encode(s[1..])[0..] == Encode(s[1..]);
        CharDecodes(s[0], Encode(s[1..]));
        assert s == [s[0]] + s[1..] && s[1..][0..] == s[1..];
      } else if skip < |e| {
        SuffixDecodes(s[1..], 0);
        assert Encode(s[1..])[0..] == Encode(s[1..]);
        assert Encode(s)[skip..] == e[skip..] + Encode(s[1..]);
        forall k | 0 <= k < |e[skip..]| ensures Announced(e[skip..][k]) == 0 {
          PartsAreIgnored(s[0], skip + k, []);
        }
        NothingFrom(e[skip..], Encode(s[1..]));
      } else {
        SuffixDecodes(s[1..], skip - |e|);
        assert Encode(s)[skip..] == Encode(s[1..])[skip - |e|..];
      }
    }
  }

  lemma {:induction false} EncodeConcat(a: string, b: string)
    ensures Encode(a + b) == Encode(a) + Encode(b)
  {
    hide EncodeChar;
    if a == "" {
      assert a + b == b;
    } else {
      EncodeConcat(a[1..], b);
      assert (a + b)[1..] == a[1..] + b && (a + b)[0] == a[0];
      Associates(EncodeChar(a[0]), Encode(a[1..]), Encode(b));
    }
  }

  /** The prefix fits, one more character would not, and less than one is lost. */
  lemma {:induction false} FitIsLongest(s: string, room: nat)
    requires room < |Encode(s)|
    ensures var k := Fit(s, room);
            k < |s| && |Encode(s[..k])| <= room < |Encode(s[..k + 1])| <= |Encode(s[..k])| + 4
  {
    hide EncodeChar;
    if s != "" {
      var e := EncodeChar(s[0]);
      if |e| <= room {
        FitIsLongest(s[1..], room - |e|);
        var k := Fit(s[1..], room - |e|);
        assert s[..k + 1][1..] == s[1..][..k] && s[..k + 2][1..] == s[1..][..k + 1];
      } else {
        assert s[..1][1..] == "" && Encode(s[..1]) == e;
      }
    }
  }

  lemma {:induction false} TouchedIsLeast(s: string, skip: nat)
    requires 0 < skip <= |Encode(s)|
    ensures var k := Touched(s, skip);
            0 < k && |Encode(s[..k - 1])| < skip <= |Encode(s[..k])| < skip + 4
  {
    hide EncodeChar;
    if s != "" {
      var e := EncodeChar(s[0]);
      if skip <= |e| {
        assert s[..1][1..] == "" && Encode(s[..1]) == e && s[..0] == "";
        assert skip == |e| ==> Touched(s[1..], 0) == 0;
      } else {
        TouchedIsLeast(s[1..], skip - |e|);
        var k := Touched(s[1..], skip - |e|);
        assert s[..k + 1][1..] == s[1..][..k] && s[..k][1..] == s[1..][..k - 1];
      }
    }
  }

  lemma {:induction false} StrictUndoesEncode(s: string)
    ensures DecodeStrict(Encode(s)) == Some(s)
  {
    if s != "" {
      hide First, EncodeChar, Announced;
      StrictUndoesEncode(s[1..]);
      CharDecodesStrictly(s[0], Encode(s[1..]));
      assert s == [s[0]] + s[1..];
    }
  }

  lemma CharDecodesStrictly(c: char, rest: seq<byte>)
    requires DecodeStrict(rest).Some?
    ensures DecodeStrict(EncodeChar(c) + rest) == Some([c] + DecodeStrict(rest).value)
  {
    FirstOfChar(c, rest);
    Leads(c);
    var b := EncodeChar(c) + rest;
    assert b[0] == EncodeChar(c)[0];
    assert b[|EncodeChar(c)|..] == rest;
    hide First, EncodeChar, Announced;
  }

  lemma {:induction false} EncodeUndoesStrict(b: seq<byte>)
    requires DecodeStrict(b).Some?
    ensures Encode(DecodeStrict(b).value) == b
  {
    if b != [] {
      var c, n := First(b).value, Announced(b[0]);
      FirstIsChar(b);
      EncodeUndoesStrict(b[n..]);
      hide First, EncodeChar, Announced;
      PrefixBefore([c], DecodeStrict(b[n..]).value);
      Rejoins(b, n);
    }
  }

  /** The strict decoder accepts exactly the encodings. */
  lemma StrictIff(b: seq<byte>, s: string)
    ensures DecodeStrict(b) == Some(s) <==> Encode(s) == b
  {
    if DecodeStrict(b) == Some(s) {
      EncodeUndoesStrict(b);
    }
    StrictUndoesEncode(s);
  }
}
