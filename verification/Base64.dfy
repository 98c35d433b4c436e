/** The base64 encoding of section 4 of RFC 4648, as Python's `b64encode` and
    `b64decode(..., validate=True)` apply it. */
module Base64 {
  import opened Common

  function SymbolOf(v: int): char
    requires 0 <= v < 64
  {
    if v < 26 then (v + 65) as char
    else if v < 52 then (v + 71) as char
    else if v < 62 then (v - 4) as char
    else if v == 62 then '+' else '/'
  }

  predicate IsSymbol(c: char) {
    'A' <= c <= 'Z' || 'a' <= c <= 'z' || '0' <= c <= '9' || c == '+' || c == '/'
  }

  function ValueOf(c: char): int
    requires IsSymbol(c)
  {
    if 'A' <= c <= 'Z' then c as int - 65
    else if 'a' <= c <= 'z' then c as int - 71
    else if '0' <= c <= '9' then c as int + 4
    else if c == '+' then 62 else 63
  }

  lemma SymbolRoundTrip(v: int)
    requires 0 <= v < 64
    ensures IsSymbol(SymbolOf(v)) && ValueOf(SymbolOf(v)) == v
  {
  }

  function EncodeQuad(a: byte, b: byte, c: byte): (q: string)
    ensures |q| == 4
  {
    [SymbolOf(a / 4), SymbolOf(a % 4 * 16 + b / 16), SymbolOf(b % 16 * 4 + c / 64), SymbolOf(c % 64)]
  }

  function Encode(data: seq<byte>): (s: string)
    ensures |s| == 4 * ((|data| + 2) / 3)
  {
    if |data| == 0 then ""
    else if |data| == 1 then EncodeQuad(data[0], 0, 0)[..2] + "=="
    else if |data| == 2 then EncodeQuad(data[0], data[1], 0)[..3] + "="
    else EncodeQuad(data[0], data[1], data[2]) + Encode(data[3..])
  }

  predicate AllSymbols(s: string) {
    forall c <- s :: IsSymbol(c)
  }

  /** Three bytes from four symbols. */
  function DecodeQuad(w: int, x: int, y: int, z: int): (r: seq<byte>)
    requires 0 <= w < 64 && 0 <= x < 64 && 0 <= y < 64 && 0 <= z < 64
  {
    [w * 4 + x / 16, x % 16 * 16 + y / 4, y % 4 * 64 + z]
  }

  function DecodeSymbols(q: string): (r: seq<byte>)
    requires |q| == 4 && AllSymbols(q)
    ensures |r| == 3
  {
    DecodeQuad(ValueOf(q[0]), ValueOf(q[1]), ValueOf(q[2]), ValueOf(q[3]))
  }

  /** The last four characters of a text, where padding is allowed and stands for zero
      bits.  Bits that the padding makes meaningless are ignored, as Python ignores them. */
  function DecodeLast(q: string): (r: Option<seq<byte>>)
    requires |q| == 4
    ensures r.Some? ==> 1 <= |r.value| <= 3
  {
    if AllSymbols(q) then
      Some(DecodeSymbols(q))
    else if AllSymbols(q[..3]) && q[3] == '=' then
      Some(DecodeSymbols(q[..3] + "A")[..2])
    else if AllSymbols(q[..2]) && q[2..] == "==" then
      Some(DecodeSymbols(q[..2] + "AA")[..1])
    else None
  }

  function Decode(s: string): Option<seq<byte>> {
    if s == "" then Some([])
    else if |s| < 4 then None
    else if |s| == 4 then DecodeLast(s)
    else if !AllSymbols(s[..4]) then None
    else match Decode(s[4..])
      case None => None
      case Some(rest) =>
        Some(DecodeSymbols(s[..4]) + rest)
  }

  /** Decoding a padding-free quad and then the rest. */
  lemma DecodeStep(q: string, rest: string)
    requires |q| == 4 && AllSymbols(q)
    ensures Decode(q + rest) == match Decode(rest) case None => None case Some(r) => Some(DecodeSymbols(q) + r)
  {
    if rest == "" {
      assert q + rest == q;
      assert Decode(q) == Some(DecodeSymbols(q));
      assert DecodeSymbols(q) + [] == DecodeSymbols(q);
    } else {
      assert (q + rest)[..4] == q && (q + rest)[4..] == rest;
    }
  }

  lemma QuadArithmetic(a: byte, b: byte, c: byte)
    ensures DecodeQuad(a / 4, a % 4 * 16 + b / 16, b % 16 * 4 + c / 64, c % 64) == [a, b, c]
  {
    var x, y := a % 4 * 16 + b / 16, b % 16 * 4 + c / 64;
    assert x / 16 == a % 4 && x % 16 == b / 16;
    assert y / 4 == b % 16 && y % 4 == c / 64;
  }

  lemma QuadRoundTrip(a: byte, b: byte, c: byte)
    ensures AllSymbols(EncodeQuad(a, b, c))
    ensures DecodeSymbols(EncodeQuad(a, b, c)) == [a, b, c]
  {
    var w, x, y, z := a / 4, a % 4 * 16 + b / 16, b % 16 * 4 + c / 64, c % 64;
    var q := [SymbolOf(w), SymbolOf(x), SymbolOf(y), SymbolOf(z)];
    assert q == EncodeQuad(a, b, c);
    SymbolRoundTrip(w);
    SymbolRoundTrip(x);
    SymbolRoundTrip(y);
    SymbolRoundTrip(z);
    assert AllSymbols(q);
    QuadArithmetic(a, b, c);
  }

  lemma DecodePadded(q: string)
    requires |q| == 4 && AllSymbols(q)
    ensures q[3] == 'A' ==> DecodeLast(q[..3] + "=") == Some(DecodeSymbols(q)[..2])
    ensures q[2..] == "AA" ==> DecodeLast(q[..2] + "==") == Some(DecodeSymbols(q)[..1])
  {
    var one, two := q[..3] + "=", q[..2] + "==";
    assert one[3] in one && one[..3] == q[..3];
    assert two[2] in two[..3] && two[..2] == q[..2] && two[2..] == "==";
    if q[3] == 'A' { assert q == one[..3] + "A"; }
    if q[2..] == "AA" { assert q == two[..2] + "AA"; }
  }

  lemma PaddingIsZero(a: byte, b: byte)
    ensures EncodeQuad(a, b, 0)[3] == 'A'
    ensures EncodeQuad(a, 0, 0)[2..] == "AA"
  {
  }

  lemma ShortRoundTrip(data: seq<byte>)
    requires 0 < |data| < 3
    ensures Decode(Encode(data)) == Some(data)
  {
    hide *;
    var b := if |data| == 2 then data[1] else 0;
    var q := EncodeQuad(data[0], b, 0);
    QuadRoundTrip(data[0], b, 0);
    PaddingIsZero(data[0], b);
    DecodePadded(q);
    EncodeShort(data);
    DecodeShort(Encode(data));
    assert [data[0], b, 0][..|data|] == data;
  }

  lemma EncodeShort(data: seq<byte>)
    requires 0 < |data| < 3
    ensures Encode(data) == if |data| == 1 then EncodeQuad(data[0], 0, 0)[..2] + "=="
                            else EncodeQuad(data[0], data[1], 0)[..3] + "="
  {
  }

  lemma DecodeShort(s: string)
    requires |s| == 4
    ensures Decode(s) == DecodeLast(s)
  {
  }

  /** Decoding undoes encoding, for every content. */
  lemma {:induction false} RoundTrip(data: seq<byte>)
    ensures Decode(Encode(data)) == Some(data)
  {
    if 0 < |data| < 3 {
      ShortRoundTrip(data);
    } else if |data| >= 3 {
      QuadRoundTrip(data[0], data[1], data[2]);
      RoundTrip(data[3..]);
      EncodeStep(data);
      DecodeStep(EncodeQuad(data[0], data[1], data[2]), Encode(data[3..]));
      assert [data[0], data[1], data[2]] + data[3..] == data;
    }
  }

  lemma EncodeStep(data: seq<byte>)
    requires |data| >= 3
    ensures Encode(data) == EncodeQuad(data[0], data[1], data[2]) + Encode(data[3..])
  {
  }

  /** A piece whose length is divisible by three encodes without padding, so the pieces
      of a content encode to pieces of its encoding. */
  lemma {:induction false} EncodeConcat(a: seq<byte>, b: seq<byte>)
    requires |a| % 3 == 0
    ensures Encode(a + b) == Encode(a) + Encode(b)
  {
    hide EncodeQuad;
    if a == [] {
      assert a + b == b;
    } else {
      EncodeConcat(a[3..], b);
      assert (a + b)[3..] == a[3..] + b;
      EncodeStep(a);
      EncodeStep(a + b);
    }
  }

  /** Every character an encoding uses; in particular never `.`. */
  lemma {:induction false} EncodeAlphabet(data: seq<byte>)
    ensures forall c <- Encode(data) :: IsSymbol(c) || c == '='
    ensures '.' !in Encode(data)
  {
    if |data| == 1 {
      QuadRoundTrip(data[0], 0, 0);
    } else if |data| == 2 {
      QuadRoundTrip(data[0], data[1], 0);
    } else if |data| >= 3 {
      QuadRoundTrip(data[0], data[1], data[2]);
      EncodeAlphabet(data[3..]);
    }
  }

  /** A text cut at a multiple of four decodes piecewise, and the piece before the cut
      is free of padding whenever something follows it. */
  lemma {:induction false} DecodeConcat(a: string, b: string)
    requires |a| % 4 == 0 && b != ""
    ensures Decode(a + b).Some? <==> AllSymbols(a) && Decode(b).Some?
    ensures AllSymbols(a) ==> Decode(a).Some?
    ensures Decode(a + b).Some? ==> Decode(a + b) == Some(Decode(a).value + Decode(b).value)
  {
    hide DecodeSymbols, DecodeLast;
    if a == "" {
      assert a + b == b;
      assert Decode(b).Some? ==> [] + Decode(b).value == Decode(b).value;
    } else {
      var q, rest := a[..4], a[4..];
      DecodeConcat(rest, b);
      assert a == q + rest;
      assert a + b == q + (rest + b);
      assert (a + b)[..4] == q && (a + b)[4..] == rest + b;
      if AllSymbols(q) {
        DecodeStep(q, rest + b);
        DecodeStep(q, rest);
        if AllSymbols(rest) && Decode(b).Some? {
          assert DecodeSymbols(q) + (Decode(rest).value + Decode(b).value)
              == DecodeSymbols(q) + Decode(rest).value + Decode(b).value;
        }
      }
    }
  }

  lemma {:induction false} DecodedLength(s: string)
    requires Decode(s).Some?
    ensures |s| % 4 == 0
  {
    hide DecodeSymbols, DecodeLast;
    if |s| > 4 {
      DecodedLength(s[4..]);
    }
  }

  /** A text that decodes uses only the alphabet and padding. */
  lemma {:induction false} DecodedSymbols(s: string)
    requires Decode(s).Some?
    ensures forall c <- s :: IsSymbol(c) || c == '='
  {
    if |s| > 4 {
      DecodedSymbols(s[4..]);
      assert s == s[..4] + s[4..];
    } else if |s| == 4 {
      assert s == s[..3] + [s[3]];
      assert s == s[..2] + s[2..];
    }
  }

  /** Which characters may stand in the last two places. */
  predicate MayEnd(x: char, y: char) {
    (IsSymbol(x) && (IsSymbol(y) || y == '=')) || (x == '=' && y == '=')
  }

  /** Whole quads of symbols, with padding in the last two places at most. */
  predicate WellPadded(s: string) {
    && |s| % 4 == 0
    && (s != "" ==> AllSymbols(s[..|s| - 2]) && MayEnd(s[|s| - 2], s[|s| - 1]))
  }

  /** A text decodes if and only if it has that form. */
  lemma {:induction false} DecodableIff(s: string)
    ensures Decode(s).Some? <==> WellPadded(s)
  {
    if |s| == 4 {
      LastIff(s);
    } else if |s| > 4 {
      DecodableIff(s[4..]);
      hide DecodeLast, DecodeSymbols, IsSymbol, MayEnd;
      if |s| >= 8 { assert s[..|s| - 2] == s[..4] + s[4..][..|s| - 6]; }
    }
  }

  lemma LastIff(q: string)
    requires |q| == 4
    ensures DecodeLast(q).Some? <==> WellPadded(q)
  {
    assert q[..3] == q[..2] + [q[2]] && q == q[..3] + [q[3]];
    assert q[2] in q && q[3] in q && q[2] in q[..3];
    hide IsSymbol, DecodeSymbols;
    assert q[2..] == "==" <==> q[2] == '=' && q[3] == '=';
    assert !IsSymbol('=') by { NoSymbol(); }
  }

  lemma NoSymbol()
    ensures !IsSymbol('=')
  {
  }

  /** The encoding of a content of any other length ends in padding. */
  lemma {:induction false} PaddingShows(data: seq<byte>)
    requires |data| % 3 != 0
    ensures '=' in Encode(data)
  {
    if |data| < 3 {
      assert Encode(data)[3] == '=';
    } else {
      PaddingShows(data[3..]);
      hide EncodeQuad;
    }
  }

  /** The alphabet of RFC 4648, section 4, eight symbols to a row. */
  const TABLE := ["ABCDEFGH", "IJKLMNOP", "QRSTUVWX", "YZabcdef", "ghijklmn", "opqrstuv", "wxyz0123", "456789+/"]

  lemma TableIs(v: int)
    requires 0 <= v < 64
    ensures |TABLE| == 8 && |TABLE[v / 8]| == 8 && SymbolOf(v) == TABLE[v / 8][v % 8]
  {
    match v / 8
    case 0 => RowIs(v, TABLE[0]);
    case 1 => RowIs(v, TABLE[1]);
    case 2 => RowIs(v, TABLE[2]);
    case 3 => RowIs(v, TABLE[3]);
    case 4 => RowIs(v, TABLE[4]);
    case 5 => RowIs(v, TABLE[5]);
    case 6 => RowIs(v, TABLE[6]);
    case 7 => RowIs(v, TABLE[7]);
  }

  lemma RowIs(v: int, row: string)
    requires 0 <= v < 64 && row == TABLE[v / 8]
    ensures |row| == 8 && SymbolOf(v) == row[v % 8]
  {
    match v % 8
    case 0 => case 1 => case 2 => case 3 => case 4 => case 5 => case 6 => case 7 =>
  }

  /** The symbols are those of the table, in its order, and no others. */
  lemma SymbolIff(c: char)
    ensures IsSymbol(c) <==> exists v :: 0 <= v < 64 && SymbolOf(v) == c
    ensures IsSymbol(c) ==> 0 <= ValueOf(c) < 64 && SymbolOf(ValueOf(c)) == c
  {
    if IsSymbol(c) {
      assert SymbolOf(ValueOf(c)) == c;
    }
    if v :| 0 <= v < 64 && SymbolOf(v) == c {
      SymbolRoundTrip(v);
    }
  }

  /** The number that a text of symbols shows, most significant symbol first. */
  function Number(s: string): int
    requires AllSymbols(s)
  {
    if s == "" then 0 else
      assert s[|s| - 1] in s;
      64 * Number(s[..|s| - 1]) + ValueOf(s[|s| - 1])
  }

  lemma NumberOf4(q: string)
    requires |q| == 4 && AllSymbols(q)
    ensures Number(q) == 262144 * ValueOf(q[0]) + 4096 * ValueOf(q[1]) + 64 * ValueOf(q[2]) + ValueOf(q[3])
  {
    NumberOf3(q[..3]);
  }

  lemma NumberOf3(q: string)
    requires |q| == 3 && AllSymbols(q)
    ensures Number(q) == 4096 * ValueOf(q[0]) + 64 * ValueOf(q[1]) + ValueOf(q[2])
  {
    NumberOf2(q[..2]);
  }

  lemma NumberOf2(q: string)
    requires |q| == 2 && AllSymbols(q)
    ensures Number(q) == 64 * ValueOf(q[0]) + ValueOf(q[1])
  {
    assert q[..1][..0] == "" && q[..1][0] == q[0];
    assert Number(q[..1]) == ValueOf(q[0]);
  }

  /** Three bytes and their four symbols show the same number; one or two bytes the number that
      their symbols show without the bits that fill up the last one, and those are zero. */
  lemma EncodesTheNumber(data: seq<byte>)
    requires 1 <= |data| <= 3
    ensures var s := Encode(data);
            && |s| == 4 && AllSymbols(s[..|data| + 1]) && s[|data| + 1..] == seq(3 - |data|, _ => '=')
            && Number(s[..|data| + 1]) == match |data|
                 case 1 => data[0] as int * 16
                 case 2 => (data[0] as int * 256 + data[1] as int) * 4
                 case _ => data[0] as int * 65536 + data[1] as int * 256 + data[2] as int
  {
    var b, c := if |data| >= 2 then data[1] else 0, if |data| == 3 then data[2] else 0;
    var q, s := EncodeQuad(data[0], b, c), Encode(data);
    QuadRoundTrip(data[0], b, c);
    QuadNumber(data[0], b, c);
    if |data| == 3 {
      assert Encode(data[3..]) == "" && s == q && s[..4] == q;
    } else if |data| == 2 {
      assert s[..3] == q[..3] && s[3..] == "=";
      NumberOf3(q[..3]);
    } else {
      assert s[..2] == q[..2] && s[2..] == "==";
      NumberOf2(q[..2]);
    }
  }

  lemma QuadNumber(a: byte, b: byte, c: byte)
    requires AllSymbols(EncodeQuad(a, b, c))
    ensures var q := EncodeQuad(a, b, c);
            && Number(q) == a * 65536 + b * 256 + c
            && 64 * ValueOf(q[0]) + ValueOf(q[1]) == a * 16 + b / 16
            && 4096 * ValueOf(q[0]) + 64 * ValueOf(q[1]) + ValueOf(q[2]) == (a * 256 + b) * 4 + c / 64
  {
    var q := EncodeQuad(a, b, c);
    SymbolRoundTrip(a / 4);
    SymbolRoundTrip(a % 4 * 16 + b / 16);
    SymbolRoundTrip(b % 16 * 4 + c / 64);
    SymbolRoundTrip(c % 64);
    NumberOf4(q);
  }

  lemma QuadArithmeticBack(w: int, x: int, y: int, z: int)
    requires 0 <= w < 64 && 0 <= x < 64 && 0 <= y < 64 && 0 <= z < 64
    ensures var n := 262144 * w + 4096 * x + 64 * y + z;
            DecodeQuad(w, x, y, z) == [n / 65536, n / 256 % 256, n % 256]
  {
    var n := 262144 * w + 4096 * x + 64 * y + z;
    var a, b, c := w * 4 + x / 16, x % 16 * 16 + y / 4, y % 4 * 64 + z;
    assert n == 65536 * a + 256 * b + c;
    ThreeBytes(a, b, c);
  }

  lemma ThreeBytes(a: nat, b: nat, c: nat)
    requires a < 256 && b < 256 && c < 256
    ensures var n := 65536 * a + 256 * b + c; n / 65536 == a && n / 256 % 256 == b && n % 256 == c
  {
    var n := 65536 * a + 256 * b + c;
    assert n / 256 == 256 * a + b;
  }

  /** What the symbols of a quad decode to, with those that padding stands for taken as zero. */
  lemma SymbolsDecode(q: string)
    requires |q| == 4 && AllSymbols(q)
    ensures 0 <= Number(q) < 16777216
    ensures DecodeSymbols(q) == [Number(q) / 65536, Number(q) / 256 % 256, Number(q) % 256]
  {
    NumberOf4(q);
    QuadArithmeticBack(ValueOf(q[0]), ValueOf(q[1]), ValueOf(q[2]), ValueOf(q[3]));
  }

  /** The other way round: the bits that fill up the last symbol are dropped, whatever they are. */
  lemma DecodesTheNumber(q: string, n: nat, full: string)
    requires |q| == 4 && 2 <= n <= 4 && AllSymbols(q[..n]) && q[n..] == seq(4 - n, _ => '=')
    requires full == q[..n] + seq(4 - n, _ => 'A')
    ensures AllSymbols(full)
    ensures Decode(q) == Some([Number(full) / 65536, Number(full) / 256 % 256, Number(full) % 256][..n - 1])
  {
    NoSymbol();
    assert AllSymbols(full) && full[..n] == q[..n];
    SymbolsDecode(full);
    DecodeShort(q);
    hide Decode, Number, DecodeSymbols, IsSymbol;
    if n == 4 {
      assert full == q == full[..4];
      assert DecodeSymbols(full)[..3] == DecodeSymbols(full);
    } else if n == 3 {
      assert full == q[..3] + "A";
      assert q[3] == q[3..][0] && q[3] in q;
    } else {
      assert full == q[..2] + "AA";
      assert q[2] == q[2..][0] && q[2] in q && q[2] in q[..3] && q[2..] == "==";
    }
  }

  /** Padding stands for symbols of the value zero. */
  lemma PaddedNumber(q: string, n: nat)
    requires 2 <= n <= 4 && |q| == 4 && AllSymbols(q) && forall k :: n <= k < 4 ==> q[k] == 'A'
    ensures Number(q) == Number(q[..n]) * match n case 2 => 4096 case 3 => 64 case _ => 1
  {
    NumberOf4(q);
    NumberOf3(q[..3]);
    NumberOf2(q[..2]);
    assert q[..4] == q;
  }
}
