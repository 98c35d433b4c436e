/** Reading a remote file: one piece is printed between sentinels, in base64, and parsed back;
    the whole file is read piece by piece. */
module ReadFile {
  import opened Common
  import opened Text
  import Base64

  const MAX_READ_BYTES := 1_048_576

  const BIN_BEGIN := "__RSM_BIN_BEGIN__"
  const BIN_END := "__RSM_BIN_END__"
  const SIZE_MARK := "__RSM_SIZE__"

  datatype ReadError =
    | NegativeOffset
    | NonPositiveLimit
    | LimitTooLarge
    | CommandFailed
    | MissingSentinels
    | BadBase64
    | NoProgress(offset: int)

  datatype Piece = Piece(data: seq<byte>, size: int)

  // ---------------------------------------------------------------------------
  // Parsing.

  /** `"".join(s.split())`. */
  function Squeeze(s: string): string {
    if s == "" then "" else (if IsSpace(s[0]) then "" else [s[0]]) + Squeeze(s[1..])
  }

  /** The number that follows the size marker; -1 if there is none. */
  function Size(out: string, from: nat): int
    requires from <= |out|
  {
    var k := FindFrom(out, SIZE_MARK, from);
    if k.None? then -1
    else
      var digits := Strip(FirstLine(out[k.value + |SIZE_MARK|..]));
      if AllDigits(digits) then Value(digits) else -1
  }

  function Parse(out: string): Result<Piece, ReadError> {
    var b, e := Find(out, BIN_BEGIN), Find(out, BIN_END);
    if b.None? || e.None? || e.value < b.value then Err(MissingSentinels)
    else
      var start := b.value + |BIN_BEGIN|;
      var data := Base64.Decode(Squeeze(if start <= e.value then out[start..e.value] else ""));
      if data.None? then Err(BadBase64) else Ok(Piece(data.value, Size(out, e.value)))
  }

  // ---------------------------------------------------------------------------
  // Printing, and parsing it back.

  lemma {:induction false} SqueezedChars(body: string, i: nat)
    requires i < |body| && !IsSpace(body[i])
    ensures body[i] in Squeeze(body)
  {
    if i > 0 {
      SqueezedChars(body[1..], i - 1);
    }
  }

  /** Squeezing takes the white space out of every part of a text, ... */
  lemma {:induction false} SqueezeParts(a: string, b: string)
    ensures Squeeze(a + b) == Squeeze(a) + Squeeze(b)
  {
    hide IsSpace;
    if a == "" {
      assert a + b == b;
    } else {
      SqueezeParts(a[1..], b);
      assert (a + b)[1..] == a[1..] + b && (a + b)[0] == a[0];
      var first := if IsSpace(a[0]) then "" else [a[0]];
      Associates(first, Squeeze(a[1..]), Squeeze(b));
    }
  }

  /** ... and nothing else. */
  lemma SqueezeOne(c: char)
    ensures Squeeze([c]) == if IsSpace(c) then "" else [c]
  {
    hide IsSpace;
    assert [c][1..] == "";
  }

  /** What any output is taken for: it is without its sentinels if one of them is missing or the
      first END comes before the first BEGIN; otherwise what is between them, but for white space,
      decides. */
  lemma ParseIff(out: string)
    ensures Parse(out) == Err(MissingSentinels) <==> !(exists b: nat, e: nat :: Between(out, b, e))
    ensures forall b: nat, e: nat :: Between(out, b, e) ==>
              var text := if b + |BIN_BEGIN| <= e then out[b + |BIN_BEGIN|..e] else "";
              if Base64.WellPadded(Squeeze(text)) then
                Parse(out).Ok? && Some(Parse(out).value.data) == Base64.Decode(Squeeze(text))
              else Parse(out) == Err(BadBase64)
  {
    SentinelsFound(out);
    hide Base64.Decode, Base64.WellPadded, Squeeze, Size, Find, Between;
    var b, e := Find(out, BIN_BEGIN), Find(out, BIN_END);
    if b.Some? && e.Some? && b.value <= e.value {
      var start := b.value + |BIN_BEGIN|;
      Base64.DecodableIff(Squeeze(if start <= e.value then out[start..e.value] else ""));
    }
  }

  lemma SentinelsFound(out: string)
    ensures forall b: nat, e: nat :: Between(out, b, e) <==>
              Find(out, BIN_BEGIN) == Some(b) && Find(out, BIN_END) == Some(e) && b <= e
    ensures forall b: nat, e: nat :: Between(out, b, e) ==> e <= |out|
  {
    forall b: nat, e: nat
      ensures Between(out, b, e) <==> Find(out, BIN_BEGIN) == Some(b) && Find(out, BIN_END) == Some(e) && b <= e
    {
      FoundFirst(out, BIN_BEGIN, b);
      FoundFirst(out, BIN_END, e);
    }
  }

  lemma FoundFirst(s: string, d: string, p: nat)
    ensures FirstOf(s, d, p) <==> Find(s, d) == Some(p)
  {
    if FirstOf(s, d, p) { FindIs(s, d, p); }
  }

  /** The first BEGIN and the first END, in this order. */
  ghost predicate Between(out: string, b: nat, e: nat) {
    FirstOf(out, BIN_BEGIN, b) && FirstOf(out, BIN_END, e) && b <= e
  }

  ghost predicate FirstOf(s: string, d: string, p: nat) {
    OccursAt(s, d, p) && forall q :: 0 <= q < p ==> !OccursAt(s, d, q)
  }

  /** The size is the number on the rest of the line after the first size marker, with white space
      around it or not, and -1 if there is no such number. */
  lemma SizeIff(out: string, from: nat, p: nat, rest: string)
    requires from <= p <= |out| && OccursAt(out, SIZE_MARK, p)
    requires forall q :: from <= q < p ==> !OccursAt(out, SIZE_MARK, q)
    requires rest == FirstLine(out[p + |SIZE_MARK|..])
    ensures Size(out, from) == if AllDigits(Strip(rest)) then Value(Strip(rest)) else -1
  {
    assert FindFrom(out, SIZE_MARK, from) == Some(p);
    hide FirstLine, Strip;
  }

  /** Base64 with any white space in it has no underscore. */
  lemma BodyHasNoUnderscore(body: string, data: seq<byte>)
    requires Squeeze(body) == Base64.Encode(data)
    ensures '_' !in body
  {
    Base64.EncodeAlphabet(data);
    forall i | 0 <= i < |body| ensures body[i] != '_' {
      if !IsSpace(body[i]) {
        SqueezedChars(body, i);
      }
    }
  }

  lemma BeginIsFirst(body: string, rest: string)
    ensures Find(BIN_BEGIN + body + BIN_END + rest, BIN_BEGIN) == Some(0)
  {
    var out := BIN_BEGIN + body + BIN_END + rest;
    assert out[0..|BIN_BEGIN|] == BIN_BEGIN;
    FindIs(out, BIN_BEGIN, 0);
  }

  lemma EndIsFirst(body: string, rest: string)
    requires '_' !in body
    ensures Find(BIN_BEGIN + body + BIN_END + rest, BIN_END) == Some(|BIN_BEGIN| + |body|)
  {
    var out := BIN_BEGIN + body + BIN_END + rest;
    var e := |BIN_BEGIN| + |body|;
    PartAt(out, BIN_BEGIN + body, BIN_END, rest);
    forall j | 0 <= j < e ensures !OccursAt(out, BIN_END, j) {
      NotBefore(out, body, j);
    }
    FindIs(out, BIN_END, e);
  }

  lemma NotBefore(out: string, body: string, j: nat)
    requires '_' !in body && BIN_BEGIN + body + BIN_END <= out && j < |BIN_BEGIN| + |body|
    ensures !OccursAt(out, BIN_END, j)
  {
    var e := |BIN_BEGIN| + |body|;
    assert forall k :: 0 <= k < |BIN_BEGIN| ==> out[k] == BIN_BEGIN[k];
    assert forall k :: |BIN_BEGIN| <= k < e ==> out[k] == body[k - |BIN_BEGIN|];
    assert out[e] == '_' && out[e + 1] == '_';
    assert BIN_END[0] == BIN_END[1] == BIN_END[5] == '_';
    assert BIN_END[2] == 'R' && BIN_END[3] == 'S' && BIN_END[4] == 'M' && BIN_END[6] == 'B' && BIN_END[10] == 'E';
    OccursChars(out, BIN_END, j);
  }

  lemma {:induction false} DigitsSurvive(digits: string, rest: string)
    requires AllDigits(digits) && (rest == "" || BreaksLine(rest[0]))
    ensures FirstLine(digits + rest) == digits && Strip(digits) == digits
  {
    assert (digits + rest)[1..] == digits[1..] + rest;
    assert (digits + rest)[0] == digits[0];
    if |digits| == 1 {
      assert digits[1..] + rest == rest;
      assert FirstLine(rest) == "";
      assert digits == [digits[0]];
    } else {
      DigitsSurvive(digits[1..], rest);
    }
  }

  lemma SizeMarkIsFirst(before: string, rest: string)
    ensures FindFrom(before + BIN_END + "\n" + SIZE_MARK + rest, SIZE_MARK, |before|)
         == Some(|before| + |BIN_END| + 1)
  {
    var out := before + BIN_END + "\n" + SIZE_MARK + rest;
    var k := |before| + |BIN_END| + 1;
    PartAt(out, before + BIN_END + "\n", SIZE_MARK, rest);
    PartAt(out, before, BIN_END + "\n", SIZE_MARK + rest) by {
      assert out == before + (BIN_END + "\n") + (SIZE_MARK + rest);
    }
    forall j | |before| <= j < k ensures !OccursAt(out, SIZE_MARK, j) {
      NoSizeYet(out, |before|, j);
    }
    assert OccursAt(out, SIZE_MARK, k);
    hide FindFrom;
  }

  /** The size that was printed is the size that is read. */
  lemma SizeIsRead(before: string, size: nat, rest: string)
    requires rest == "" || BreaksLine(rest[0])
    ensures Size(before + BIN_END + "\n" + SIZE_MARK + (Decimal(size) + rest), |before|) == size
  {
    var digits := Decimal(size);
    var out := before + BIN_END + "\n" + SIZE_MARK + (digits + rest);
    SizeMarkIsFirst(before, digits + rest);
    DecimalRoundTrip(size);
    DigitsSurvive(digits, rest);
    hide Decimal, FindFrom;
    assert out[|before| + |BIN_END| + 1 + |SIZE_MARK|..] == digits + rest;
  }

  lemma NoSizeYet(out: string, e: nat, j: nat)
    requires e + |BIN_END| + 1 <= |out| && out[e..e + |BIN_END| + 1] == BIN_END + "\n" && e <= j <= e + |BIN_END|
    ensures !OccursAt(out, SIZE_MARK, j)
  {
    assert forall k {:trigger out[k]} :: e <= k <= e + |BIN_END| ==> out[k] == out[e..e + |BIN_END| + 1][k - e];
    assert SIZE_MARK[0] == SIZE_MARK[1] == '_' && SIZE_MARK[2] == 'R' && SIZE_MARK[6] == 'S' && SIZE_MARK[7] == 'I';
    OccursChars(out, SIZE_MARK, j);
  }

  /** Parsing undoes printing, whatever white space the terminal puts into the body: with the
      size line, ... */
  lemma ParseUndoesPrint(body: string, data: seq<byte>, size: nat, rest: string)
    requires Squeeze(body) == Base64.Encode(data) && (rest == "" || BreaksLine(rest[0]))
    ensures Parse(BIN_BEGIN + body + BIN_END + ("\n" + SIZE_MARK + (Decimal(size) + rest))) == Ok(Piece(data, size))
  {
    var after := "\n" + SIZE_MARK + (Decimal(size) + rest);
    hide *;
    Delimited(body, data, after);
    SizeIsRead(BIN_BEGIN + body, size, rest);
    var front := BIN_BEGIN + body + BIN_END;
    Associates(front + "\n", SIZE_MARK, Decimal(size) + rest);
    Associates(front, "\n", SIZE_MARK + (Decimal(size) + rest));
    Associates("\n", SIZE_MARK, Decimal(size) + rest);
    PrefixBefore(BIN_BEGIN, body);
  }

  /** ... and when the size line is lost. */
  lemma ParseWithoutSize(body: string, data: seq<byte>, rest: string)
    requires Squeeze(body) == Base64.Encode(data)
    requires !Contains(BIN_END + rest, SIZE_MARK)
    ensures Parse(BIN_BEGIN + body + BIN_END + rest) == Ok(Piece(data, -1))
  {
    hide Decimal, Squeeze, Parse, Base64.Encode, FindFrom;
    Delimited(body, data, rest);
    var out := BIN_BEGIN + body + BIN_END + rest;
    var e := |BIN_BEGIN| + |body|;
    PrefixBefore(BIN_BEGIN, body);
    Associates(BIN_BEGIN + body, BIN_END, rest);
    PrefixBefore(BIN_BEGIN + body, BIN_END + rest);
    assert out[e..|out|] == out[e..];
    forall j | e <= j ensures !OccursAt(out, SIZE_MARK, j) {
      SliceHas(out, e, |out|, SIZE_MARK, j);
    }
  }

  lemma Delimited(body: string, data: seq<byte>, rest: string)
    requires Squeeze(body) == Base64.Encode(data)
    ensures var out := BIN_BEGIN + body + BIN_END + rest;
            Parse(out) == Ok(Piece(data, Size(out, |BIN_BEGIN| + |body|)))
  {
    hide *;
    var out := BIN_BEGIN + body + BIN_END + rest;
    var b, e := |BIN_BEGIN|, |BIN_BEGIN| + |body|;
    assert out[b..e] == body by {
      assert out == BIN_BEGIN + body + (BIN_END + rest);
      PartAt(out, BIN_BEGIN, body, BIN_END + rest);
    }
    BodyHasNoUnderscore(body, data);
    BeginIsFirst(body, rest);
    EndIsFirst(body, rest);
    Base64.RoundTrip(data);
    ParseFound(out, 0, e, data);
  }

  lemma ParseFound(out: string, b: nat, e: nat, data: seq<byte>)
    requires Find(out, BIN_BEGIN) == Some(b) && Find(out, BIN_END) == Some(e) && b + |BIN_BEGIN| <= e <= |out|
    requires Base64.Decode(Squeeze(out[b + |BIN_BEGIN|..e])) == Some(data)
    ensures Parse(out) == Ok(Piece(data, Size(out, e)))
  {
    hide Find, Base64.Decode, Squeeze, Size;
  }

  // ---------------------------------------------------------------------------
  // The remote side, and the whole file.

  /** What a piece of a file that does not change is. */
  function PieceAt(file: seq<byte>, offset: nat, limit: nat): seq<byte> {
    if offset >= |file| then [] else file[offset..Min(offset + limit, |file|)]
  }

  /** As many bytes as are asked for and are there, from the offset on. */
  lemma PieceIs(file: seq<byte>, offset: nat, limit: nat)
    ensures |PieceAt(file, offset, limit)| == if offset >= |file| then 0 else Min(limit, |file| - offset)
    ensures forall k :: 0 <= k < |PieceAt(file, offset, limit)| ==> PieceAt(file, offset, limit)[k] == file[offset + k]
  {
  }

  /** `read_remote_file` of a file that does not change.  The terminal puts white space where
      it likes, and the size line may be lost.  `reliable`: the command does not fail. */
  method ReadPiece(file: seq<byte>, offset: int, limit: int, reliable: bool) returns (r: Result<Piece, ReadError>)
    ensures offset < 0 ==> r == Err(NegativeOffset)
    ensures offset >= 0 && limit <= 0 ==> r == Err(NonPositiveLimit)
    ensures offset >= 0 && limit > MAX_READ_BYTES ==> r == Err(LimitTooLarge)
    ensures offset >= 0 && 0 < limit <= MAX_READ_BYTES ==>
              || (r == Err(CommandFailed) && !reliable)
              || (r.Ok? && r.value.data == PieceAt(file, offset, limit)
                  && (r.value.size == |file| || r.value.size == -1))
  {
    if offset < 0 {
      return Err(NegativeOffset);
    }
    if limit <= 0 {
      return Err(NonPositiveLimit);
    }
    if limit > MAX_READ_BYTES {
      return Err(LimitTooLarge);
    }
    var fails: bool := *;
    if fails && !reliable {
      return Err(CommandFailed);
    }
    var data := PieceAt(file, offset, limit);
    var body: string := *;
    if Squeeze(body) != Base64.Encode(data) {
      body := "\n" + Base64.Encode(data) + "\n";
      EncodedIsSqueezed(data);
    }
    var sized: bool := *;
    if sized {
      ParseUndoesPrint(body, data, |file|, "");
      r := Parse(BIN_BEGIN + body + BIN_END + ("\n" + SIZE_MARK + (Decimal(|file|) + "")));
    } else {
      var lost: string := *;
      if Find(BIN_END + lost, SIZE_MARK).Some? {
        lost := "";
      }
      assert !Contains(BIN_END + "", SIZE_MARK) by { NothingLost(); }
      ParseWithoutSize(body, data, lost);
      r := Parse(BIN_BEGIN + body + BIN_END + lost);
    }
  }

  lemma NothingLost()
    ensures !Contains(BIN_END + "", SIZE_MARK)
  {
    forall j ensures !OccursAt(BIN_END + "", SIZE_MARK, j) {
      assert SIZE_MARK[0] == SIZE_MARK[1] == '_' && SIZE_MARK[2] == 'R' && SIZE_MARK[6] == 'S';
      OccursChars(BIN_END + "", SIZE_MARK, j);
    }
  }

  lemma {:induction false} SymbolsAreSqueezed(s: string)
    requires forall i :: 0 <= i < |s| ==> !IsSpace(s[i])
    ensures Squeeze(s + "\n") == s
  {
    assert (s + "\n")[1..] == if s == "" then "" else s[1..] + "\n";
    if s != "" {
      SymbolsAreSqueezed(s[1..]);
    }
  }

  lemma EncodedIsSqueezed(data: seq<byte>)
    ensures Squeeze("\n" + Base64.Encode(data) + "\n") == Base64.Encode(data)
  {
    var e := Base64.Encode(data);
    Base64.EncodeAlphabet(data);
    hide Base64.Encode;
    forall i | 0 <= i < |e| ensures !IsSpace(e[i]) {
      assert e[i] in e;
    }
    SymbolsAreSqueezed(e);
    assert ("\n" + Base64.Encode(data) + "\n")[1..] == Base64.Encode(data) + "\n";
  }

  /** `read_entire_remote_file`: whatever each piece says about the size, reading a file that
      does not change ends, and gives the file. */
  method ReadEntire(file: seq<byte>, reliable: bool) returns (r: Result<seq<byte>, ReadError>)
    ensures r == Ok(file) || (r == Err(CommandFailed) && !reliable)
  {
    var chunks: seq<seq<byte>> := [];
    var offset := 0;
    while true
      invariant offset <= |file| && Flatten(chunks) == file[..offset]
      decreases |file| - offset
    {
      var piece := ReadPiece(file, offset, MAX_READ_BYTES, reliable);
      if piece.Err? {
        return Err(piece.error);
      }
      var data, size := piece.value.data, piece.value.size;
      FlattenAppend(chunks, data);
      chunks := chunks + [data];
      assert file[..offset] + data == file[..offset + |data|];
      offset := offset + |data|;
      if size >= 0 {
        if offset >= size {
          break;
        }
        if data == [] {
          return Err(NoProgress(offset));
        }
        continue;
      }
      if |data| < MAX_READ_BYTES {
        break;
      }
      if data == [] {
        return Err(NoProgress(offset));
      }
    }
    assert offset == |file|;
    assert file[..offset] == file;
    return Ok(Flatten(chunks));
  }
}
