/** What travels through the terminal: the pieces the client pastes, the receiver's
    search for the delimiter, and the block-wise decoding of the received file. */
module Transfer {
  import opened Common
  import Base64

  const RAW_CHUNK := 49_152
  const READ_LIMIT := 65_536

  function Delimiter(token: string): (d: string)
    ensures d != "" && d[0] == '.'
  {
    ".__RSM_WRITE_PAYLOAD_END_" + token + "__."
  }

  /** The client's send loop: one pasted piece per chunk, then the delimiter. */
  method SendPayload(content: seq<byte>, token: string) returns (pasted: seq<string>)
    ensures Flatten(pasted) == Base64.Encode(content) + Delimiter(token)
    ensures pasted != [] && pasted[|pasted| - 1] == Delimiter(token)
    ensures forall k :: 0 <= k < |pasted| - 1 ==> 0 < |pasted[k]| <= READ_LIMIT
    ensures forall k :: 0 <= k < |pasted| - 2 ==> |pasted[k]| == READ_LIMIT
  {
    hide Base64.Encode, Flatten, Delimiter, Sized;
    pasted := [];
    var offset := 0;
    assert Flatten<char>([]) == Base64.Encode(content[..0]) by { EncodeNothing(); }
    assert Sized([], true) by { NothingSized(); }
    while offset < |content|
      invariant offset % 3 == 0
      invariant Flatten(pasted) == Base64.Encode(content[..Min(offset, |content|)])
      invariant Sized(pasted, offset <= |content|)
    {
      var end := Min(offset + RAW_CHUNK, |content|);
      PiecePasted(content, offset, end, pasted);
      OneMoreSized(pasted, Base64.Encode(content[offset..end]), offset + RAW_CHUNK <= |content|);
      pasted := pasted + [Base64.Encode(content[offset..end])];
      offset := offset + RAW_CHUNK;
    }
    assert content[..|content|] == content;
    FlattenAppend(pasted, Delimiter(token));
    AllSized(pasted, offset <= |content|, Delimiter(token));
    pasted := pasted + [Delimiter(token)];
  }

  /** Every piece is full, but perhaps the last. */
  predicate Sized(pasted: seq<string>, lastToo: bool) {
    forall k :: 0 <= k < |pasted| ==>
      0 < |pasted[k]| <= READ_LIMIT && (k < |pasted| - 1 || lastToo ==> |pasted[k]| == READ_LIMIT)
  }

  lemma NothingSized()
    ensures Sized([], true)
  {
  }

  lemma OneMoreSized(pasted: seq<string>, piece: string, full: bool)
    requires Sized(pasted, true) && 0 < |piece| <= READ_LIMIT && (full ==> |piece| == READ_LIMIT)
    ensures Sized(pasted + [piece], full)
  {
  }

  lemma AllSized(pasted: seq<string>, lastToo: bool, d: string)
    requires Sized(pasted, lastToo)
    ensures var all := pasted + [d];
            && (forall k :: 0 <= k < |all| - 1 ==> 0 < |all[k]| <= READ_LIMIT)
            && (forall k :: 0 <= k < |all| - 2 ==> |all[k]| == READ_LIMIT)
  {
  }

  lemma PiecePasted(content: seq<byte>, offset: nat, end: nat, pasted: seq<string>)
    requires offset % 3 == 0 && offset < end <= |content| && end - offset <= RAW_CHUNK
    requires Flatten(pasted) == Base64.Encode(content[..offset])
    ensures var piece := Base64.Encode(content[offset..end]);
      && Flatten(pasted + [piece]) == Base64.Encode(content[..end])
      && 0 < |piece| <= READ_LIMIT && (end - offset == RAW_CHUNK ==> |piece| == READ_LIMIT)
  {
    hide Base64.Encode, Flatten;
    FlattenAppend(pasted, Base64.Encode(content[offset..end]));
    Base64.EncodeConcat(content[..offset], content[offset..end]);
    assert content[..offset] + content[offset..end] == content[..end];
  }

  lemma EncodeNothing()
    ensures Flatten<char>([]) == "" == Base64.Encode([])
  {
  }

  // ---------------------------------------------------------------------------
  // Receiving: the specification looks at everything consumed so far at once.

  datatype Rejection = EndOfInput | TrailingBytes | TooLong | LengthMismatch

  datatype Reception = Accepted(encoded: string) | Rejected(why: Rejection)

  /** The verdict after a read, given everything consumed up to and including it. */
  function Judge(consumed: string, d: string, expected: nat): Option<Reception> {
    match Find(consumed, d)
    case Some(p) =>
      if p + |d| < |consumed| then Some(Rejected(TrailingBytes))
      else if p != expected then Some(Rejected(LengthMismatch))
      else Some(Accepted(consumed[..p]))
    case None =>
      if |consumed| > expected + READ_LIMIT then Some(Rejected(TooLong)) else None
  }

  /** The receiver's verdict on a sequence of parts; an empty read is end of input. */
  function Receive(parts: seq<string>, d: string, expected: nat, consumed: string): Reception {
    if parts == [] || parts[0] == "" then Rejected(EndOfInput)
    else match Judge(consumed + parts[0], d, expected)
      case Some(verdict) => verdict
      case None => Receive(parts[1..], d, expected, consumed + parts[0])
  }

  /** Searching only what is pending, the last |d| - 1 characters before the read and the
      read itself, finds what a search of everything consumed would find. */
  lemma PendingSearch(consumed: string, pending: string, part: string, d: string)
    requires d != "" && Find(consumed, d).None?
    requires |pending| == Min(|consumed|, |d| - 1) && consumed[|consumed| - |pending|..] == pending
    ensures Find(consumed + part, d) ==
            match Find(pending + part, d) case None => None case Some(k) => Some(|consumed| - |pending| + k)
  {
    hide OccursAt;
    var n, s, p := |consumed| - |pending|, consumed + part, pending + part;
    match Find(p, d) {
      case Some(k) =>
        PendingOccurs(consumed, pending, part, d, n + k);
        forall i | 0 <= i < n + k
          ensures !OccursAt(s, d, i)
        {
          PendingOccurs(consumed, pending, part, d, i);
        }
        FindIs(s, d, n + k);
      case None =>
        forall i
          ensures !OccursAt(s, d, i)
        {
          PendingOccurs(consumed, pending, part, d, i);
        }
    }
  }

  lemma PendingOccurs(consumed: string, pending: string, part: string, d: string, i: int)
    requires d != "" && Find(consumed, d).None?
    requires |pending| == Min(|consumed|, |d| - 1) && consumed[|consumed| - |pending|..] == pending
    ensures var n := |consumed| - |pending|;
      OccursAt(consumed + part, d, i) <==> i >= n && OccursAt(pending + part, d, i - n)
  {
    var n, s := |consumed| - |pending|, consumed + part;
    var flushed := consumed[..n];
    assert s == flushed + (pending + part) + "" && s == "" + consumed + part;
    if 0 <= i < n {
      assert !OccursAt(consumed, d, i);
      OccursShift("", consumed, part, d, i);
    } else if n <= i && i + |d| <= |s| {
      OccursShift(flushed, pending + part, "", d, i - n);
    }
  }

  /** Some read of the stream, with no empty read before it, ends at `length`. */
  predicate ReadEndsAt(parts: seq<string>, length: int) {
    length == 0 ||
    (length > 0 && parts != [] && parts[0] != "" && ReadEndsAt(parts[1..], length - |parts[0]|))
  }

  lemma NoEarlierDelimiter(s: string, t: string, d: string, expected: nat)
    requires Find(s + t, d) == Some(expected) && d != ""
    ensures |s| < expected + |d| ==> Find(s, d).None?
    ensures |s| == expected + |d| ==> Find(s, d) == Some(expected)
  {
    forall i | OccursAt(s, d, i)
      ensures expected <= i && i + |d| <= |s|
    {
      OccursShift("", s, t, d, i);
      assert "" + s + t == s + t;
      assert OccursAt(s + t, d, i);
    }
    if |s| == expected + |d| {
      OccursShift("", s, t, d, expected);
      assert "" + s + t == s + t;
      FindIs(s, d, expected);
    }
  }

  /** The receiver's verdict depends on the chunking in one way only: a stream is
      accepted exactly when its first delimiter starts at the expected length and some
      read ends exactly where that delimiter ends. */
  lemma {:induction false} AcceptedIff(parts: seq<string>, d: string, expected: nat, consumed: string)
    requires d != "" && |d| - 1 <= READ_LIMIT
    requires Find(consumed, d).None?
    ensures Receive(parts, d, expected, consumed).Accepted? <==>
            Find(consumed + Flatten(parts), d) == Some(expected) &&
            ReadEndsAt(parts, expected + |d| - |consumed|)
    ensures Receive(parts, d, expected, consumed).Accepted? ==>
            Receive(parts, d, expected, consumed).encoded == (consumed + Flatten(parts))[..expected]
  {
    var whole := consumed + Flatten(parts);
    if parts == [] || parts[0] == "" {
      if Find(whole, d) == Some(expected) {
        NoEarlierDelimiter(consumed, Flatten(parts), d, expected);
        LongEnough(whole, d, expected);
      }
      assert parts == [] ==> consumed + Flatten(parts) == consumed;
    } else {
      var c, rest := consumed + parts[0], parts[1..];
      assert whole == c + Flatten(rest);
      if Find(whole, d) == Some(expected) {
        NoEarlierDelimiter(consumed, Flatten(parts), d, expected);
        NoEarlierDelimiter(c, Flatten(rest), d, expected);
      }
      match Judge(c, d, expected) {
        case Some(verdict) =>
          if verdict.Accepted? {
            DelimiterStays(c, Flatten(rest), d, expected);
            NoEarlierDelimiter(consumed, Flatten(parts), d, expected);
            assert c[..expected] == whole[..expected];
          }
        case None =>
          AcceptedIff(rest, d, expected, c);
      }
    }
  }

  /** Why a stream is refused, told by what has been consumed when it is: nothing more came; the
      first delimiter did not end there; it ended there but did not start at the expected length;
      or more than one read has come beyond that length without one. */
  predicate Refuses(why: Rejection, ended: bool, c: string, d: string, expected: nat) {
    match why
    case EndOfInput => ended
    case TrailingBytes => exists p | 0 <= p < |c| :: FirstAt(c, d, p) && p + |d| < |c|
    case LengthMismatch => exists p | 0 <= p < |c| :: FirstAt(c, d, p) && p + |d| == |c| && p != expected
    case TooLong => |c| > expected + 65_536 && forall p | 0 <= p < |c| :: !OccursAt(c, d, p)
  }

  predicate FirstAt(c: string, d: string, p: int) {
    OccursAt(c, d, p) && forall q | 0 <= q < p :: !OccursAt(c, d, q)
  }

  lemma {:induction false} RefusedBecause(parts: seq<string>, d: string, expected: nat, consumed: string)
      returns (k: nat)
    requires d != "" && Receive(parts, d, expected, consumed).Rejected?
    ensures k <= |parts| && forall i :: 0 <= i < k ==> parts[i] != ""
    ensures Refuses(Receive(parts, d, expected, consumed).why, k == |parts| || parts[k] == "",
                    consumed + Flatten(parts[..k]), d, expected)
  {
    k := 0;
    assert parts[..0] == [];
    if parts != [] && parts[0] != "" {
      var c := consumed + parts[0];
      var verdict := Judge(c, d, expected);
      if verdict.None? {
        k := RefusedBecause(parts[1..], d, expected, c);
        k := k + 1;
        assert parts[..k][1..] == parts[1..][..k - 1];
        Associates(consumed, parts[0], Flatten(parts[1..][..k - 1]));
      } else {
        k := 1;
        assert parts[..1] == [parts[0]] && Flatten([parts[0]]) == parts[0];
        JudgedSo(c, d, expected);
      }
    }
  }

  lemma JudgedSo(c: string, d: string, expected: nat)
    requires d != "" && Judge(c, d, expected).Some? && Judge(c, d, expected).value.Rejected?
    ensures !Judge(c, d, expected).value.why.EndOfInput?
    ensures Refuses(Judge(c, d, expected).value.why, false, c, d, expected)
  {
    var p := Find(c, d);
    if p.Some? {
      assert FirstAt(c, d, p.value);
    }
  }

  lemma NothingFound(d: string)
    requires d != ""
    ensures Find("", d).None?
  {
  }

  lemma LongEnough(s: string, d: string, p: nat)
    requires Find(s, d) == Some(p)
    ensures p + |d| <= |s|
  {
  }

  lemma DelimiterStays(s: string, t: string, d: string, p: nat)
    requires Find(s, d) == Some(p) && p + |d| == |s|
    ensures Find(s + t, d) == Some(p)
  {
    forall i | 0 <= i <= p
      ensures OccursAt(s + t, d, i) <==> OccursAt(s, d, i)
    {
      OccursShift("", s, t, d, i);
      assert "" + s + t == s + t;
    }
    FindIs(s + t, d, p);
  }

  // ---------------------------------------------------------------------------
  // Decoding the received file block by block, carrying up to three characters.

  function Usable(block: string): (u: nat)
    ensures u <= |block| && u % 4 == 0 && |block| - u < 4
  {
    |block| - |block| % 4
  }

  function DecodeParts(parts: seq<string>, carry: string): Option<seq<byte>> {
    if parts == [] || parts[0] == "" then
      if carry == "" then Some([]) else None
    else
      var block := carry + parts[0];
      var u := Usable(block);
      Both(Base64.Decode(block[..u]), DecodeParts(parts[1..], block[u..]))
  }

  ghost predicate NoEmptyRead(parts: seq<string>) {
    forall k :: 0 <= k < |parts| ==> parts[k] != ""
  }

  /** Padding somewhere before the last four characters. */
  predicate EarlyPadding(s: string) {
    |s| > 4 && '=' in s[..|s| - 4]
  }

  /** What a text with a valid piece in front decodes to. */
  lemma DecodeFront(head: string, rest: string)
    requires |head| % 4 == 0
    ensures Base64.Decode(head + rest).Some? ==>
            Base64.Decode(head).Some? && Base64.Decode(rest).Some? &&
            Base64.Decode(head + rest) == Both(Base64.Decode(head), Base64.Decode(rest))
    ensures Base64.Decode(head).Some? && Base64.Decode(rest).Some? && !EarlyPadding(head + rest) ==>
            Base64.Decode(head + rest).Some?
  {
    if rest == "" {
      assert head + rest == head;
      assert Base64.Decode(head).Some? ==> Base64.Decode(head).value + [] == Base64.Decode(head).value;
    } else {
      Base64.DecodeConcat(head, rest);
      if Base64.Decode(head).Some? && Base64.Decode(rest).Some? && !EarlyPadding(head + rest) {
        Base64.DecodedSymbols(head);
        var n := |head + rest| - 4;
        assert |head| <= n;
        assert forall c <- head :: c in (head + rest)[..n] by {
          assert head <= (head + rest)[..n];
        }
      }
    }
  }

  lemma EarlyPaddingRejected(s: string)
    ensures EarlyPadding(s) ==> Base64.Decode(s).None?
  {
    hide Base64.Decode;
    if Base64.Decode(s).Some? { Base64.DecodedLength(s); }
    if EarlyPadding(s) && |s| % 4 == 0 {
      var head, last := s[..|s| - 4], s[|s| - 4..];
      assert head + last == s;
      Base64.DecodeConcat(head, last);
    }
  }

  /** How a decoding `got` of a text relates to decoding it as a whole. */
  predicate Agrees(got: Option<seq<byte>>, whole: string) {
    && (Base64.Decode(whole).Some? ==> got == Base64.Decode(whole))
    && (got.Some? && !EarlyPadding(whole) ==> Base64.Decode(whole).Some?)
    && (got.Some? ==> |whole| % 4 == 0)
  }

  function Both(head: Option<seq<byte>>, tail: Option<seq<byte>>): Option<seq<byte>> {
    if head.None? || tail.None? then None else Some(head.value + tail.value)
  }

  lemma BlockThenTail(head: string, tail: string, later: Option<seq<byte>>)
    requires |head| % 4 == 0 && Agrees(later, tail)
    ensures Agrees(Both(Base64.Decode(head), later), head + tail)
  {
    hide Base64.Decode, EarlyPadding;
    DecodeFront(head, tail);
    TailPadding(head, tail);
    LengthOfBoth(head, tail);
  }

  lemma LengthOfBoth(a: string, b: string)
    requires |a| % 4 == 0
    ensures |a + b| % 4 == |b| % 4
  {
  }

  lemma {:induction false} DecodePartsAgree(parts: seq<string>, carry: string)
    requires NoEmptyRead(parts) && |carry| < 4
    ensures Agrees(DecodeParts(parts, carry), carry + Flatten(parts))
  {
    hide Base64.Decode, Agrees;
    if parts == [] {
      assert carry + Flatten(parts) == carry;
      TinyAgrees(carry);
    } else {
      var block := carry + parts[0];
      var head, rest := block[..Usable(block)], block[Usable(block)..];
      var tail := rest + Flatten(parts[1..]);
      assert DecodeParts(parts, carry) == Both(Base64.Decode(head), DecodeParts(parts[1..], rest));
      assert Flatten(parts) == parts[0] + Flatten(parts[1..]);
      Recut(carry, parts[0], Flatten(parts[1..]), Usable(block));
      hide DecodeParts, Flatten, Usable, Both;
      DecodePartsAgree(parts[1..], rest);
      BlockThenTail(head, tail, DecodeParts(parts[1..], rest));
    }
  }

  lemma TinyAgrees(carry: string)
    requires |carry| < 4
    ensures Agrees(if carry == "" then Some([]) else None, carry)
  {
    DecodeTiny(carry);
    EarlyPaddingRejected(carry);
  }

  lemma DecodeTiny(s: string)
    requires |s| < 4
    ensures Base64.Decode(s) == if s == "" then Some([]) else None
  {
  }

  lemma TailPadding(head: string, tail: string)
    ensures EarlyPadding(tail) ==> EarlyPadding(head + tail)
  {
    if EarlyPadding(tail) {
      assert (head + tail)[..|head + tail| - 4] == head + tail[..|tail| - 4];
    }
  }

  function Aligned(n: nat): (a: nat)
    ensures a % 4 == 0 && a <= n < a + 4
  {
    n - n % 4
  }

  lemma AlignedGrows(m: nat, n: nat)
    ensures m <= n ==> Aligned(m) <= Aligned(n)
    ensures m % 4 == 0 ==> Aligned(m + n) == m + Aligned(n)
  {
  }

  /** Where the first `k` reads are cut, so that whole quads come before and less than a quad is
      carried on. */
  function CutAt(parts: seq<string>, carry: string, k: nat): nat
    requires k <= |parts|
  {
    Aligned(|carry| + |Flatten(parts[..k])|)
  }

  /** The part of the text between two cuts. */
  function PieceAt(parts: seq<string>, carry: string, k: nat): string
    requires k < |parts|
  {
    CutsInside(parts, carry, k);
    (carry + Flatten(parts))[CutAt(parts, carry, k)..CutAt(parts, carry, k + 1)]
  }

  lemma CutsInside(parts: seq<string>, carry: string, k: nat)
    requires k < |parts|
    ensures CutAt(parts, carry, k) <= CutAt(parts, carry, k + 1) <= |carry + Flatten(parts)|
  {
    hide Flatten, Aligned;
    FlattenPrefix(parts, k + 1);
    assert parts[..k + 1] == parts[..k] + [parts[k]];
    FlattenAppend(parts[..k], parts[k]);
    AlignedGrows(|carry| + |Flatten(parts[..k])|, |carry| + |Flatten(parts[..k + 1])|);
  }

  /** The text consists of whole quads, and every piece of it decodes by itself. */
  ghost predicate PiecesDecode(parts: seq<string>, carry: string) {
    && |carry + Flatten(parts)| % 4 == 0
    && forall k: nat :: k < |parts| ==> Base64.WellPadded(PieceAt(parts, carry, k))
  }

  lemma SliceAfter(x: string, y: string, a: nat, b: nat)
    requires a <= b <= |y|
    ensures (x + y)[|x| + a..|x| + b] == y[a..b]
  {
  }

  /** The pieces of a text are its first one, and those of what remains. */
  lemma PiecesShift(parts: seq<string>, carry: string, k: nat)
    requires parts != [] && |carry| < 4 && k + 1 < |parts|
    ensures var block := carry + parts[0];
            PieceAt(parts, carry, k + 1) == PieceAt(parts[1..], block[Usable(block)..], k)
  {
    var block, later := carry + parts[0], Flatten(parts[1..]);
    var u := Usable(block);
    var rest := block[u..];
    Recut(carry, parts[0], later, u);
    assert carry + Flatten(parts) == block[..u] + (rest + later) && |block[..u]| == u;
    CutShifts(parts, carry, k);
    CutShifts(parts, carry, k + 1);
    CutsInside(parts[1..], rest, k);
    hide Flatten, CutAt, Usable;
    SliceAfter(block[..u], rest + later, CutAt(parts[1..], rest, k), CutAt(parts[1..], rest, k + 1));
  }

  lemma CutShifts(parts: seq<string>, carry: string, k: nat)
    requires parts != [] && |carry| < 4 && k < |parts|
    ensures var block := carry + parts[0];
            CutAt(parts, carry, k + 1) == Usable(block) + CutAt(parts[1..], block[Usable(block)..], k)
  {
    var block := carry + parts[0];
    assert parts[..k + 1][1..] == parts[1..][..k];
    assert |Flatten(parts[..k + 1])| == |parts[0]| + |Flatten(parts[1..][..k])|;
    hide Aligned, Flatten, Usable;
    AlignedGrows(Usable(block), |block[Usable(block)..]| + |Flatten(parts[1..][..k])|);
  }

  lemma FirstPiece(parts: seq<string>, carry: string)
    requires parts != [] && |carry| < 4
    ensures var block := carry + parts[0];
            PieceAt(parts, carry, 0) == block[..Usable(block)]
  {
    var block := carry + parts[0];
    var u := Usable(block);
    assert parts[..0] == [] && parts[..1] == [parts[0]];
    assert Flatten([parts[0]]) == parts[0] + Flatten<char>([]) == parts[0];
    Recut(carry, parts[0], Flatten(parts[1..]), u);
    CutsInside(parts, carry, 0);
    assert carry + Flatten(parts) == block[..u] + (block[u..] + Flatten(parts[1..]));
  }

  lemma {:induction false} PiecesIff(parts: seq<string>, carry: string)
    requires NoEmptyRead(parts) && |carry| < 4
    ensures DecodeParts(parts, carry).Some? <==> PiecesDecode(parts, carry)
  {
    hide Base64.Decode, Base64.WellPadded, PieceAt, CutAt;
    if parts == [] {
      assert carry + Flatten(parts) == carry;
    } else {
      var block := carry + parts[0];
      var u := Usable(block);
      var head, rest := block[..u], block[u..];
      assert DecodeParts(parts, carry) == Both(Base64.Decode(head), DecodeParts(parts[1..], rest));
      assert Flatten(parts) == parts[0] + Flatten(parts[1..]);
      assert |head| % 4 == 0 && |rest| < 4;
      hide DecodeParts, Flatten, Usable, PiecesDecode;
      PiecesIff(parts[1..], rest);
      FirstPiece(parts, carry);
      Base64.DecodableIff(head);
      Recut(carry, parts[0], Flatten(parts[1..]), u);
      LengthOfBoth(head, rest + Flatten(parts[1..]));
      forall k: nat | k + 1 < |parts| ensures PieceAt(parts, carry, k + 1) == PieceAt(parts[1..], rest, k) {
        PiecesShift(parts, carry, k);
      }
      PiecesTogether(parts, carry, rest);
    }
  }

  lemma PiecesTogether(parts: seq<string>, carry: string, rest: string)
    requires parts != [] && |carry + Flatten(parts)| % 4 == |rest + Flatten(parts[1..])| % 4
    requires forall k: nat | k + 1 < |parts| :: PieceAt(parts, carry, k + 1) == PieceAt(parts[1..], rest, k)
    ensures PiecesDecode(parts, carry) <==>
              Base64.WellPadded(PieceAt(parts, carry, 0)) && PiecesDecode(parts[1..], rest)
  {
    hide PieceAt, Base64.WellPadded, Flatten;
    var first := Base64.WellPadded(PieceAt(parts, carry, 0));
    forall k: nat | k < |parts| && first && PiecesDecode(parts[1..], rest)
      ensures Base64.WellPadded(PieceAt(parts, carry, k))
    {
      if k > 0 {
        assert PieceAt(parts, carry, (k - 1) + 1) == PieceAt(parts[1..], rest, k - 1);
      }
    }
    forall k: nat | k < |parts[1..]| && PiecesDecode(parts, carry)
      ensures Base64.WellPadded(PieceAt(parts[1..], rest, k))
    {
      assert PieceAt(parts, carry, k + 1) == PieceAt(parts[1..], rest, k);
    }
  }

  /** For every way the reads cut a text.  The loop accepts it if and only if it consists of
      whole quads and every piece between the cuts decodes by itself.  What one decoding of the
      whole text yields the loop yields too; and it accepts a text that one decoding refuses if
      and only if, besides, there is padding before the last quad. */
  lemma DecodePartsIff(parts: seq<string>)
    requires NoEmptyRead(parts)
    ensures var got, whole := DecodeParts(parts, ""), Base64.Decode(Flatten(parts));
            && (got.Some? <==> PiecesDecode(parts, ""))
            && (whole.Some? ==> got == whole)
            && (got.Some? && whole.None? <==> PiecesDecode(parts, "") && EarlyPadding(Flatten(parts)))
  {
    hide Base64.Decode, PiecesDecode, EarlyPadding, DecodeParts, Flatten;
    DecodePartsAgree(parts, "");
    PiecesIff(parts, "");
    NothingBefore(Flatten(parts));
    EarlyPaddingRejected(Flatten(parts));
  }

  // A buffered read of a regular file falls short only at its end, so the reads of the received
  // file are cut at the multiples of READ_LIMIT.

  function Blocks(s: string): seq<string> {
    if s == "" then [] else [s[..Min(READ_LIMIT, |s|)]] + Blocks(s[Min(READ_LIMIT, |s|)..])
  }

  /** What the loop makes of a file. */
  function DecodeBlocks(s: string): Option<seq<byte>> {
    DecodeParts(Blocks(s), "")
  }

  predicate DecodesTo(encoded: string, target: seq<byte>) {
    DecodeBlocks(encoded) == Some(target)
  }

  lemma {:induction false} BlocksAre(s: string)
    ensures NoEmptyRead(Blocks(s)) && Flatten(Blocks(s)) == s
  {
    if s != "" {
      var n := Min(READ_LIMIT, |s|);
      BlocksAre(s[n..]);
      assert s == s[..n] + s[n..];
    }
  }

  /** The text from the `k`th multiple of READ_LIMIT up to the next, or to its end. */
  function BlockAt(s: string, k: nat): string
    requires k * READ_LIMIT <= |s|
  {
    s[k * READ_LIMIT..Min((k + 1) * READ_LIMIT, |s|)]
  }

  ghost predicate BlocksDecode(s: string) {
    |s| % 4 == 0 && forall k: nat :: k * READ_LIMIT < |s| ==> Base64.WellPadded(BlockAt(s, k))
  }

  /** The loop, with the first block taken off. */
  lemma BlockFirst(s: string, carry: string)
    requires s != ""
    ensures var n := Min(READ_LIMIT, |s|);
            var block := carry + s[..n];
            DecodeParts(Blocks(s), carry) ==
              Both(Base64.Decode(block[..Usable(block)]), DecodeParts(Blocks(s[n..]), block[Usable(block)..]))
  {
    hide Base64.Decode;
    var n := Min(READ_LIMIT, |s|);
    assert Blocks(s)[0] == s[..n] && Blocks(s)[1..] == Blocks(s[n..]);
  }

  /** One turn of the loop: `target` has been decoded, `carry` is carried on, `rest` is unread. */
  lemma BlockDecoded(whole: Option<seq<byte>>, target: seq<byte>, carry: string, rest: string)
    requires rest != "" && whole == Prepend(target, DecodeParts(Blocks(rest), carry))
    ensures var n := Min(READ_LIMIT, |rest|);
            var block := carry + rest[..n];
            match Base64.Decode(block[..Usable(block)])
            case None => whole.None?
            case Some(head) =>
              whole == Prepend(target + head, DecodeParts(Blocks(rest[n..]), block[Usable(block)..]))
  {
    BlockFirst(rest, carry);
    hide Base64.Decode, Blocks, DecodeParts;
    var n := Min(READ_LIMIT, |rest|);
    var block := carry + rest[..n];
    var head, later := Base64.Decode(block[..Usable(block)]), DecodeParts(Blocks(rest[n..]), block[Usable(block)..]);
    if head.Some? && later.Some? {
      Associates(target, head.value, later.value);
    }
  }

  function Prepend(head: seq<byte>, tail: Option<seq<byte>>): Option<seq<byte>> {
    match tail case None => None case Some(t) => Some(head + t)
  }

  /** Before the first turn, and after the last. */
  lemma NothingDecoded(s: string)
    ensures DecodeBlocks(s) == Prepend([], DecodeParts(Blocks(s), ""))
  {
    hide Blocks, DecodeParts;
    var got := DecodeParts(Blocks(s), "");
    if got.Some? { NothingBefore(got.value); }
  }

  lemma AllDecoded(target: seq<byte>, carry: string)
    ensures Prepend(target, DecodeParts(Blocks(""), carry)) == if carry == "" then Some(target) else None
  {
    NothingAfter(target);
  }

  lemma {:induction false} BlocksDecodeIff(s: string)
    ensures DecodeBlocks(s).Some? <==> BlocksDecode(s)
  {
    hide Base64.Decode, Base64.WellPadded;
    if |s| <= READ_LIMIT {
      OneBlock(s);
    } else {
      var first, rest := s[..READ_LIMIT], s[READ_LIMIT..];
      assert s == first + rest && first == BlockAt(s, 0);
      FirstBlock(first, rest);
      Base64.DecodableIff(first);
      BlocksDecodeIff(rest);
      BlocksShift(s);
      hide DecodeBlocks, BlocksDecode;
    }
  }

  lemma FirstBlock(first: string, rest: string)
    requires |first| == READ_LIMIT
    ensures DecodeBlocks(first + rest) == Both(Base64.Decode(first), DecodeBlocks(rest))
  {
    hide Base64.Decode, Blocks, DecodeParts;
    BlockFirst(first + rest, "");
    PrefixBefore(first, rest);
    NothingBefore(first);
    assert first[..READ_LIMIT] == first && first[READ_LIMIT..] == "";
  }

  lemma OneBlock(s: string)
    requires |s| <= READ_LIMIT
    ensures DecodeBlocks(s).Some? <==> BlocksDecode(s)
  {
    hide Base64.Decode, Base64.WellPadded;
    if s != "" {
      BlockFirst(s, "");
      NothingBefore(s);
      assert s[..|s|] == s && s[|s|..] == "" && Blocks("") == [];
      assert BlockAt(s, 0) == s;
      Base64.DecodableIff(s);
      assert Usable(s) == |s| <==> s[Usable(s)..] == "";
    }
  }

  lemma BlockShifts(s: string, k: nat)
    requires |s| > READ_LIMIT && k * READ_LIMIT < |s[READ_LIMIT..]|
    ensures (k + 1) * READ_LIMIT < |s| && BlockAt(s, k + 1) == BlockAt(s[READ_LIMIT..], k)
  {
    var rest := s[READ_LIMIT..];
    var a, b := k * READ_LIMIT, Min((k + 1) * READ_LIMIT, |rest|);
    assert BlockAt(s, k + 1) == s[READ_LIMIT + a..READ_LIMIT + b];
    SliceAfter(s[..READ_LIMIT], rest, a, b);
    assert s == s[..READ_LIMIT] + rest;
  }

  lemma BlocksShift(s: string)
    requires |s| > READ_LIMIT
    ensures BlocksDecode(s) <==> Base64.WellPadded(BlockAt(s, 0)) && BlocksDecode(s[READ_LIMIT..])
  {
    hide Base64.WellPadded, BlockAt;
    var rest := s[READ_LIMIT..];
    forall k: nat | k * READ_LIMIT < |s| && Base64.WellPadded(BlockAt(s, 0)) && BlocksDecode(rest)
      ensures Base64.WellPadded(BlockAt(s, k))
    {
      if k > 0 { BlockShifts(s, k - 1); }
    }
    forall k: nat | k * READ_LIMIT < |rest| && BlocksDecode(s) ensures Base64.WellPadded(BlockAt(rest, k)) {
      BlockShifts(s, k);
    }
  }

  /** The same for the file as the receiver reads it, on the text alone: the loop accepts what
      one strict decoding refuses if and only if the text consists of whole quads, every block
      of READ_LIMIT characters decodes by itself, and there is padding before the last quad. */
  lemma LaxerIff(s: string)
    ensures var got, whole := DecodeBlocks(s), Base64.Decode(s);
            && (got.Some? <==> BlocksDecode(s))
            && (whole.Some? ==> got == whole)
            && (got.Some? && whole.None? <==> BlocksDecode(s) && EarlyPadding(s))
  {
    hide *;
    BlocksAre(s);
    DecodePartsIff(Blocks(s));
    BlocksDecodeIff(s);
    BlocksFound(s);
  }

  lemma BlocksFound(s: string)
    ensures DecodeBlocks(s) == DecodeParts(Blocks(s), "")
  {
  }

  /** So two encodings, one after the other, pass as that of both contents, when the first is
      padded and fills a block; one strict decoding refuses them. */
  lemma BlockwiseDecodingIsLaxer(a: seq<byte>, b: seq<byte>)
    requires (|a| == 49_150 || |a| == 49_151) && b != []
    ensures DecodeBlocks(Base64.Encode(a) + Base64.Encode(b)) == Some(a + b)
    ensures Base64.Decode(Base64.Encode(a) + Base64.Encode(b)).None?
  {
    hide Base64.Encode, Base64.Decode, DecodeBlocks, BlocksDecode, EarlyPadding;
    var first, second := Base64.Encode(a), Base64.Encode(b);
    Base64.RoundTrip(a);
    Base64.RoundTrip(b);
    LaxerIff(second);
    FirstBlock(first, second);
    Joined(a, b);
    Refused(a, second);
  }

  lemma Refused(a: seq<byte>, rest: string)
    requires |Base64.Encode(a)| % 4 == 0 && |a| % 3 != 0 && rest != ""
    ensures Base64.Decode(Base64.Encode(a) + rest).None?
  {
    hide Base64.Decode, Base64.Encode;
    Base64.PaddingShows(a);
    Base64.NoSymbol();
    Base64.DecodeConcat(Base64.Encode(a), rest);
  }

  lemma Joined(a: seq<byte>, b: seq<byte>)
    ensures Both(Some(a), Some(b)) == Some(a + b)
  {
  }

  // ---------------------------------------------------------------------------

  /** Every content survives the trip: whatever the token, whatever way the terminal cuts
      the stream into parts and whatever way the file is cut into blocks, the stream is
      accepted at exactly the announced length and decodes to the content. */
  lemma EndToEnd(content: seq<byte>, token: string, parts: seq<string>, blocks: seq<string>)
    requires |Delimiter(token)| - 1 <= READ_LIMIT
    requires NoEmptyRead(parts) && Flatten(parts) == Base64.Encode(content) + Delimiter(token)
    requires NoEmptyRead(blocks) && Flatten(blocks) == Base64.Encode(content)
    ensures Receive(parts, Delimiter(token), 4 * ((|content| + 2) / 3), "")
         == Accepted(Base64.Encode(content))
    ensures DecodeParts(blocks, "") == Some(content) && DecodeBlocks(Base64.Encode(content)) == Some(content)
  {
    hide *;
    var encoded, d := Base64.Encode(content), Delimiter(token);
    DelimiterAfter(encoded, d, content);
    WholeStreamEnds(parts);
    StreamAccepted(parts, encoded, d);
    Base64.RoundTrip(content);
    FileDecoded(blocks, encoded, content);
    LaxerIff(encoded);
  }

  lemma StreamAccepted(parts: seq<string>, encoded: string, d: string)
    requires d != "" && |d| - 1 <= READ_LIMIT && Flatten(parts) == encoded + d
    requires Find(encoded + d, d) == Some(|encoded|) && ReadEndsAt(parts, |encoded + d|)
    ensures Receive(parts, d, |encoded|, "") == Accepted(encoded)
  {
    hide *;
    NothingFound(d);
    NothingBefore(Flatten(parts));
    PrefixBefore(encoded, d);
    AcceptedIff(parts, d, |encoded|, "");
  }

  lemma FileDecoded(blocks: seq<string>, encoded: string, content: seq<byte>)
    requires NoEmptyRead(blocks) && Flatten(blocks) == encoded && Base64.Decode(encoded) == Some(content)
    ensures DecodeParts(blocks, "") == Some(content)
  {
    hide *;
    DecodePartsIff(blocks);
  }

  /** `.` is outside the base64 alphabet, so the delimiter cannot start inside the payload. */
  lemma DelimiterAfter(encoded: string, d: string, content: seq<byte>)
    requires encoded == Base64.Encode(content) && d != "" && d[0] == '.'
    ensures Find(encoded + d, d) == Some(|encoded|)
    ensures forall t :: t < encoded + d && t <= encoded + d ==> Find(t, d).None?
  {
    Base64.EncodeAlphabet(content);
    var s := encoded + d;
    forall i | OccursAt(s, d, i)
      ensures i >= |encoded|
    {
      assert s[i] == d[0] by { assert s[i..i + |d|][0] == s[i]; }
    }
    assert OccursAt(s, d, |encoded|);
    FindIs(s, d, |encoded|);
    forall t | t < s && t <= s
      ensures Find(t, d).None?
    {
      forall i
        ensures OccursAt(t, d, i) ==> OccursAt(s, d, i)
      {
        assert t == s[..|t|];
      }
    }
  }

  lemma {:induction false} WholeStreamEnds(parts: seq<string>)
    requires NoEmptyRead(parts)
    ensures ReadEndsAt(parts, |Flatten(parts)|)
  {
    if parts != [] {
      WholeStreamEnds(parts[1..]);
    }
  }
}
