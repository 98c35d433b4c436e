/** Bounding a text by the number of its UTF-8 bytes, with a marker in the middle. */
module Truncate {
  import opened Common
  import opened Utf8

  const MARKER := "\n... remote output truncated ...\n"

  function Bytes(s: string): nat {
    |Encode(s)|
  }

  /** The bytes that the marker leaves for the text. */
  function Available(limit: nat): nat {
    if limit < Bytes(MARKER) then 0 else limit - Bytes(MARKER)
  }

  function HeadRoom(limit: nat): nat {
    Available(limit) / 2
  }

  function TailRoom(limit: nat): nat {
    Available(limit) - HeadRoom(limit)
  }

  /** `_truncate_output`. */
  function Truncate(text: string, limit: nat): (string, bool) {
    var raw := Encode(text);
    if |raw| <= limit then (text, false)
    else
      var tailRoom := TailRoom(limit);
      assert tailRoom <= |raw| && HeadRoom(limit) <= |raw| by { MarkerHasBytes(); }
      var head := DecodeIgnore(raw[..HeadRoom(limit)]);
      var tail := if tailRoom > 0 then DecodeIgnore(raw[|raw| - tailRoom..]) else "";
      (head + MARKER + tail, true)
  }

  lemma MarkerHasBytes()
    ensures |Encode(MARKER)| > 0
  {
  }

  /** Head and tail share the room that the marker leaves, and the tail gets the odd byte. */
  lemma RoomIsShared(limit: nat)
    ensures Bytes(MARKER) <= limit ==> HeadRoom(limit) + Bytes(MARKER) + TailRoom(limit) == limit
    ensures limit < Bytes(MARKER) ==> HeadRoom(limit) == TailRoom(limit) == 0
    ensures HeadRoom(limit) <= TailRoom(limit) <= HeadRoom(limit) + 1
  {
    hide Bytes;
  }

  lemma BytesSplit(s: string, k: nat)
    requires k <= |s|
    ensures Bytes(s[..k]) + Bytes(s[k..]) == Bytes(s)
  {
    EncodeConcat(s[..k], s[k..]);
    assert s[..k] + s[k..] == s;
  }

  lemma BytesGrow(s: string, j: nat, k: nat)
    requires j <= k <= |s|
    ensures Bytes(s[..j]) <= Bytes(s[..k])
  {
    BytesSplit(s[..k], j);
    assert s[..k][..j] == s[..j];
  }

  lemma HeadIs(text: string, room: nat)
    requires room < Bytes(text)
    ensures DecodeIgnore(Encode(text)[..room]) == text[..Fit(text, room)]
    ensures var k := Fit(text, room);
            k < |text| && Bytes(text[..k]) <= room < Bytes(text[..k + 1]) <= Bytes(text[..k]) + 4
  {
    PrefixDecodes(text, room);
    FitIsLongest(text, room);
  }

  lemma TailIs(text: string, room: nat)
    requires room < Bytes(text)
    ensures room > 0 ==> DecodeIgnore(Encode(text)[Bytes(text) - room..]) == text[Touched(text, Bytes(text) - room)..]
    ensures var j := Touched(text, Bytes(text) - room);
            && 0 < j && Bytes(text[j..]) <= room < Bytes(text[j - 1..]) && room < Bytes(text[j..]) + 4
            && Bytes(text[..j]) == Bytes(text) - Bytes(text[j..]) && (room == 0 ==> text[j..] == "")
  {
    var skip := Bytes(text) - room;
    SuffixDecodes(text, skip);
    TouchedIsLeast(text, skip);
    var j := Touched(text, skip);
    BytesSplit(text, j);
    BytesSplit(text, j - 1);
  }

  /** A text that is too long becomes the longest prefix of whole characters that has room,
      the marker, and the longest such suffix, and the two do not overlap.  If the limit has
      room for the marker at all, at most six bytes of it are wasted. */
  lemma TruncatedForm(text: string, limit: nat) returns (k: nat, j: nat)
    requires Bytes(text) > limit
    ensures k <= j <= |text| && k < |text| && 0 < j
    ensures Truncate(text, limit) == (text[..k] + MARKER + text[j..], true)
    ensures Bytes(text[..k]) <= HeadRoom(limit) < Bytes(text[..k + 1])
    ensures Bytes(text[j..]) <= TailRoom(limit) < Bytes(text[j - 1..])
    ensures limit >= Bytes(MARKER) ==> limit - 6 <= Bytes(Truncate(text, limit).0) <= limit
  {
    hide Encode, DecodeIgnore, Fit, Touched;
    MarkerHasBytes();
    HeadIs(text, HeadRoom(limit));
    TailIs(text, TailRoom(limit));
    k := Fit(text, HeadRoom(limit));
    j := Touched(text, Bytes(text) - TailRoom(limit));
    if j <= k {
      BytesGrow(text, j, k);
    }
    EncodeConcat(text[..k] + MARKER, text[j..]);
    EncodeConcat(text[..k], MARKER);
  }

  /** So the result respects the limit exactly when the text did, or the marker does: a limit
      smaller than the marker gives the marker alone, which is over it. */
  lemma RespectsTheLimitIff(text: string, limit: nat)
    ensures Bytes(Truncate(text, limit).0) <= limit <==> Bytes(text) <= limit || Bytes(MARKER) <= limit
    ensures Truncate(text, limit).1 <==> Bytes(text) > limit
    ensures Truncate(text, limit) == (text, false) <==> Bytes(text) <= limit
  {
    hide Encode, DecodeIgnore, EncodeChar, First;
    if Bytes(text) > limit {
      var k, j := TruncatedForm(text, limit);
      hide Truncate;
      EncodeConcat(text[..k] + MARKER, text[j..]);
      EncodeConcat(text[..k], MARKER);
    }
  }
}
