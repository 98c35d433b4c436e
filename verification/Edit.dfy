/** The exact-string edit of a remote file. */
module Edit {
  import opened Common
  import opened Text
  import Utf8

  datatype EditError = EmptyOld | SameText | NotUtf8 | NotFound | NotUnique(count: nat)

  datatype Edited = Edited(content: seq<byte>, replaced: nat)

  /** `text.replace(old, new, 1)`. */
  function ReplaceFirst(text: string, before: string, after: string): string
    requires before != ""
  {
    var k := Find(text, before);
    if k.None? then text else text[..k.value] + after + text[k.value + |before|..]
  }

  /** What `edit_remote_file` makes of the content it has read. */
  function Apply(data: seq<byte>, before: string, after: string, all: bool): Result<Edited, EditError> {
    if before == "" then Err(EmptyOld)
    else if before == after then Err(SameText)
    else
      var text := Utf8.DecodeStrict(data);
      if text.None? then Err(NotUtf8)
      else
        var count := Count(text.value, before);
        if count == 0 then Err(NotFound)
        else if count > 1 && !all then Err(NotUnique(count))
        else if all then Ok(Edited(Utf8.Encode(Replace(text.value, before, after)), count))
        else Ok(Edited(Utf8.Encode(ReplaceFirst(text.value, before, after)), 1))
  }

  // ---------------------------------------------------------------------------
  // One replacement.

  /** `text` is cut into what comes before the first occurrence, it, and what comes after. */
  predicate CutsAtFirst(text: string, before: string, a: string, b: string) {
    text == a + before + b && Find(text, before) == Some(|a|)
  }

  lemma CountIsGaps(text: string, before: string)
    requires before != ""
    ensures Count(text, before) == |Split(text, before)| - 1
  {
    ReplaceIsJoinOfSplit(text, before, "");
  }

  /** The number in the refusal is that of the gaps between the pieces. */
  lemma NotUniqueCounts(text: string, before: string, after: string)
    requires before != "" && before != after
    ensures var r := Apply(Utf8.Encode(text), before, after, false);
            r.Err? && r.error.NotUnique? ==> r.error.count == |Split(text, before)| - 1
  {
    Utf8.StrictUndoesEncode(text);
    CountIsGaps(text, before);
    hide Utf8.Encode, Utf8.DecodeStrict, Find, Split, Count;
  }

  /** A single edit is accepted exactly when no two occurrences fit into the text side by side,
      and then it changes one of them and no other byte. */
  lemma EditsOne(text: string, before: string, after: string)
    requires before != "" && before != after
    ensures var r := Apply(Utf8.Encode(text), before, after, false);
            && (r.Ok? || r.error.NotFound? || r.error.NotUnique?)
            && (r.Err? && r.error == NotFound <==> !Contains(text, before))
            && (r.Ok? ==> exists a, b ::
                  CutsAtFirst(text, before, a, b) && !Contains(b, before)
                  && r == Ok(Edited(Utf8.Encode(a) + Utf8.Encode(after) + Utf8.Encode(b), 1)))
            && (r.Err? && r.error.NotUnique? ==> exists a, b :: CutsAtFirst(text, before, a, b) && Contains(b, before))
  {
    Utf8.StrictUndoesEncode(text);
    hide Utf8.Encode, Utf8.DecodeStrict, Find;
    var k := Find(text, before);
    if k.Some? {
      var a, b := text[..k.value], text[k.value + |before|..];
      assert CutsAtFirst(text, before, a, b) by {
        assert text[k.value..k.value + |before|] == before;
      }
      assert Count(text, before) == 1 + Count(b, before);
      Utf8.EncodeConcat(a + after, b);
      Utf8.EncodeConcat(a, after);
    }
  }

  /** Nothing to look for, and nothing to change, are refused in this order, whatever the file. */
  lemma RefusedAtOnce(data: seq<byte>, before: string, after: string, all: bool)
    ensures Apply(data, before, after, all) == Err(EmptyOld) <==> before == ""
    ensures before != "" ==> (Apply(data, before, after, all) == Err(SameText) <==> before == after)
  {
    hide Utf8.Encode, Utf8.DecodeStrict, Find, Count, Replace;
  }

  /** A text in which `before` does not occur is refused as such, and no other is, whether one
      occurrence is to be replaced or all. */
  lemma NotFoundIff(text: string, before: string, after: string, all: bool)
    requires before != "" && before != after
    ensures Apply(Utf8.Encode(text), before, after, all) == Err(NotFound) <==> !Contains(text, before)
  {
    Utf8.StrictUndoesEncode(text);
    hide Utf8.Encode, Utf8.DecodeStrict, Find, Replace;
  }

  /** An edit is refused as not being text exactly when no text has these bytes. */
  lemma NotUtf8Iff(data: seq<byte>, before: string, after: string, all: bool)
    requires before != "" && before != after
    ensures Apply(data, before, after, all) == Err(NotUtf8) <==> forall text :: Utf8.Encode(text) != data
  {
    var text := Utf8.DecodeStrict(data);
    if text.Some? {
      Utf8.EncodeUndoesStrict(data);
    } else {
      forall t ensures Utf8.Encode(t) != data {
        Utf8.StrictIff(data, t);
      }
    }
  }

  // ---------------------------------------------------------------------------
  // All of them.

  /** Editing all occurrences keeps every piece between them, in order, and joins the pieces
      with the new text; their number is reported. */
  lemma EditsAll(text: string, before: string, after: string)
    requires before != "" && before != after && Contains(text, before)
    ensures Apply(Utf8.Encode(text), before, after, true)
         == Ok(Edited(Utf8.Encode(Join(Split(text, before), after)), |Split(text, before)| - 1))
    ensures Join(Split(text, before), before) == text
    ensures forall p :: p in Split(text, before) ==> !Contains(p, before)
  {
    Utf8.StrictUndoesEncode(text);
    ReplaceIsJoinOfSplit(text, before, after);
    JoinOfSplit(text, before);
    PiecesHaveNo(text, before);
  }

  // ---------------------------------------------------------------------------
  // Uniqueness.

  ghost predicate OccursOnce(text: string, word: string) {
    exists i :: OccursAt(text, word, i) && forall j :: OccursAt(text, word, j) ==> j == i
  }

  /** Some proper beginning of the word is also its end, so two occurrences can overlap. */
  ghost predicate Bordered(word: string) {
    exists n :: Border(word, n)
  }

  predicate Border(word: string, n: int) {
    0 < n < |word| && word[..n] == word[|word| - n..]
  }

  lemma CountOneIff(text: string, word: string)
    requires word != ""
    ensures Count(text, word) == 1 <==>
              Find(text, word).Some? && !Contains(text[Find(text, word).value + |word|..], word)
  {
  }

  lemma OverlapMakesBorder(text: string, word: string, i: int, j: int)
    requires OccursAt(text, word, i) && OccursAt(text, word, j) && i < j < i + |word|
    ensures Border(word, i + |word| - j)
  {
    SliceOfSlice(text, i, i + |word|, j - i, |word|);
    SliceOfSlice(text, j, j + |word|, 0, i + |word| - j);
  }

  /** For a word that cannot overlap itself, what counts as unique is unique. */
  lemma CountedOnceIsOnce(text: string, word: string)
    requires word != "" && Count(text, word) == 1 && !Bordered(word)
    ensures OccursOnce(text, word)
  {
    CountOneIff(text, word);
    var i := Find(text, word).value;
    hide Count, Find, Border;
    var e := i + |word|;
    assert text[e..|text|] == text[e..];
    forall j | OccursAt(text, word, j) ensures j == i {
      SliceHas(text, e, |text|, word, j);
      if i < j < e {
        OverlapMakesBorder(text, word, i, j);
      }
    }
  }

  /** For a word that can, a file with the text in which it does is edited although it occurs
      there twice: the first occurrence is replaced, and half of the second with it. */
  lemma OverlapIsAccepted(word: string, n: nat, after: string) returns (text: string)
    requires Border(word, n)
    ensures Count(text, word) == 1 && OccursAt(text, word, 0) && OccursAt(text, word, |word| - n)
    ensures after != word ==>
              Apply(Utf8.Encode(text), word, after, false) == Ok(Edited(Utf8.Encode(after + word[n..]), 1))
  {
    text := word + word[n..];
    assert text[0..|word|] == word;
    FindIs(text, word, 0);
    assert text[|word|..] == word[n..];
    ShortHasNo(word[n..], word);
    var j := |word| - n;
    assert text[j..j + |word|] == word[j..] + word[n..];
    assert word[..n] + word[n..] == word;
    if after != word {
      FirstIsReplaced(text, word, after);
    }
  }

  lemma FirstIsReplaced(text: string, word: string, after: string)
    requires word != "" && after != word && Count(text, word) == 1 && Find(text, word) == Some(0) && word <= text
    ensures Apply(Utf8.Encode(text), word, after, false) == Ok(Edited(Utf8.Encode(after + text[|word|..]), 1))
  {
    Utf8.StrictUndoesEncode(text);
    hide Utf8.Encode, Utf8.DecodeStrict, Find, Count;
    assert text[..0] + after == after;
  }

  /** So the check for uniqueness means what it says exactly for the texts that cannot overlap
      themselves: nothing else about the file matters. */
  lemma UniquenessMeansOnceIff(word: string)
    requires word != ""
    ensures (forall text :: Count(text, word) == 1 ==> OccursOnce(text, word)) <==> !Bordered(word)
  {
    if Bordered(word) {
      var n :| Border(word, n);
      var text := OverlapIsAccepted(word, n, "");
      assert !OccursOnce(text, word);
    } else {
      forall text | Count(text, word) == 1 ensures OccursOnce(text, word) {
        CountedOnceIsOnce(text, word);
      }
    }
  }
}
