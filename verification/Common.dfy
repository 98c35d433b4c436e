/** Data shared by every component: optional values, bytes, concatenation, and the
    substring search that Python's `find` performs. */
module Common {

  type byte = b: int | 0 <= b < 256

  datatype Option<+T> = None | Some(value: T)

  datatype Result<+T, +E> = Ok(value: T) | Err(error: E)

  /** The stages a write reports its failures under, by the client or by the receiver. */
  datatype Stage = AtPrepare | AtStartup | AtTransfer | AtFinish | AtVerify | AtCommit

  /** What a failed write says about its destination. */
  datatype DestinationState = Unchanged | Unknown

  function Min(a: int, b: int): (m: int)
    ensures m <= a && m <= b && (m == a || m == b)
  {
    if a <= b then a else b
  }

  /** The stream delivered by a sequence of reads, or the whole of a list of chunks. */
  function Flatten<T>(parts: seq<seq<T>>): seq<T> {
    if parts == [] then [] else parts[0] + Flatten(parts[1..])
  }

  lemma {:induction false} FlattenAppend<T>(parts: seq<seq<T>>, part: seq<T>)
    ensures Flatten(parts + [part]) == Flatten(parts) + part
  {
    if parts == [] {
      assert [part] == [part] + [];
    } else {
      FlattenAppend(parts[1..], part);
      assert (parts + [part])[1..] == parts[1..] + [part];
      assert parts[0] + (Flatten(parts[1..]) + part) == Flatten(parts) + part;
    }
  }

  lemma {:induction false} FlattenPrefix<T>(parts: seq<seq<T>>, k: nat)
    requires k <= |parts|
    ensures Flatten(parts) == Flatten(parts[..k]) + Flatten(parts[k..])
  {
    if k == 0 {
    } else {
      FlattenPrefix(parts[1..], k - 1);
      assert parts[..k][1..] == parts[1..][..k - 1];
      assert parts[1..][k - 1..] == parts[k..];
    }
  }

  /** Where a run has come to. */
  function Last<T>(s: seq<T>): T
    requires s != []
  {
    s[|s| - 1]
  }

  // Concatenation and slices, one fact at a time.

  lemma NothingBefore<T>(s: seq<T>)
    ensures [] + s == s
  {
  }

  lemma NothingAfter<T>(s: seq<T>)
    ensures s + [] == s
  {
  }

  lemma PrefixBefore<T>(s: seq<T>, t: seq<T>)
    ensures (s + t)[..|s|] == s && (s + t)[|s|..] == t && |s + t| == |s| + |t|
  {
  }

  lemma Associates<T>(a: seq<T>, b: seq<T>, c: seq<T>)
    ensures a + b + c == a + (b + c)
  {
  }

  lemma PrefixOfSum<T>(a: seq<T>, b: seq<T>, k: nat)
    requires k <= |b|
    ensures (a + b)[..|a| + k] == a + b[..k]
  {
  }

  lemma Rejoins<T>(s: seq<T>, k: nat)
    requires k <= |s|
    ensures s[..k] + s[k..] == s
  {
  }

  lemma Recut<T>(a: seq<T>, b: seq<T>, c: seq<T>, u: nat)
    requires u <= |a + b|
    ensures a + (b + c) == (a + b)[..u] + ((a + b)[u..] + c)
  {
  }

  lemma SliceOfSlice<T>(s: seq<T>, a: nat, b: nat, x: nat, y: nat)
    requires a <= b <= |s| && x <= y <= b - a
    ensures s[a..b][x..y] == s[a + x..a + y]
  {
    forall k | 0 <= k < y - x ensures s[a..b][x..y][k] == s[a + x..a + y][k] {
      assert s[a..b][x + k] == s[a + x + k];
    }
  }

  lemma PartAt<T>(s: seq<T>, before: seq<T>, part: seq<T>, after: seq<T>)
    requires s == before + part + after
    ensures |before| + |part| <= |s| && s[|before|..|before| + |part|] == part
  {
  }

  predicate OccursAt(s: string, d: string, i: int) {
    0 <= i && i + |d| <= |s| && s[i..i + |d|] == d
  }

  ghost predicate Contains(s: string, d: string) {
    exists i :: OccursAt(s, d, i)
  }

  /** Python's `s.find(d, i)`: the first occurrence at or after `i`. */
  function FindFrom(s: string, d: string, i: nat): (r: Option<nat>)
    requires i <= |s|
    ensures r.Some? ==> i <= r.value && OccursAt(s, d, r.value)
    ensures r.Some? ==> forall j :: i <= j < r.value ==> !OccursAt(s, d, j)
    ensures r.None? ==> forall j :: i <= j ==> !OccursAt(s, d, j)
    decreases |s| - i
  {
    if OccursAt(s, d, i) then Some(i)
    else if i == |s| then None
    else FindFrom(s, d, i + 1)
  }

  function Find(s: string, d: string): (r: Option<nat>)
    ensures r.Some? ==> OccursAt(s, d, r.value)
    ensures r.Some? ==> forall j :: 0 <= j < r.value ==> !OccursAt(s, d, j)
    ensures r.None? <==> !Contains(s, d)
  {
    FindFrom(s, d, 0)
  }

  /** A first occurrence found by any other means is the one `find` reports. */
  lemma FindIs(s: string, d: string, i: nat)
    requires OccursAt(s, d, i)
    requires forall j :: 0 <= j < i ==> !OccursAt(s, d, j)
    ensures Find(s, d) == Some(i)
  {
    assert Contains(s, d);
  }

  /** Occurrences inside a part of a string are occurrences of the whole, shifted. */
  lemma OccursShift(a: string, b: string, c: string, d: string, i: int)
    requires 0 <= i && i + |d| <= |b|
    ensures OccursAt(a + b + c, d, |a| + i) <==> OccursAt(b, d, i)
  {
    assert (a + b + c)[|a| + i..|a| + i + |d|] == b[i..i + |d|];
  }

  lemma OccursUses(s: string, d: string, i: int, m: int)
    requires OccursAt(s, d, i) && i <= m < i + |d|
    ensures s[m] in d
  {
    assert d[m - i] == s[m];
  }

  /** A character that `d` does not use separates its occurrences. */
  lemma ContainsSplit(a: string, c: char, b: string, d: string)
    requires c !in d && d != ""
    ensures Contains(a + [c] + b, d) ==> Contains(a, d) || Contains(b, d)
  {
    var s := a + [c] + b;
    forall i | OccursAt(s, d, i)
      ensures Contains(a, d) || Contains(b, d)
    {
      if i + |d| <= |a| {
        OccursShift("", a, [c] + b, d, i);
        assert "" + a + ([c] + b) == s;
        assert OccursAt(a, d, i);
      } else if i > |a| {
        OccursShift(a + [c], b, "", d, i - |a| - 1);
        assert a + [c] + b + "" == s;
        assert OccursAt(b, d, i - |a| - 1);
      } else {
        OccursUses(s, d, i, |a|);
      }
    }
  }
}
