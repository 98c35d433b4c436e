/** What the walk reports, told without its own helpers: which paths, and in which order. */
module WalkPaths {
  import opened Common
  import opened Text
  import opened Walk

  // ---------------------------------------------------------------------------
  // Paths.

  /** A name as directories hold them. */
  predicate Proper(name: string) {
    name != "" && '/' !in name
  }

  predicate ProperNames(es: seq<Entry>) {
    forall e :: e in es ==> Proper(e.name) && (e.node.Dir? ==> ProperNames(e.node.entries))
  }

  /** Each of the steps is an entry of the directory before it, and the last is a regular file
      whose name is accepted. */
  predicate LeadsDown(es: seq<Entry>, steps: seq<Entry>, accept: string -> bool)
    decreases |steps|
  {
    && steps != [] && steps[0] in es
    && (if |steps| == 1 then steps[0].node.File? && accept(steps[0].name)
        else steps[0].node.Dir? && LeadsDown(steps[0].node.entries, steps[1..], accept))
  }

  function NamesOf(steps: seq<Entry>): (names: seq<string>)
    ensures |names| == |steps| && forall i :: 0 <= i < |steps| ==> names[i] == steps[i].name
  {
    if steps == [] then [] else [steps[0].name] + NamesOf(steps[1..])
  }

  /** The path of a file below a root: the root and the names, with slashes between them. */
  function PathBelow(root: string, names: seq<string>): string {
    if root == "" || root[|root| - 1] == '/' then root + Join(names, "/") else Join([root] + names, "/")
  }

  lemma JoinMore(first: string, names: seq<string>)
    requires names != []
    ensures Join([first] + names, "/") == first + "/" + Join(names, "/")
  {
    assert ([first] + names)[1..] == names;
  }

  lemma PathStep(root: string, name: string, names: seq<string>)
    requires Proper(name)
    ensures PathBelow(root, [name] + names) == if names == [] then JoinPath(root, name)
                                               else PathBelow(JoinPath(root, name), names)
  {
    var here := JoinPath(root, name);
    assert here != "" && here[|here| - 1] == name[|name| - 1] && name[|name| - 1] in name;
    if names == [] {
      assert [name] + names == [name];
      JoinMore(root, [name]);
    } else {
      JoinMore(name, names);
      JoinMore(here, names);
      JoinMore(root, [name] + names);
      var rest := Join(names, "/");
      hide Join;
      if root == "" || root[|root| - 1] == '/' {
        Associates(root, name, "/");
        Associates(root, name + "/", rest);
      } else {
        Associates(root + "/", name, "/");
        Associates(root + "/", name + "/", rest);
      }
    }
  }

  lemma {:induction false} StepsAre(p: Place, steps: seq<Entry>, found: string, accept: string -> bool)
    requires ProperNames(p.entries)
    ensures LeadsTo(p, steps, found, accept) <==>
              LeadsDown(p.entries, steps, accept) && found == PathBelow(p.path, NamesOf(steps))
    decreases |steps|
  {
    if steps != [] && steps[0] in p.entries {
      var e := steps[0];
      assert Proper(e.name);
      PathStep(p.path, e.name, NamesOf(steps[1..]));
      assert NamesOf(steps) == [e.name] + NamesOf(steps[1..]);
      hide PathBelow, JoinPath;
      if |steps| == 1 {
        assert NamesOf(steps[1..]) == [];
      } else if e.node.Dir? {
        assert NamesOf(steps[1..]) != [];
        StepsAre(Place(JoinPath(p.path, e.name), e.node.entries), steps[1..], found, accept);
      }
    }
  }

  /** A path is in the complete walk of a directory if and only if some entries lead from the
      directory down to a regular file whose name is accepted, and the path is that of the
      directory and their names. */
  lemma FoundIff(root: string, entries: seq<Entry>, accept: string -> bool, found: string)
    requires ProperNames(entries)
    ensures found in Complete([Place(root, entries)], accept) <==>
              exists steps: seq<Entry> :: LeadsDown(entries, steps, accept) && found == PathBelow(root, NamesOf(steps))
  {
    var p := Place(root, entries);
    hide Complete, LeadsTo, LeadsDown, PathBelow, ProperNames, NamesOf;
    CompleteIsAll([p], accept, found);
    assert (exists q :: q in [p] && LiesIn(q, found, accept)) <==> LiesIn(p, found, accept) by { assert p in [p]; }
    if LiesIn(p, found, accept) {
      var steps: seq<Entry> :| LeadsTo(p, steps, found, accept);
      StepsAre(p, steps, found, accept);
    }
    if steps: seq<Entry> :| LeadsDown(entries, steps, accept) && found == PathBelow(root, NamesOf(steps)) {
      StepsAre(p, steps, found, accept);
    }
  }

  /** What follows the last slash. */
  lemma {:induction false} BaseNameIs(path: string, directory: string, name: string)
    requires path == directory + name && '/' !in name && (directory == "" || directory[|directory| - 1] == '/')
    ensures BaseName(path) == name
    decreases |path|
  {
    if name == "" {
      assert path == directory;
    } else {
      var init := name[..|name| - 1];
      assert name == init + [name[|name| - 1]] && name[|name| - 1] in name;
      assert path[..|path| - 1] == directory + init;
      assert forall c :: c in init ==> c in name;
      BaseNameIs(directory + init, directory, init);
    }
  }

  /** What there is to report below any root: a regular file reports itself if its base name is
      accepted, and everything but a directory and a regular file reports nothing. */
  lemma AllIff(path: string, root: Root, accept: string -> bool, found: string, directory: string, name: string)
    requires root.Directory? ==> ProperNames(root.entries)
    requires path == directory + name && '/' !in name && (directory == "" || directory[|directory| - 1] == '/')
    ensures found in All(path, root, accept) <==> match root
              case RegularFile => found == path && accept(name)
              case Directory(entries) =>
                exists steps: seq<Entry> ::
                  LeadsDown(entries, steps, accept) && found == PathBelow(path, NamesOf(steps))
              case _ => false
  {
    BaseNameIs(path, directory, name);
    if root.Directory? {
      FoundIff(path, root.entries, accept, found);
    }
    hide Complete, LeadsDown, PathBelow, NamesOf, ProperNames, BaseName;
  }

  // ---------------------------------------------------------------------------
  // Order.

  /** The order of strings: at the first difference the smaller character, or the end, comes first. */
  predicate ComesFirst(a: string, b: string) {
    exists k {:trigger a[..k]} | 0 <= k <= |a| && k <= |b| ::
      a[..k] == b[..k] && (k == |a| || (k < |b| && a[k] < b[k]))
  }

  lemma {:induction false} BelowIff(a: string, b: string)
    ensures Below(a, b) <==> ComesFirst(a, b)
  {
    if a == "" {
      assert a[..0] == b[..0];
    } else if b == "" {
    } else {
      BelowIff(a[1..], b[1..]);
      if a[0] < b[0] {
        assert a[..0] == b[..0];
      }
      if a[0] == b[0] && ComesFirst(a[1..], b[1..]) {
        var k :| 0 <= k <= |a[1..]| && k <= |b[1..]| && a[1..][..k] == b[1..][..k]
                 && (k == |a[1..]| || (k < |b[1..]| && a[1..][k] < b[1..][k]));
        assert a[..k + 1] == [a[0]] + a[1..][..k] && b[..k + 1] == [b[0]] + b[1..][..k];
      }
      if ComesFirst(a, b) {
        var k :| 0 <= k <= |a| && k <= |b| && a[..k] == b[..k] && (k == |a| || (k < |b| && a[k] < b[k]));
        if k > 0 {
          assert a[..k][0] == b[..k][0];
          assert a[1..][..k - 1] == a[..k][1..] && b[1..][..k - 1] == b[..k][1..];
        }
      }
    }
  }

  /** `x` comes up before `y`. */
  ghost predicate Precedes(s: seq<string>, x: string, y: string) {
    exists i, j :: 0 <= i < j < |s| && s[i] == x && s[j] == y
  }

  lemma PrecedesAcross(a: seq<string>, b: seq<string>, x: string, y: string)
    ensures x in a && y in b ==> Precedes(a + b, x, y)
    ensures Precedes(a, x, y) || Precedes(b, x, y) ==> Precedes(a + b, x, y)
  {
    var s := a + b;
    if x in a && y in b {
      var i :| 0 <= i < |a| && a[i] == x;
      var j :| 0 <= j < |b| && b[j] == y;
      assert s[i] == x && s[|a| + j] == y;
    }
    if i, j :| 0 <= i < j < |a| && a[i] == x && a[j] == y {
      assert s[i] == x && s[j] == y;
    }
    if i, j :| 0 <= i < j < |b| && b[i] == x && b[j] == y {
      assert s[|a| + i] == x && s[|a| + j] == y;
    }
  }

  /** In a sorted list what comes first in the order of names comes first. */
  lemma SortedPlaces(es: seq<Entry>, e: Entry, f: Entry) returns (i: nat, j: nat)
    requires e in es && f in es && ComesFirst(e.name, f.name) && e.name != f.name
    ensures i < j < |Sort(es)| && Sort(es)[i] == e && Sort(es)[j] == f
  {
    SortOrders(es);
    SortHas(es, e);
    SortHas(es, f);
    i :| 0 <= i < |Sort(es)| && Sort(es)[i] == e;
    j :| 0 <= j < |Sort(es)| && Sort(es)[j] == f;
    BelowIff(e.name, f.name);
    if j < i {
      BelowAntisymmetric(e.name, f.name);
    }
  }

  lemma {:induction false} BelowAntisymmetric(a: string, b: string)
    requires Below(a, b) && Below(b, a)
    ensures a == b
  {
    if a != "" && b != "" {
      BelowAntisymmetric(a[1..], b[1..]);
      assert a == [a[0]] + a[1..] && b == [b[0]] + b[1..];
    }
  }

  predicate Listed(e: Entry, accept: string -> bool) {
    e.node.File? && accept(e.name)
  }

  lemma {:induction false} FilesInOrder(path: string, es: seq<Entry>, accept: string -> bool, i: nat, j: nat)
    requires i < j < |es| && Listed(es[i], accept) && Listed(es[j], accept)
    ensures Precedes(FilesIn(path, es, accept), JoinPath(path, es[i].name), JoinPath(path, es[j].name))
  {
    var head := if Listed(es[0], accept) then [JoinPath(path, es[0].name)] else [];
    var rest := FilesIn(path, es[1..], accept);
    var x, y := JoinPath(path, es[i].name), JoinPath(path, es[j].name);
    assert FilesIn(path, es, accept) == head + rest;
    if i == 0 {
      FilesInHas(path, es[1..], accept, y);
      assert es[1..][j - 1] == es[j];
      assert x in head && y in rest;
    } else {
      FilesInOrder(path, es[1..], accept, i - 1, j - 1);
    }
    PrecedesAcross(head, rest, x, y);
  }

  /** The matches of a directory are reported in the order of their names. */
  lemma FilesComeInOrder(p: Place, accept: string -> bool, e: Entry, f: Entry)
    requires e in p.entries && f in p.entries && Listed(e, accept) && Listed(f, accept)
    requires ComesFirst(e.name, f.name) && e.name != f.name
    ensures Precedes(Under(p, accept), JoinPath(p.path, e.name), JoinPath(p.path, f.name))
  {
    var i, j := SortedPlaces(Select(p.entries, false), e, f);
    FilesInOrder(p.path, Names(p), accept, i, j);
    hide JoinPath, FilesIn, Names, Children;
    PrecedesAcross(FilesIn(p.path, Names(p), accept), Complete(Children(p), accept),
                   JoinPath(p.path, e.name), JoinPath(p.path, f.name));
  }

  function Child(p: Place, d: Entry): Place
    requires d.node.Dir?
  {
    Place(JoinPath(p.path, d.name), d.node.entries)
  }

  lemma {:induction false} PlacesInOrder(path: string, es: seq<Entry>, k: nat)
    requires (forall e :: e in es ==> e.node.Dir?) && k < |es|
    ensures |PlacesIn(path, es)| == |es| && es[k].node.Dir?
    ensures PlacesIn(path, es)[k] == Place(JoinPath(path, es[k].name), es[k].node.entries)
  {
    assert es[0] in es;
    if k > 0 {
      PlacesInOrder(path, es[1..], k - 1);
    } else if |es| > 1 {
      PlacesInOrder(path, es[1..], 0);
    }
  }

  lemma {:induction false} CompleteInOrder(places: seq<Place>, accept: string -> bool, i: nat, j: nat,
                                           x: string, y: string)
    requires i < j < |places| && x in Under(places[i], accept) && y in Under(places[j], accept)
    ensures Precedes(Complete(places, accept), x, y)
    decreases |places|
  {
    hide Under;
    var first, rest := Under(places[0], accept), Complete(places[1..], accept);
    if i == 0 {
      InLater(places[1..], accept, j - 1, y);
    } else {
      CompleteInOrder(places[1..], accept, i - 1, j - 1, x, y);
    }
    PrecedesAcross(first, rest, x, y);
  }

  lemma {:induction false} InLater(places: seq<Place>, accept: string -> bool, j: nat, y: string)
    requires j < |places| && y in Under(places[j], accept)
    ensures y in Complete(places, accept)
    decreases |places|
  {
    hide Under;
    if j > 0 {
      InLater(places[1..], accept, j - 1, y);
    }
  }

  /** What is below one directory is reported before what is below the next in the order of
      names, ... */
  lemma DirectoriesComeInOrder(p: Place, accept: string -> bool, d: Entry, e: Entry, x: string, y: string)
    requires d in p.entries && e in p.entries && d.node.Dir? && e.node.Dir?
    requires ComesFirst(d.name, e.name) && d.name != e.name
    requires x in Under(Child(p, d), accept) && y in Under(Child(p, e), accept)
    ensures Precedes(Under(p, accept), x, y)
  {
    var dirs := Sort(Select(p.entries, true));
    var i, j := SortedPlaces(Select(p.entries, true), d, e);
    forall f ensures f in dirs ==> f.node.Dir? { SortHas(Select(p.entries, true), f); }
    PlacesInOrder(p.path, dirs, i);
    PlacesInOrder(p.path, dirs, j);
    CompleteInOrder(Children(p), accept, i, j, x, y);
    hide JoinPath, FilesIn, Names, Children;
    PrecedesAcross(FilesIn(p.path, Names(p), accept), Complete(Children(p), accept), x, y);
  }

  /** ... and after the matches of the directory itself. */
  lemma FilesComeFirst(p: Place, accept: string -> bool, e: Entry, d: Entry, y: string)
    requires e in p.entries && Listed(e, accept) && d in p.entries && d.node.Dir?
    requires y in Under(Child(p, d), accept)
    ensures Precedes(Under(p, accept), JoinPath(p.path, e.name), y)
  {
    SortHas(Select(p.entries, false), e);
    FilesInHas(p.path, Names(p), accept, JoinPath(p.path, e.name));
    ChildrenHas(p, Child(p, d));
    var k :| 0 <= k < |Children(p)| && Children(p)[k] == Child(p, d);
    InLater(Children(p), accept, k, y);
    hide JoinPath, FilesIn, Names, Children;
    PrecedesAcross(FilesIn(p.path, Names(p), accept), Complete(Children(p), accept), JoinPath(p.path, e.name), y);
  }

  /** The walk of one root is what lies under it. */
  lemma OnePlace(p: Place, accept: string -> bool)
    ensures Complete([p], accept) == Under(p, accept)
  {
    hide Under;
    assert [p][1..] == [] && Complete([], accept) == [];
    NothingAfter(Under(p, accept));
  }
}
