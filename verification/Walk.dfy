/** The bounded glob: a sorted walk that stops early, what its caller makes of what it prints,
    and how both relate to the complete walk. */
module Walk {
  import opened Common
  import opened Text

  // ---------------------------------------------------------------------------
  // Directory trees.

  /** `Other` is everything that is neither a directory nor a regular file, symbolic links
      among them: the walk neither reports nor enters it. */
  datatype Node = File | Other | Dir(entries: seq<Entry>)
  datatype Entry = Entry(name: string, node: Node)

  datatype Root = Missing | RegularFile | Special | Directory(entries: seq<Entry>)

  /** A directory that the walk has still to visit. */
  datatype Place = Place(path: string, entries: seq<Entry>)

  predicate Below(a: string, b: string) {
    if a == "" then true
    else if b == "" then false
    else a[0] < b[0] || (a[0] == b[0] && Below(a[1..], b[1..]))
  }

  lemma {:induction false} BelowTotal(a: string, b: string)
    ensures Below(a, b) || Below(b, a)
  {
    if a != "" && b != "" && a[0] == b[0] {
      BelowTotal(a[1..], b[1..]);
    }
  }

  lemma {:induction false} BelowTransitive(a: string, b: string, c: string)
    requires Below(a, b) && Below(b, c)
    ensures Below(a, c)
  {
    if a != "" && b != "" && c != "" && a[0] == b[0] == c[0] {
      BelowTransitive(a[1..], b[1..], c[1..]);
    }
  }

  predicate InOrder(es: seq<Entry>) {
    forall i, j :: 0 <= i < j < |es| ==> Below(es[i].name, es[j].name)
  }

  function Insert(e: Entry, es: seq<Entry>): (r: seq<Entry>)
    ensures multiset(r) == multiset{e} + multiset(es)
  {
    if es == [] then [e]
    else if Below(e.name, es[0].name) then [e] + es
    else
      assert es == [es[0]] + es[1..];
      [es[0]] + Insert(e, es[1..])
  }

  /** `list.sort()`, on entries by their names. */
  function Sort(es: seq<Entry>): (r: seq<Entry>)
    ensures multiset(r) == multiset(es)
  {
    if es == [] then []
    else
      assert es == [es[0]] + es[1..];
      Insert(es[0], Sort(es[1..]))
  }

  lemma {:induction false} InsertKeepsOrder(e: Entry, es: seq<Entry>)
    requires InOrder(es)
    ensures InOrder(Insert(e, es))
  {
    if es != [] {
      var first := es[0];
      if Below(e.name, first.name) {
        forall x | x in es ensures Below(e.name, x.name) {
          var i :| 0 <= i < |es| && es[i] == x;
          if i > 0 {
            BelowTransitive(e.name, first.name, x.name);
          }
        }
      } else {
        InsertKeepsOrder(e, es[1..]);
        var rest := Insert(e, es[1..]);
        BelowTotal(e.name, first.name);
        hide Insert, Below;
        forall x | x in rest ensures Below(first.name, x.name) {
          assert x in multiset(rest);
          if x != e {
            assert x in multiset(es[1..]);
            var i :| 0 <= i < |es[1..]| && es[1..][i] == x;
            assert es[i + 1] == x;
          }
        }
        OneMore(first, rest);
      }
    }
  }

  lemma OneMore(e: Entry, es: seq<Entry>)
    requires InOrder(es) && forall x :: x in es ==> Below(e.name, x.name)
    ensures InOrder([e] + es)
  {
  }

  /** The result is in order, whatever order the directory was read in. */
  lemma {:induction false} SortOrders(es: seq<Entry>)
    ensures InOrder(Sort(es))
  {
    if es != [] {
      SortOrders(es[1..]);
      InsertKeepsOrder(es[0], Sort(es[1..]));
    }
  }

  function Select(es: seq<Entry>, dirs: bool): (r: seq<Entry>)
    ensures forall e :: e in r <==> e in es && e.node.Dir? == dirs
  {
    if es == [] then [] else (if es[0].node.Dir? == dirs then [es[0]] else []) + Select(es[1..], dirs)
  }

  /** `os.path.join` of a directory and a name. */
  function JoinPath(directory: string, name: string): string {
    if directory == "" || directory[|directory| - 1] == '/' then directory + name else directory + "/" + name
  }

  function BaseName(path: string): string {
    if path == "" then ""
    else if path[|path| - 1] == '/' then ""
    else BaseName(path[..|path| - 1]) + [path[|path| - 1]]
  }

  // ---------------------------------------------------------------------------
  // The complete walk.

  function Weight(es: seq<Entry>): nat {
    if es == [] then 0 else 1 + NodeWeight(es[0].node) + Weight(es[1..])
  }

  function NodeWeight(n: Node): nat {
    if n.Dir? then Weight(n.entries) else 0
  }

  function PlacesWeight(places: seq<Place>): nat {
    if places == [] then 0 else 1 + Weight(places[0].entries) + PlacesWeight(places[1..])
  }

  /** The matching files of one directory, whose other entries are given in order. */
  function FilesIn(path: string, es: seq<Entry>, accept: string -> bool): seq<string> {
    if es == [] then []
    else (if accept(es[0].name) && es[0].node.File? then [JoinPath(path, es[0].name)] else [])
         + FilesIn(path, es[1..], accept)
  }

  function PlacesIn(path: string, es: seq<Entry>): (r: seq<Place>)
    requires forall e :: e in es ==> e.node.Dir?
    ensures PlacesWeight(r) == Weight(es)
  {
    if es == [] then []
    else
      assert es[0] in es;
      [Place(JoinPath(path, es[0].name), es[0].node.entries)] + PlacesIn(path, es[1..])
  }

  function Names(p: Place): seq<Entry> {
    Sort(Select(p.entries, false))
  }

  function Children(p: Place): (r: seq<Place>)
    ensures PlacesWeight(r) <= Weight(p.entries)
  {
    var dirs := Sort(Select(p.entries, true));
    assert forall e :: e in dirs ==> e in multiset(dirs);
    SortKeepsWeight(Select(p.entries, true));
    SelectWeighsLess(p.entries, true);
    PlacesIn(p.path, dirs)
  }

  /** The files of a directory in order, then those below it, directory by directory in
      order: every match there is. */
  function Under(p: Place, accept: string -> bool): seq<string>
    decreases Weight(p.entries), 1
  {
    FilesIn(p.path, Names(p), accept) + Complete(Children(p), accept)
  }

  function Complete(places: seq<Place>, accept: string -> bool): seq<string>
    decreases PlacesWeight(places), 0
  {
    if places == [] then [] else Under(places[0], accept) + Complete(places[1..], accept)
  }

  lemma {:induction false} InsertWeight(e: Entry, es: seq<Entry>)
    ensures Weight(Insert(e, es)) == 1 + NodeWeight(e.node) + Weight(es)
  {
    if es == [] {
    } else if Below(e.name, es[0].name) {
      assert ([e] + es)[1..] == es;
    } else {
      InsertWeight(e, es[1..]);
    }
  }

  lemma {:induction false} SortKeepsWeight(es: seq<Entry>)
    ensures Weight(Sort(es)) == Weight(es)
  {
    if es != [] {
      SortKeepsWeight(es[1..]);
      InsertWeight(es[0], Sort(es[1..]));
    }
  }

  lemma {:induction false} SelectWeighsLess(es: seq<Entry>, dirs: bool)
    ensures Weight(Select(es, dirs)) <= Weight(es)
  {
    if es != [] {
      SelectWeighsLess(es[1..], dirs);
      var rest := Select(es[1..], dirs);
      if es[0].node.Dir? == dirs {
        assert Select(es, dirs)[1..] == rest;
      } else {
        assert Select(es, dirs) == rest;
      }
    }
  }

  // ---------------------------------------------------------------------------
  // The complete walk finds every match.

  /** `steps` leads from the place down to a regular file whose path is `found`. */
  predicate LeadsTo(p: Place, steps: seq<Entry>, found: string, accept: string -> bool)
    decreases |steps|
  {
    && steps != [] && steps[0] in p.entries
    && (if |steps| == 1 then
          steps[0].node.File? && accept(steps[0].name) && found == JoinPath(p.path, steps[0].name)
        else
          && steps[0].node.Dir?
          && LeadsTo(Place(JoinPath(p.path, steps[0].name), steps[0].node.entries), steps[1..], found, accept))
  }

  lemma {:induction false} FilesInHas(path: string, es: seq<Entry>, accept: string -> bool, found: string)
    ensures found in FilesIn(path, es, accept) <==>
              exists e :: e in es && e.node.File? && accept(e.name) && found == JoinPath(path, e.name)
  {
    if es != [] {
      FilesInHas(path, es[1..], accept, found);
    }
  }

  lemma {:induction false} PlacesInHas(path: string, es: seq<Entry>, q: Place)
    requires forall e :: e in es ==> e.node.Dir?
    ensures q in PlacesIn(path, es) <==>
              exists e :: e in es && q == Place(JoinPath(path, e.name), e.node.entries)
  {
    if es != [] {
      assert es[0] in es;
      PlacesInHas(path, es[1..], q);
    }
  }

  lemma SortHas(es: seq<Entry>, e: Entry)
    ensures e in Sort(es) <==> e in es
  {
    assert e in Sort(es) <==> e in multiset(Sort(es));
  }

  lemma ChildrenHas(p: Place, q: Place)
    ensures q in Children(p) <==>
              exists e :: e in p.entries && e.node.Dir? && q == Place(JoinPath(p.path, e.name), e.node.entries)
  {
    var dirs := Sort(Select(p.entries, true));
    forall e ensures e in dirs <==> e in p.entries && e.node.Dir? {
      SortHas(Select(p.entries, true), e);
    }
    PlacesInHas(p.path, dirs, q);
  }

  ghost predicate LiesIn(p: Place, found: string, accept: string -> bool) {
    exists steps: seq<Entry> :: LeadsTo(p, steps, found, accept)
  }

  lemma ListedLiesIn(p: Place, found: string, accept: string -> bool)
    requires found in FilesIn(p.path, Names(p), accept)
    ensures LiesIn(p, found, accept)
  {
    FilesInHas(p.path, Names(p), accept, found);
    var e: Entry :| e in Names(p) && e.node.File? && accept(e.name) && found == JoinPath(p.path, e.name);
    SortHas(Select(p.entries, false), e);
    hide JoinPath;
    assert LeadsTo(p, [e], found, accept);
  }

  lemma ChildLiesIn(p: Place, q: Place, found: string, accept: string -> bool)
    requires q in Children(p) && LiesIn(q, found, accept)
    ensures LiesIn(p, found, accept)
  {
    ChildrenHas(p, q);
    hide JoinPath, Children;
    var e: Entry :| e in p.entries && e.node.Dir? && q == Place(JoinPath(p.path, e.name), e.node.entries);
    var steps: seq<Entry> :| LeadsTo(q, steps, found, accept);
    assert ([e] + steps)[1..] == steps;
    assert LeadsTo(p, [e] + steps, found, accept);
  }

  lemma HeldIsListed(p: Place, steps: seq<Entry>, found: string, accept: string -> bool)
    requires LeadsTo(p, steps, found, accept)
    ensures found in FilesIn(p.path, Names(p), accept) || exists q :: q in Children(p) && LiesIn(q, found, accept)
  {
    hide JoinPath;
    var e := steps[0];
    if |steps| == 1 {
      SortHas(Select(p.entries, false), e);
      FilesInHas(p.path, Names(p), accept, found);
    } else {
      var q := Place(JoinPath(p.path, e.name), e.node.entries);
      ChildrenHas(p, q);
      assert LeadsTo(q, steps[1..], found, accept);
    }
  }

  /** The complete walk reports exactly the regular files below its places whose names the
      pattern accepts, at whatever depth. */
  lemma {:induction false} CompleteIsAll(places: seq<Place>, accept: string -> bool, found: string)
    ensures found in Complete(places, accept) <==> exists p :: p in places && LiesIn(p, found, accept)
    decreases PlacesWeight(places), 0
  {
    if places != [] {
      UnderIsAll(places[0], accept, found);
      CompleteIsAll(places[1..], accept, found);
      hide LiesIn, Under;
      assert forall q :: q in places <==> q == places[0] || q in places[1..];
    }
  }

  lemma {:induction false} UnderIsAll(p: Place, accept: string -> bool, found: string)
    ensures found in Under(p, accept) <==> LiesIn(p, found, accept)
    decreases Weight(p.entries), 1
  {
    CompleteIsAll(Children(p), accept, found);
    if LiesIn(p, found, accept) {
      var steps: seq<Entry> :| LeadsTo(p, steps, found, accept);
      HeldIsListed(p, steps, found, accept);
    }
    if found in Under(p, accept) {
      if found in FilesIn(p.path, Names(p), accept) {
        ListedLiesIn(p, found, accept);
      } else {
        var q :| q in Children(p) && LiesIn(q, found, accept);
        ChildLiesIn(p, q, found, accept);
      }
    }
  }

  // ---------------------------------------------------------------------------
  // The bounded walk.

  function Take<T>(s: seq<T>, n: nat): seq<T> {
    if |s| <= n then s else s[..n]
  }

  function All(path: string, root: Root, accept: string -> bool): seq<string> {
    match root
    case RegularFile => if accept(BaseName(path)) then [path] else []
    case Directory(entries) => Complete([Place(path, entries)], accept)
    case _ => []
  }

  lemma {:induction false} CompleteConcat(a: seq<Place>, b: seq<Place>, accept: string -> bool)
    ensures Complete(a + b, accept) == Complete(a, accept) + Complete(b, accept)
    decreases |a|
  {
    hide Under, Children, Names, FilesIn;
    if a == [] {
      assert a + b == b;
    } else {
      CompleteConcat(a[1..], b, accept);
      assert (a + b)[0] == a[0] && (a + b)[1..] == a[1..] + b;
    }
  }

  /** Visiting the first place leaves its children to visit before the others. */
  lemma Visit(todo: seq<Place>, accept: string -> bool)
    requires todo != []
    ensures Complete(todo, accept)
         == FilesIn(todo[0].path, Names(todo[0]), accept) + Complete(Children(todo[0]) + todo[1..], accept)
    ensures PlacesWeight(Children(todo[0]) + todo[1..]) < PlacesWeight(todo)
  {
    hide *;
    Unfolds(todo, accept);
    var below, later := Children(todo[0]), todo[1..];
    CompleteConcat(below, later, accept);
    PlacesConcatWeight(below, later);
    var f := FilesIn(todo[0].path, Names(todo[0]), accept);
    Associates(f, Complete(below, accept), Complete(later, accept));
  }

  lemma Unfolds(todo: seq<Place>, accept: string -> bool)
    requires todo != []
    ensures Complete(todo, accept) == FilesIn(todo[0].path, Names(todo[0]), accept)
                                      + Complete(Children(todo[0]), accept) + Complete(todo[1..], accept)
    ensures PlacesWeight(Children(todo[0])) + PlacesWeight(todo[1..]) < PlacesWeight(todo)
  {
    hide FilesIn, Names, Children;
  }

  lemma {:induction false} PlacesConcatWeight(a: seq<Place>, b: seq<Place>)
    ensures PlacesWeight(a + b) == PlacesWeight(a) + PlacesWeight(b)
  {
    if a == [] {
      assert a + b == b;
    } else {
      PlacesConcatWeight(a[1..], b);
      assert (a + b)[1..] == a[1..] + b;
    }
  }

  lemma NextFile(path: string, es: seq<Entry>, i: nat, accept: string -> bool)
    requires i < |es|
    ensures FilesIn(path, es[i..], accept)
         == (if accept(es[i].name) && es[i].node.File? then [JoinPath(path, es[i].name)] else [])
            + FilesIn(path, es[i + 1..], accept)
  {
    hide JoinPath;
    assert es[i..][1..] == es[i + 1..];
  }

  /** The names of one directory: add the matching files, and stop at the limit. */
  method ScanNames(p: Place, accept: string -> bool, matches: seq<string>, limit: nat) returns (r: seq<string>)
    requires |matches| < limit
    ensures r == Take(matches + FilesIn(p.path, Names(p), accept), limit)
  {
    var names := Sort(Select(p.entries, false));
    hide FilesIn, JoinPath, Sort, Select;
    ghost var all := matches + FilesIn(p.path, names, accept);
    r := matches;
    var i := 0;
    assert names[0..] == names;
    while i < |names|
      invariant i <= |names| && |r| < limit
      invariant r + FilesIn(p.path, names[i..], accept) == all
    {
      var e := names[i];
      NextFile(p.path, names, i, accept);
      i := i + 1;
      ghost var rest := FilesIn(p.path, names[i..], accept);
      if !accept(e.name) {
        NothingBefore(rest);
        continue;
      }
      if e.node.File? {
        Associates(r, [JoinPath(p.path, e.name)], rest);
        r := r + [JoinPath(p.path, e.name)];
        if |r| >= limit {
          TakeOfMore(r, rest, limit);
          return;
        }
      } else {
        NothingBefore(rest);
      }
    }
    NoMoreFiles(p.path, names, accept);
    NothingAfter(r);
  }

  lemma NoMoreFiles(path: string, es: seq<Entry>, accept: string -> bool)
    ensures FilesIn(path, es[|es|..], accept) == []
  {
  }

  /** `_glob`: the walk stops as soon as it has enough, and what it has is the beginning of
      the complete walk. */
  method Glob(path: string, root: Root, accept: string -> bool, limit: nat) returns (r: Option<seq<string>>)
    requires limit >= 1
    ensures r.None? <==> root.Missing?
    ensures r.Some? ==> r.value == Take(All(path, root, accept), limit)
  {
    var matches: seq<string> := [];
    match root {
      case Missing => return None;
      case Special =>
      case RegularFile =>
        if accept(BaseName(path)) {
          matches := matches + [path];
        }
      case Directory(entries) =>
        matches := WalkFrom(Place(path, entries), accept, limit);
    }
    return Some(matches);
  }

  /** `os.walk`, from the top down, with the directories of each place put in order. */
  method WalkFrom(start: Place, accept: string -> bool, limit: nat) returns (matches: seq<string>)
    requires limit >= 1
    ensures matches == Take(Complete([start], accept), limit)
  {
    hide *;
    matches := [];
    var todo := [start];
    while todo != []
      invariant |matches| < limit
      invariant matches + Complete(todo, accept) == Complete([start], accept)
      decreases PlacesWeight(todo)
    {
      var p := todo[0];
      ghost var here := matches + FilesIn(p.path, Names(p), accept);
      Visit(todo, accept);
      todo := Children(p) + todo[1..];
      assert here + Complete(todo, accept) == Complete([start], accept);
      matches := ScanNames(p, accept, matches, limit);
      TakeOfMore(here, Complete(todo, accept), limit);
      if |matches| >= limit {
        return;
      }
      TakeAll(here, limit);
    }
    NothingLeft(accept);
    TakeAll(matches, limit);
    assert matches + [] == matches;
  }

  lemma NothingLeft(accept: string -> bool)
    ensures Complete([], accept) == []
  {
  }

  lemma TakeOfMore<T>(s: seq<T>, more: seq<T>, n: nat)
    ensures |Take(s, n)| >= n ==> Take(s + more, n) == Take(s, n)
  {
  }

  lemma TakeAll<T>(s: seq<T>, n: nat)
    ensures |Take(s, n)| < n || |s| <= n ==> Take(s, n) == s
  {
  }
}
