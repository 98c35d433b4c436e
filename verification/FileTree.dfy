/** The part of a file system that the commit of a write depends on: names, the inodes
    they lead to, and symbolic links.  Inode numbers are never reused.  */
module FileTree {
  import opened Common

  type Path = seq<string>
  type Ino = nat
  type Mode = bv16

  datatype Node =
    | File(data: seq<byte>, mode: Mode)
    | Symlink(target: Path)
    | Directory(mode: Mode)

  datatype Fs = Fs(names: map<Path, Ino>, nodes: map<Ino, Node>, next: Ino)

  /** The root is a directory. */
  predicate WellFormed(fs: Fs) {
    && (forall p | p in fs.names :: fs.names[p] in fs.nodes)
    && (forall i | i in fs.nodes :: i < fs.next)
    && IsDirectory(fs, [])
  }

  function Parent(p: Path): Path {
    if p == [] then [] else p[..|p| - 1]
  }

  predicate IsLink(fs: Fs, p: Path) {
    p in fs.names && fs.names[p] in fs.nodes && fs.nodes[fs.names[p]].Symlink?
  }

  predicate IsDirectory(fs: Fs, p: Path) {
    p in fs.names && fs.names[p] in fs.nodes && fs.nodes[fs.names[p]].Directory?
  }

  predicate IsFile(fs: Fs, p: Path) {
    p in fs.names && fs.names[p] in fs.nodes && fs.nodes[fs.names[p]].File?
  }

  /** The way to this directory leads through a regular file, or ends at one. */
  predicate ThroughFile(fs: Fs, dir: Path) {
    exists k | 0 < k <= |dir| :: IsFile(fs, dir[..k])
  }

  function LinkText(fs: Fs, p: Path): Path
    requires IsLink(fs, p)
  {
    fs.nodes[fs.names[p]].target
  }

  function Resolve(fs: Fs, p: Path, hops: nat): Path
    decreases hops
  {
    if hops > 0 && IsLink(fs, p) then Resolve(fs, LinkText(fs, p), hops - 1) else p
  }

  /** Follows links as long as there are any; a chain longer than the number of inodes
      is a loop, and then the result is itself a link. */
  function Realpath(fs: Fs, p: Path): Path {
    Resolve(fs, p, fs.next)
  }

  datatype StatResult = Found(node: Node) | NotFound | Loop

  function Stat(fs: Fs, p: Path): StatResult {
    var q := Realpath(fs, p);
    if IsLink(fs, q) then Loop
    else if q in fs.names && fs.names[q] in fs.nodes then Found(fs.nodes[fs.names[q]])
    else NotFound
  }

  function Permissions(n: Node): Mode {
    match n
    case File(_, m) => m & 0x0FFF
    case Directory(m) => m & 0x0FFF
    case Symlink(_) => 0x01FF
  }

  /** The twelve permission bits of a file or a directory survive, and no others. */
  lemma PermissionsKept(n: Node)
    requires n.File? || n.Directory?
    ensures (Permissions(n) ^ n.mode) & 0x0FFF == 0 && Permissions(n) & 0xF000 == 0
  {
  }

  function NewFileMode(umask: Mode): Mode {
    0x01B6 & !umask
  }

  /** Octal 666 without the bits of the umask. */
  lemma NewFileModeHonoursUmask(umask: Mode)
    ensures NewFileMode(umask) & umask == 0
    ensures NewFileMode(umask) | (0x01B6 & umask) == 0x01B6
  {
  }

  function Create(fs: Fs, p: Path, node: Node): Fs {
    Fs(fs.names[p := fs.next], fs.nodes[fs.next := node], fs.next + 1)
  }

  function Bind(fs: Fs, p: Path, i: Ino): Fs {
    fs.(names := fs.names[p := i])
  }

  function Unbind(fs: Fs, p: Path): Fs {
    fs.(names := fs.names - {p})
  }

  function Write(fs: Fs, i: Ino, node: Node): Fs {
    fs.(nodes := fs.nodes[i := node])
  }

  /** `os.makedirs(dir, exist_ok=True)`. */
  function MakeDirs(fs: Fs, dir: Path): Fs
    decreases |dir|
  {
    if dir == [] || dir in fs.names then fs
    else Create(MakeDirs(fs, Parent(dir)), dir, Directory(0x01FF))
  }

  /** Some name other than the hidden ones leads to the inode. */
  predicate Public(fs: Fs, i: Ino, hidden: set<Path>) {
    exists p | p in fs.names :: p !in hidden && fs.names[p] == i
  }

  predicate SameKind(a: Node, b: Node) {
    || (a.File? && b.File?)
    || (a.Directory? && b.Directory?)
    || (a.Symlink? && a == b)
  }

  /** Anything other processes may do: bind, rebind and remove names, create inodes and
      rewrite files.  They leave hidden names alone and cannot reach an inode that only
      hidden names lead to. */
  predicate Foreign(a: Fs, b: Fs, hidden: set<Path>) {
    && WellFormed(b)
    && a.next <= b.next
    && (forall p | p in hidden :: (p in a.names <==> p in b.names) && (p in a.names ==> a.names[p] == b.names[p]))
    && (forall p | p in b.names :: p in hidden || b.names[p] >= a.next || Public(a, b.names[p], hidden))
    && (forall i | i in a.nodes :: i in b.nodes && SameKind(a.nodes[i], b.nodes[i]))
    && (forall p | p in hidden && p in a.names ::
          Public(a, a.names[p], hidden) || (a.names[p] in a.nodes && a.names[p] in b.nodes ==>
          a.nodes[a.names[p]] == b.nodes[a.names[p]]))
    && (forall i | i in b.nodes :: i in a.nodes || i >= a.next)
  }

  /** Nothing that existed is different, except perhaps the name `except`. */
  ghost predicate Extends(a: Fs, b: Fs, except: set<Path>) {
    && a.next <= b.next
    && (forall p | p in a.names && p !in except :: p in b.names && b.names[p] == a.names[p])
    && (forall i | i in a.nodes :: i in b.nodes && b.nodes[i] == a.nodes[i])
  }

  lemma {:induction false} MakeDirsFrame(fs: Fs, dir: Path)
    requires WellFormed(fs)
    ensures var t := MakeDirs(fs, dir);
      && WellFormed(t) && Extends(fs, t, {})
      && (forall i | i in t.nodes && i !in fs.nodes :: i >= fs.next)
      && (forall p | p in t.names && p !in fs.names ::
            p <= dir && t.names[p] >= fs.next && t.nodes[t.names[p]].Directory?)
    decreases |dir|
  {
    if dir == [] || dir in fs.names {
    } else {
      MakeDirsFrame(fs, Parent(dir));
    }
  }

  /** Afterwards the directory is there, and so is every one above it up to the first that was
      there before. */
  lemma {:induction false} MakeDirsMakes(fs: Fs, dir: Path, k: nat)
    requires WellFormed(fs) && k <= |dir|
    ensures dir in MakeDirs(fs, dir).names
    ensures dir[..k] in MakeDirs(fs, dir).names || exists m :: k < m <= |dir| && dir[..m] in fs.names
    decreases |dir|
  {
    assert dir[..|dir|] == dir;
    if dir != [] && dir !in fs.names && k < |dir| {
      var up := Parent(dir);
      MakeDirsMakes(fs, up, k);
      assert up[..k] == dir[..k];
      if m :| k < m <= |up| && up[..m] in fs.names {
        assert up[..m] == dir[..m];
      }
    }
  }

  /** A resolved path stays resolved while the links it came through stay. */
  lemma {:induction false} ResolveStable(a: Fs, b: Fs, p: Path, n: nat, m: nat, except: set<Path>)
    requires Extends(a, b, except) && n <= m
    requires forall q | q in except :: !IsLink(a, q)
    requires !IsLink(b, Resolve(a, p, n))
    ensures Resolve(b, p, m) == Resolve(a, p, n)
    decreases n
  {
    if n > 0 && IsLink(a, p) {
      ResolveStable(a, b, LinkText(a, p), n - 1, m - 1, except);
    }
  }

  lemma {:induction false} ResolveTwice(fs: Fs, p: Path, n: nat, m: nat)
    ensures Resolve(fs, Resolve(fs, p, n), m) == Resolve(fs, p, n + m)
    decreases n
  {
    if n > 0 && IsLink(fs, p) {
      ResolveTwice(fs, LinkText(fs, p), n - 1, m);
    } else if !IsLink(fs, p) {
      assert Resolve(fs, p, m) == Resolve(fs, p, n + m) == p;
    }
  }

  lemma StopsForGood(fs: Fs, p: Path, n: nat, m: nat)
    requires n <= m && !IsLink(fs, Resolve(fs, p, n))
    ensures Resolve(fs, p, m) == Resolve(fs, p, n)
  {
    ResolveTwice(fs, p, n, m - n);
  }

  lemma {:induction false} BelowCount(s: set<nat>, n: nat)
    requires forall i | i in s :: i < n
    ensures |s| <= n
  {
    if n == 0 {
      assert s == {};
    } else {
      BelowCount(s - {n - 1}, n - 1);
      assert s <= s - {n - 1} + {n - 1};
      assert |s| <= |s - {n - 1}| + 1;
    }
  }

  function Elements(f: seq<nat>): (r: set<nat>)
    ensures forall i :: i in r <==> i in f
  {
    set i | i in f
  }

  lemma {:induction false} DistinctCount(f: seq<nat>)
    requires forall k, l | 0 <= k < l < |f| :: f[k] != f[l]
    ensures |Elements(f)| == |f|
  {
    if f == [] {
      assert Elements(f) == {};
    } else {
      var init, last := f[..|f| - 1], f[|f| - 1];
      DistinctCount(init);
      assert f == init + [last];
      assert Elements(f) == Elements(init) + {last};
      assert last !in init;
    }
  }

  /** A chain of more links than there are inodes visits one of them twice. */
  lemma RepeatedInode(f: seq<nat>, n: nat) returns (k: nat, l: nat)
    requires |f| > n && forall i | i in f :: i < n
    ensures k < l < |f| && f[k] == f[l]
  {
    if forall k', l' | 0 <= k' < l' < |f| :: f[k'] != f[l'] {
      DistinctCount(f);
      BelowCount(Elements(f), n);
    } else {
      k, l :| 0 <= k < l < |f| && f[k] == f[l];
    }
  }

  /** When `Realpath` ends at a link, the path runs into a loop and never resolves. */
  lemma LoopsForever(fs: Fs, p: Path, m: nat)
    requires WellFormed(fs) && IsLink(fs, Realpath(fs, p))
    ensures IsLink(fs, Resolve(fs, p, m))
  {
    if m <= fs.next {
      if !IsLink(fs, Resolve(fs, p, m)) {
        StopsForGood(fs, p, m, fs.next);
      }
    } else {
      forall i: nat | i <= fs.next
        ensures IsLink(fs, Resolve(fs, p, i)) && fs.names[Resolve(fs, p, i)] < fs.next
      {
        LoopsForever(fs, p, i);
      }
      var chain := seq(fs.next + 1, i requires 0 <= i <= fs.next => fs.names[Resolve(fs, p, i)]);
      var k, l := RepeatedInode(chain, fs.next);
      ResolveTwice(fs, p, k, 1);
      ResolveTwice(fs, p, l, 1);
      ResolveTwice(fs, p, k + 1, m - l - 1);
      ResolveTwice(fs, p, l + 1, m - l - 1);
      LoopsForever(fs, p, m - (l - k));
    }
  }

  /** Loops stay loops while the links they consist of stay. */
  lemma {:induction false} LoopStable(a: Fs, b: Fs, p: Path, m: nat)
    requires Extends(a, b, {}) && forall k: nat | k <= m :: IsLink(a, Resolve(a, p, k))
    ensures Resolve(b, p, m) == Resolve(a, p, m) && IsLink(b, Resolve(b, p, m))
    decreases m
  {
    assert IsLink(a, Resolve(a, p, 0));
    if m > 0 {
      forall k: nat | k <= m - 1
        ensures IsLink(a, Resolve(a, LinkText(a, p), k))
      {
        assert Resolve(a, p, k + 1) == Resolve(a, LinkText(a, p), k);
      }
      LoopStable(a, b, LinkText(a, p), m - 1);
    }
  }
}
