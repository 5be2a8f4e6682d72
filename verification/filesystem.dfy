/**
 * A mutable file system: absolute paths to directories and regular files.
 *
 * The clock is adversarial: every operation that stamps a time takes an arbitrary one. Creating an entry
 * changes the modification time of its directory. Unless the disk is reliable, any operation may also fail
 * for reasons of its own.
 */
module FileSystem {

  type Path = seq<string>
  type Time = int
  type Mode = bv9
  type Bytes = seq<bv8>

  datatype Kind = Directory | Regular | OtherKind

  /** A tar header with the contents that follow it. The name is split at the slashes. */
  datatype Entry = Entry(name: seq<string>, kind: Kind, mode: Mode, mtime: Time, content: Content)

  /** File contents: plain bytes, or an archive written by the tar library. */
  datatype Content = Raw(bytes: Bytes) | Tar(entries: seq<Entry>)

  datatype Node = Dir(mode: Mode, mtime: Time) | File(mode: Mode, mtime: Time, content: Content) | Special

  type Tree = map<Path, Node>

  const Nothing: Content := Raw([])

  function Masked(mode: Mode, umask: Mode): Mode { mode & !umask }

  // ----- paths -----

  predicate Plain(name: string) { name != "" && name != "." && name != ".." }

  predicate PlainPath(p: Path) { forall i | 0 <= i < |p| :: Plain(p[i]) }

  function Parent(p: Path): Path
    requires p != []
  {
    p[..|p| - 1]
  }

  /** q is p or lies somewhere below it. */
  predicate Under(p: Path, q: Path) { p <= q }

  /** Following the components of a relative name from a base, as filepath.Join and Clean do. */
  function Resolve(base: Path, name: seq<string>): (p: Path)
    ensures PlainPath(base) ==> PlainPath(p)
    decreases |name|
  {
    if name == [] then base
    else if name[0] == "" || name[0] == "." then Resolve(base, name[1..])
    else if name[0] == ".." then Resolve(if base == [] then [] else Parent(base), name[1..])
    else Resolve(base + [name[0]], name[1..])
  }

  /** filepath.Join(dest, filepath.Clean(name)): a rooted name cannot climb above dest, a relative one can. */
  function Target(dest: Path, name: seq<string>): (p: Path)
    ensures PlainPath(dest) ==> PlainPath(p)
  {
    if |name| > 1 && name[0] == "" then Resolve(dest, Resolve([], name)) else Resolve(dest, name)
  }

  lemma {:induction false} ResolvePlain(base: Path, name: Path)
    requires PlainPath(name)
    ensures Resolve(base, name) == base + name
    ensures Resolve(base, name + [""]) == base + name
    decreases |name|
  {
    if name == [] {
      assert ([""])[1..] == [];
    } else {
      assert (name + [""])[1..] == name[1..] + [""];
      ResolvePlain(base + [name[0]], name[1..]);
      assert base + [name[0]] + name[1..] == base + name;
    }
  }

  // ----- trees -----

  /** The root is a directory, and every other path has plain names and lies in a directory. */
  ghost predicate WellFormed(t: Tree) {
    && [] in t && t[[]].Dir?
    && (forall p | p in t :: PlainPath(p))
    && (forall p | p in t && p != [] :: Parent(p) in t && t[Parent(p)].Dir?)
  }

  /** The same node, except that a directory may have a new modification time. */
  predicate Kept(a: Node, b: Node) { a == b || (a.Dir? && b.Dir? && a.mode == b.mode) }

  /** Nothing outside s is added, removed or changed, except modification times of directories. */
  ghost predicate KeptOutside(t: Tree, u: Tree, s: iset<Path>) {
    && (forall q | q in t && q !in s :: q in u && Kept(t[q], u[q]))
    && (forall q | q in u && q !in s :: q in t)
  }

  /** A directory that got no new entry is untouched, unless it is in s. */
  ghost predicate Quiet(t: Tree, u: Tree, s: iset<Path>) {
    forall q | q in t && q !in s && t[q].Dir? && q in u && u[q] != t[q] :: exists n :: q + [n] in u && q + [n] !in t
  }

  /** Nothing disappears, and nothing changes its kind. */
  ghost predicate Grows(t: Tree, u: Tree) {
    forall q | q in t :: q in u && (t[q].Dir? <==> u[q].Dir?) && (t[q].File? <==> u[q].File?)
  }

  /** Outside s the two trees are the same, times included. */
  ghost predicate SameBut(t: Tree, u: Tree, s: iset<Path>) {
    forall q | q !in s :: (q in u <==> q in t) && (q in t ==> u[q] == t[q])
  }

  /** Nothing changes but what lies in dest, and dest itself. */
  ghost predicate OnlyUnder(t: Tree, u: Tree, dest: Path) {
    forall q | !Under(dest, q) :: (q in u <==> q in t) && (q in t ==> u[q] == t[q])
  }

  /** If dest is there, nothing outside it changes, not even the time of a directory. */
  ghost predicate Confined(t: Tree, u: Tree, dest: Path) {
    dest in t ==> OnlyUnder(t, u, dest)
  }

  /** t with a new time on the directory of p. */
  function Stamped(t: Tree, p: Path, now: Time): Tree {
    if p != [] && Parent(p) in t && t[Parent(p)].Dir? then t[Parent(p) := Dir(t[Parent(p)].mode, now)] else t
  }

  /** u is t with some of the missing directories down to p added, and only times of directories changed. */
  ghost predicate AddedDirs(t: Tree, u: Tree, p: Path, mode: Mode) {
    && (forall q | q in t :: q in u && Kept(t[q], u[q]))
    && (forall q | q in u && q !in t :: Under(q, p) && u[q].Dir? && u[q].mode == mode)
    && Quiet(t, u, iset{})
  }

  /** mkdir -p would not run into something that is not a directory. */
  ghost predicate Passable(t: Tree, p: Path) { forall q | q in t && Under(q, p) :: t[q].Dir? }

  class Disk {
    var tree: Tree
    const umask: Mode
    const reliable: bool

    constructor (tree: Tree, umask: Mode, reliable: bool)
      ensures this.tree == tree && this.umask == umask && this.reliable == reliable
    {
      this.tree := tree;
      this.umask := umask;
      this.reliable := reliable;
    }

    /** A new directory p in one that is there. */
    method Mkdir(p: Path, mode: Mode) returns (ok: bool)
      requires WellFormed(tree) && PlainPath(p) && p !in tree && p != [] && Parent(p) in tree && tree[Parent(p)].Dir?
      modifies this`tree
      ensures WellFormed(tree)
      ensures !ok ==> tree == old(tree)
      ensures ok ==> p in tree && tree[p].Dir? && tree[p].mode == Masked(mode, umask)
      ensures ok ==> tree[Parent(p)].Dir? && tree[Parent(p)].mode == old(tree)[Parent(p)].mode
      ensures ok ==> tree == old(tree)[p := tree[p]][Parent(p) := tree[Parent(p)]]
      ensures reliable ==> ok
    {
      ok := true;
      if !reliable { ok := *; }
      if !ok { return; }
      var now: Time := *;
      tree := Stamped(tree[p := Dir(Masked(mode, umask), now)], p, now);
    }

    /** os.MkdirAll: creates the missing directories down to p, all with the same mode. */
    method MkdirAll(p: Path, mode: Mode) returns (ok: bool)
      requires WellFormed(tree) && PlainPath(p)
      modifies this`tree
      ensures WellFormed(tree) && AddedDirs(old(tree), tree, p, Masked(mode, umask))
      ensures ok ==> p in tree && tree[p].Dir?
      ensures ok ==> Passable(old(tree), p)
      ensures reliable && Passable(old(tree), p) ==> ok
      ensures p in old(tree) ==> tree == old(tree)
      decreases |p|
    {
      if p in tree {
        ok := tree[p].Dir?;
        PrefixesAreDirs(tree, p);
        assert Under(p, p);
        return;
      }
      ok := MkdirAll(Parent(p), mode);
      PassableParent(old(tree), p);
      AddedDirsHigher(old(tree), tree, p, Masked(mode, umask));
      if !ok { return; }
      ghost var before := tree;
      ok := Mkdir(p, mode);
      if ok { AddedDirsStep(old(tree), before, tree, p, Masked(mode, umask)); }
    }

    /** os.OpenFile with O_CREATE|O_TRUNC: an empty file at p, keeping the mode of one that was there. */
    method OpenTruncated(p: Path, mode: Mode) returns (ok: bool)
      requires WellFormed(tree) && PlainPath(p)
      modifies this`tree
      ensures WellFormed(tree)
      ensures KeptOutside(old(tree), tree, iset{p}) && Grows(old(tree), tree)
      ensures Quiet(old(tree), tree, iset{})
      ensures ok ==> p in tree && tree[p].File? && p != []
      ensures ok && p in old(tree) ==> old(tree)[p].File? && tree[p].mode == old(tree)[p].mode
      ensures ok && p !in old(tree) ==> tree[p].mode == Masked(mode, umask)
      ensures !ok ==> tree == old(tree)
      ensures ok ==> Openable(old(tree), p)
      ensures reliable && Openable(old(tree), p) ==> ok
    {
      ok := p != [] && Parent(p) in tree && tree[Parent(p)].Dir? && (p in tree ==> tree[p].File?);
      if !ok { return; }
      if !reliable {
        ok := *;
        if !ok { return; }
      }
      var now: Time := *;
      var file := File(if p in tree then tree[p].mode else Masked(mode, umask), now, Nothing);
      FilePut(tree, p, file, now);
      tree := if p in tree then tree[p := file] else Stamped(tree[p := file], p, now);
    }

    /** Copying into an open file and closing it; a failure may leave part of the contents. */
    method Write(p: Path, content: Content) returns (ok: bool)
      requires WellFormed(tree) && p in tree && tree[p].File?
      modifies this`tree
      ensures WellFormed(tree)
      ensures p in tree && tree[p].File? && tree[p].mode == old(tree)[p].mode && tree == old(tree)[p := tree[p]]
      ensures ok ==> tree[p].content == content
      ensures reliable ==> ok
    {
      ok := true;
      var now: Time := *;
      var written := content;
      if !reliable {
        ok := *;
        if !ok { written := *; }
      }
      tree := tree[p := File(tree[p].mode, now, written)];
    }

    /** os.Chtimes. */
    method Chtimes(p: Path, mtime: Time) returns (ok: bool)
      requires WellFormed(tree)
      modifies this`tree
      ensures WellFormed(tree)
      ensures ok ==> p in old(tree) && !old(tree)[p].Special? && tree == old(tree)[p := old(tree)[p].(mtime := mtime)]
      ensures !ok ==> tree == old(tree)
      ensures reliable && p in old(tree) && !old(tree)[p].Special? ==> ok
    {
      ok := p in tree && !tree[p].Special?;
      if ok && !reliable { ok := *; }
      if ok { tree := tree[p := tree[p].(mtime := mtime)]; }
    }

    /** ioutil.ReadDir: the names in a directory, each once. */
    method ReadDir(p: Path) returns (ok: bool, names: seq<string>)
      requires WellFormed(tree)
      ensures ok ==> p in tree && tree[p].Dir?
      ensures ok ==> forall n :: n in names <==> p + [n] in tree
      ensures ok ==> forall i, j | 0 <= i < j < |names| :: names[i] != names[j]
      ensures reliable ==> (ok <==> p in tree && tree[p].Dir?)
    {
      names := [];
      ok := p in tree && tree[p].Dir?;
      if ok && !reliable { ok := *; }
      if !ok { return; }
      var todo := set q | q in tree && |q| == |p| + 1 && q[..|p|] == p :: q[|p|];
      ListingStarts(tree, p, todo);
      while todo != {}
        invariant Listed(tree, p, todo, names)
        decreases |todo|
      {
        var n :| n in todo;
        ListedMore(tree, p, todo, names, n);
        names, todo := names + [n], todo - {n};
      }
    }

    /** ioutil.TempDir: a new directory in dir, under a name that starts with prefix and was not there. */
    method TempDir(dir: Path, prefix: string) returns (ok: bool, temp: Path)
      requires WellFormed(tree) && PlainPath(dir)
      modifies this`tree
      ensures WellFormed(tree)
      ensures !ok ==> tree == old(tree)
      ensures ok ==> temp != [] && Parent(temp) == dir && prefix <= temp[|dir|] && PlainPath(temp) && temp !in old(tree)
      ensures ok ==> dir in old(tree) && old(tree)[dir].Dir? && dir in tree && Kept(old(tree)[dir], tree[dir])
      ensures ok ==> temp in tree && tree[temp].Dir? && SameBut(old(tree), tree, iset{temp, dir})
      ensures ok ==> tree[temp].mode == Masked(0x1C0, umask)
      ensures reliable && dir in old(tree) && old(tree)[dir].Dir? ==> ok
    {
      temp := dir;
      ok := dir in tree && tree[dir].Dir?;
      if !ok { return; }
      ghost var other := FreshName(tree, dir, prefix);
      var name :| prefix <= name && Plain(name) && dir + [name] !in tree;
      temp := dir + [name];
      ok := Mkdir(temp, 0x1C0);
    }

    /** os.RemoveAll; a failure may leave a branch removed. */
    method RemoveAll(p: Path) returns (ok: bool)
      requires WellFormed(tree) && p != []
      modifies this`tree
      ensures WellFormed(tree)
      ensures forall q | q in tree :: q in old(tree) && Kept(old(tree)[q], tree[q])
      ensures SameBut(old(tree), tree, (iset q | Under(p, q)) + iset{Parent(p)})
      ensures Parent(p) in old(tree) ==> Parent(p) in tree
      ensures ok ==> forall q | q in tree :: !Under(p, q)
      ensures reliable ==> ok
    {
      ok := true;
      var r := p;
      if !reliable { ok := *; }
      if !ok { r := *; }
      if !Under(p, r) || r !in tree {
        NothingUnderMissing(tree, p);
        return;
      }
      var now: Time := *;
      BranchRemoved(tree, p, r, now);
      tree := Stamped(Without(tree, r), r, now);
    }
  }

  /** The names still to come and those listed so far are together the names in p, each once. */
  ghost predicate Listed(t: Tree, p: Path, todo: set<string>, names: seq<string>) {
    && (forall n :: p + [n] in t <==> n in todo || n in names)
    && (forall n | n in todo :: n !in names)
    && (forall i, j | 0 <= i < j < |names| :: names[i] != names[j])
  }

  lemma {:induction false} ListingStarts(t: Tree, p: Path, todo: set<string>)
    requires todo == set q | q in t && |q| == |p| + 1 && q[..|p|] == p :: q[|p|]
    ensures Listed(t, p, todo, [])
  {
    forall n ensures p + [n] in t <==> n in todo {
      assert (p + [n])[..|p|] == p && (p + [n])[|p|] == n;
      if n in todo {
        var q :| q in t && |q| == |p| + 1 && q[..|p|] == p && q[|p|] == n;
        assert q == p + [n];
      }
    }
  }

  lemma {:induction false} ListedMore(t: Tree, p: Path, todo: set<string>, names: seq<string>, n: string)
    requires Listed(t, p, todo, names) && n in todo
    ensures Listed(t, p, todo - {n}, names + [n])
  {}

  lemma {:induction false} FileReplaced(t: Tree, p: Path, f: Node)
    requires WellFormed(t) && p in t && t[p].File? && f.File?
    ensures var u := t[p := f];
      WellFormed(u) && KeptOutside(t, u, iset{p}) && Grows(t, u) && Quiet(t, u, iset{})
  {}

  lemma {:induction false} FileAdded(t: Tree, p: Path, f: Node)
    requires WellFormed(t) && PlainPath(p) && p !in t && Openable(t, p) && f.File?
    ensures WellFormed(t[p := f])
  {}

  lemma {:induction false} TimeStamped(t: Tree, p: Path, now: Time)
    requires WellFormed(t) && p != [] && Parent(p) in t && t[Parent(p)].Dir?
    ensures WellFormed(Stamped(t, p, now)) && SameBut(t, Stamped(t, p, now), iset{Parent(p)})
    ensures Parent(p) in Stamped(t, p, now) && Kept(t[Parent(p)], Stamped(t, p, now)[Parent(p)])
  {}

  /** A new file: nothing else but the time of its directory differs. */
  lemma {:induction false} FileNew(t: Tree, u: Tree, p: Path)
    requires p != [] && p !in t && p in u && SameBut(t, u, iset{p, Parent(p)})
    requires Parent(p) in t && t[Parent(p)].Dir? && Parent(p) in u && Kept(t[Parent(p)], u[Parent(p)])
    ensures KeptOutside(t, u, iset{p}) && Grows(t, u) && Quiet(t, u, iset{})
  {
    var n := p[|p| - 1];
    assert p == Parent(p) + [n];
    assert Parent(p) + [n] in u && Parent(p) + [n] !in t;
  }

  /** A file put at p, in a directory that gets a new time if the file is new. */
  lemma {:induction false} FilePut(t: Tree, p: Path, f: Node, now: Time)
    requires WellFormed(t) && PlainPath(p) && Openable(t, p) && f.File?
    ensures var u := if p in t then t[p := f] else Stamped(t[p := f], p, now);
      && WellFormed(u) && p in u && u[p] == f
      && KeptOutside(t, u, iset{p}) && Grows(t, u) && Quiet(t, u, iset{})
  {
    if p in t {
      FileReplaced(t, p, f);
    } else {
      FileAdded(t, p, f);
      TimeStamped(t[p := f], p, now);
      FileNew(t, Stamped(t[p := f], p, now), p);
    }
  }

  ghost predicate Openable(t: Tree, p: Path) {
    p != [] && Parent(p) in t && t[Parent(p)].Dir? && (p in t ==> t[p].File?)
  }

  function Without(t: Tree, r: Path): Tree { map q | q in t && !Under(r, q) :: t[q] }

  lemma {:induction false} WithoutWellFormed(t: Tree, r: Path)
    requires WellFormed(t) && r != []
    ensures WellFormed(Without(t, r))
  {}

  lemma {:induction false} BranchRemoved(t: Tree, p: Path, r: Path, now: Time)
    requires WellFormed(t) && p != [] && Under(p, r)
    ensures var u := Stamped(Without(t, r), r, now);
      && WellFormed(u)
      && (forall q | q in u :: q in t && Kept(t[q], u[q]))
      && SameBut(t, u, (iset q | Under(p, q)) + iset{Parent(p)})
      && (Parent(p) in t ==> Parent(p) in u)
      && (forall q | q in u :: !Under(r, q))
  {
    WithoutWellFormed(t, r);
    assert Parent(r) == Parent(p) || Under(p, Parent(r));
    assert forall q | Under(r, q) :: Under(p, q);
    assert !Under(p, Parent(p));
  }

  lemma {:induction false} NothingUnderMissing(t: Tree, p: Path)
    requires WellFormed(t)
    ensures p !in t ==> forall q | q in t :: !Under(p, q)
  {
    forall q | q in t && p !in t ensures !Under(p, q) {
      if Under(p, q) { PrefixesAreDirs(t, q); }
    }
  }

  lemma {:induction false} UnderParent(q: Path, p: Path)
    requires p != [] && Under(q, p) && q != p
    ensures Under(q, Parent(p))
  {}

  lemma {:induction false} BothAbove(a: Path, b: Path, q: Path)
    ensures Under(a, q) && Under(b, q) ==> Under(a, b) || Under(b, a)
  {}

  lemma {:induction false} OnlyUnderTwice(t: Tree, u: Tree, v: Tree, dest: Path)
    requires OnlyUnder(t, u, dest) && OnlyUnder(u, v, dest)
    ensures OnlyUnder(t, v, dest)
  {}

  /** Putting something into a directory changes only what is in it. */
  lemma {:induction false} OnlyPutIn(t: Tree, u: Tree, dest: Path, n: string)
    requires SameBut(t, u, iset{dest + [n], dest})
    ensures OnlyUnder(t, u, dest)
  {
    assert Under(dest, dest + [n]) && Under(dest, dest);
  }

  lemma {:induction false} OnlyUnderHigher(t: Tree, u: Tree, dest: Path, p: Path)
    requires OnlyUnder(t, u, p) && Under(dest, p)
    ensures OnlyUnder(t, u, dest)
  {}

  lemma {:induction false} ConfinedTwice(t: Tree, u: Tree, v: Tree, dest: Path)
    requires Confined(t, u, dest) && Confined(u, v, dest) && (dest in t ==> dest in u)
    ensures Confined(t, v, dest)
  {}

  /** Making directories below dest is confined to it. */
  lemma {:induction false} DirsConfined(t: Tree, u: Tree, dest: Path, p: Path, mode: Mode)
    requires WellFormed(t) && Under(dest, p) && AddedDirs(t, u, p, mode)
    ensures Confined(t, u, dest) && Grows(t, u)
  {
    if dest in t {
      forall q ensures Under(q, p) && q !in t ==> Under(dest, q) {
        BothAbove(dest, q, p);
        PrefixesAreDirs(t, dest);
      }
      assert forall q, m: string | Under(dest, q + [m]) && !Under(dest, q) :: q + [m] == dest;
    }
  }

  /** So is writing a file there. */
  lemma {:induction false} FileConfined(t: Tree, u: Tree, dest: Path, p: Path)
    requires Under(dest, p) && KeptOutside(t, u, iset{p}) && Quiet(t, u, iset{})
    ensures Confined(t, u, dest)
  {
    assert forall q, m: string | Under(dest, q + [m]) && !Under(dest, q) :: q + [m] == dest;
  }

  lemma {:induction false} PassableParent(t: Tree, p: Path)
    requires p != [] && p !in t
    ensures Passable(t, p) <==> Passable(t, Parent(p))
  {
    forall q | q in t && Under(q, p) ensures Under(q, Parent(p)) { UnderParent(q, p); }
    assert forall q | q in t && Under(q, Parent(p)) :: Under(q, p);
  }

  lemma {:induction false} AddedDirsHigher(t: Tree, u: Tree, p: Path, mode: Mode)
    requires p != [] && AddedDirs(t, u, Parent(p), mode)
    ensures AddedDirs(t, u, p, mode)
  {}

  lemma {:induction false} AddedDirsStep(t: Tree, u: Tree, v: Tree, p: Path, mode: Mode)
    requires p != [] && p !in t && AddedDirs(t, u, p, mode)
    requires Parent(p) in u && u[Parent(p)].Dir? && p !in u
    requires p in v && Parent(p) in v && v == u[p := v[p]][Parent(p) := v[Parent(p)]]
    requires v[p].Dir? && v[p].mode == mode && Kept(u[Parent(p)], v[Parent(p)])
    ensures AddedDirs(t, v, p, mode)
  {
    assert Under(p, p);
    assert p == Parent(p) + [p[|p| - 1]];
    forall q | q in t && t[q].Dir? && q in v && v[q] != t[q]
      ensures exists n :: q + [n] in v && q + [n] !in t
    {
      if q == Parent(p) {
        assert q + [p[|p| - 1]] in v;
      } else {
        var n :| q + [n] in u && q + [n] !in t;
        assert q + [n] in v;
      }
    }
  }

  lemma {:induction false} PrefixesAreDirs(t: Tree, p: Path)
    requires WellFormed(t) && p in t
    ensures forall q | Under(q, p) && q != p :: q in t && t[q].Dir?
    decreases |p|
  {
    if p != [] {
      PrefixesAreDirs(t, Parent(p));
      forall q | Under(q, p) && q != p ensures q in t && t[q].Dir? {
        if q != Parent(p) { assert Under(q, Parent(p)); }
      }
    }
  }

  ghost function Fill(prefix: string, n: nat): (s: string)
    ensures |s| == |prefix| + n + 1 && prefix <= s
  {
    prefix + seq(n + 1, i => '0')
  }

  ghost function Longest(ps: set<Path>, k: nat): (m: nat)
    ensures forall p | p in ps && |p| > k :: |p[k]| <= m
  {
    if ps == {} then 0
    else
      var p :| p in ps;
      var m := Longest(ps - {p}, k);
      if |p| > k && |p[k]| > m then |p[k]| else m
  }

  /** There is always another name. */
  lemma {:induction false} FreshName(t: Tree, dir: Path, prefix: string) returns (name: string)
    ensures prefix <= name && Plain(name) && dir + [name] !in t
  {
    var n := Longest(t.Keys, |dir|);
    name := Fill(prefix, n + 2);
    assert (dir + [name])[|dir|] == name;
  }
}
