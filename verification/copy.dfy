/** Copying files and directories, with modes and times, and what the copy is. */
module Copy {
  import opened FileSystem
  import opened Extract
  import opened Archive

  /** Neither directory lies in the other. */
  predicate Apart(src: Path, dest: Path) { !Under(src, dest) && !Under(dest, src) }

  /** The source of p, which lies below dest. */
  function Source(src: Path, dest: Path, p: Path): Path
    requires |p| >= |dest|
  {
    src + p[|dest|..]
  }

  /** p is the copy of something below src, under one of the names. */
  predicate Copies(t: Tree, src: Path, dest: Path, names: iset<string>, p: Path) {
    Under(dest, p) && |p| > |dest| && p[|dest|] in names && Source(src, dest, p) in t
  }

  ghost const AllNames: iset<string> := iset n: string | true

  predicate SameKind(a: Node, b: Node) { (a.Dir? && b.Dir?) || (a.File? && b.File?) }

  /** The copy of n at p: a path that was there keeps its mode. */
  function CopyOf(t: Tree, n: Node, p: Path, umask: Mode): Node {
    var mode := if p in t then NodeMode(t[p]) else Masked(NodeMode(n), umask);
    match n
    case Dir(_, mtime) => Dir(mode, mtime)
    case File(_, mtime, content) => File(mode, mtime, content)
    case Special => Special
  }

  /** What has become of p: a copy, itself, or a directory made on the way down to dest. */
  predicate CopyAt(t: Tree, u: Tree, src: Path, dest: Path, names: iset<string>, umask: Mode, p: Path) {
    if Copies(t, src, dest, names, p) then
      var n := t[Source(src, dest, p)];
      !n.Special? && (p in t ==> SameKind(t[p], n)) && p in u && u[p] == CopyOf(t, n, p, umask)
    else if p in t then p in u && Kept(t[p], u[p])
    else p in u ==> Under(p, dest) && u[p].Dir?
  }

  /** u is t with the named children of src copied into dest. */
  ghost predicate Copied(t: Tree, u: Tree, src: Path, dest: Path, names: iset<string>, umask: Mode) {
    && (forall p :: CopyAt(t, u, src, dest, names, umask, p))
    && Quiet(t, u, iset p | Copies(t, src, dest, names, p))
  }

  /** Nothing in dest stands in the way of a copy. */
  ghost predicate Compatible(t: Tree, src: Path, dest: Path) {
    && src in t && t[src].Dir? && dest in t && t[dest].Dir? && NoSpecialBelow(t, src)
    && (forall p | p in t && Copies(t, src, dest, AllNames, p) :: SameKind(t[p], t[Source(src, dest, p)]))
  }

  /** dest lies strictly inside src. */
  predicate Inside(src: Path, dest: Path) { Under(src, dest) && src != dest }

  /** The recursion would not run into its own output: dest is not inside a directory that is copied. */
  predicate Ends(t: Tree, src: Path, dest: Path) {
    Inside(src, dest) ==> !(src + [dest[|src|]] in t && t[src + [dest[|src|]]].Dir?)
  }

  /** q lies below the child of src that contains dest. */
  predicate Beyond(src: Path, dest: Path, q: Path) {
    Inside(src, dest) && Under(src + [dest[|src|]], q) && |q| > |src| + 1
  }

  /** No path below src is longer than depth more names, apart from where dest is. */
  ghost predicate Within(t: Tree, src: Path, dest: Path, depth: nat) {
    forall q | q in t && Under(src, q) && !Beyond(src, dest, q) :: |q| <= |src| + depth
  }

  /** New paths lie on the way to dest or in it, and no deeper than the source. */
  ghost predicate Bounded(t: Tree, u: Tree, dest: Path, depth: nat) {
    forall q | q in u && q !in t :: (Under(q, dest) || Under(dest, q)) && |q| <= |dest| + depth
  }

  /** What copying into dest does at most, whether it succeeds or not. */
  ghost predicate Tame(t: Tree, u: Tree, dest: Path, depth: nat) {
    Grows(t, u) && Bounded(t, u, dest, depth) && Confined(t, u, dest)
  }

  /** p is a file below src, under one of the names. */
  predicate FileBelow(t: Tree, src: Path, names: iset<string>, p: Path) {
    p in t && Under(src, p) && |p| > |src| && p[|src|] in names && t[p].File?
  }

  /** t with every such file emptied, and nothing else changed. */
  ghost function Emptied(t: Tree, src: Path, names: iset<string>): Tree {
    map p | p in t :: if FileBelow(t, src, names, p) then t[p].(content := Nothing) else t[p]
  }

  /** What copying the named children of src into dest makes of t: the copy if they are apart, ruin if they are one. */
  ghost predicate CopiedOver(t: Tree, u: Tree, src: Path, dest: Path, names: iset<string>, umask: Mode) {
    && (Apart(src, dest) ==> Copied(t, u, src, dest, names, umask))
    && (src == dest ==> u == Emptied(t, src, names))
  }

  /** Nothing stands in the way of copying src into a directory apart from it, or onto itself. */
  ghost predicate Feasible(t: Tree, src: Path, dest: Path) {
    Compatible(t, src, dest) && (Apart(src, dest) || src == dest)
  }

  // ----- files -----

  /** A file put where something is changes nothing else. */
  lemma {:induction false} PlacedOver(t: Tree, u: Tree, p: Path, f: Node)
    requires WellFormed(t) && p in t && Placed(t, u, p, f)
    ensures u == t[p := f]
  {}

  /**
   * CopyFile. Opening the target empties it before anything is read, so a file copied onto itself is lost;
   * a directory is only found out when reading it fails.
   */
  method CopyFile(disk: Disk, src: Path, dest: Path) returns (ok: bool)
    requires WellFormed(disk.tree) && PlainPath(dest)
    modifies disk`tree
    ensures WellFormed(disk.tree)
    ensures KeptOutside(old(disk.tree), disk.tree, iset{dest}) && Quiet(old(disk.tree), disk.tree, iset{})
    ensures Grows(old(disk.tree), disk.tree)
    ensures ok ==> src in old(disk.tree) && old(disk.tree)[src].File? && Openable(old(disk.tree), dest)
    ensures ok && src != dest ==>
      Placed(old(disk.tree), disk.tree, dest, CopyOf(old(disk.tree), old(disk.tree)[src], dest, disk.umask))
    ensures ok && src == dest ==> disk.tree == old(disk.tree)[src := old(disk.tree)[src].(content := Nothing)]
    ensures disk.reliable && src in old(disk.tree) && old(disk.tree)[src].File? && Openable(old(disk.tree), dest) ==> ok
  {
    if src !in disk.tree { return false; }
    match disk.tree[src] {
      case File(mode, mtime, content) =>
        ghost var t := disk.tree;
        ok := PlaceFile(disk, dest, mode, mtime, if src == dest then Nothing else content);
        if ok && src == dest { PlacedOver(t, disk.tree, dest, File(mode, mtime, Nothing)); }
      case Dir(mode, _) =>
        ok := disk.OpenTruncated(dest, mode);
        ok := false;
      case Special =>
        ok := false;
    }
  }

  // ----- directories: lemmas -----

  lemma {:induction false} SourcePresent(
    t: Tree, u: Tree, src: Path, dest: Path, names: iset<string>, umask: Mode, q: Path)
    requires Apart(src, dest) && CopyAt(t, u, src, dest, names, umask, q) && Under(src, q)
    ensures (q in u <==> q in t) && (q in t ==> Kept(t[q], u[q]))
  {}

  /** Copying into a directory apart from src leaves everything at or below src alone. */
  lemma {:induction false} SourceKept(
    t: Tree, u: Tree, src: Path, dest: Path, names: iset<string>, umask: Mode, q: Path)
    requires Apart(src, dest) && Copied(t, u, src, dest, names, umask) && Under(src, q)
    ensures (q in u <==> q in t) && (q in t ==> u[q] == t[q])
  {
    SourcePresent(t, u, src, dest, names, umask, q);
    if q in t && u[q] != t[q] {
      assert !Under(dest, q);
      var n :| q + [n] in u && q + [n] !in t;
      SourcePresent(t, u, src, dest, names, umask, q + [n]);
    }
  }

  lemma {:induction false} NothingCopied(t: Tree, src: Path, dest: Path, umask: Mode)
    ensures Copied(t, t, src, dest, iset{}, umask)
  {}

  /** The paths copied with one more child are those copied before, the child's copy and what lies below that. */
  lemma {:induction false} CopiesOneMore(t: Tree, src: Path, dest: Path, names: iset<string>, n: string, p: Path)
    requires n !in names
    ensures Copies(t, src, dest, names + iset{n}, p) <==>
      || Copies(t, src, dest, names, p)
      || (p == dest + [n] && src + [n] in t)
      || Copies(t, src + [n], dest + [n], AllNames, p)
    ensures !(Copies(t, src, dest, names, p) && Under(dest + [n], p))
    ensures Under(dest + [n], p) ==> Source(src + [n], dest + [n], p) == Source(src, dest, p)
  {
    if Under(dest, p) && |p| > |dest| && p[|dest|] == n {
      assert p[..|dest| + 1] == dest + [n];
      assert Under(dest + [n], p);
      if |p| == |dest| + 1 { assert p == dest + [n]; }
    }
    if Under(dest + [n], p) {
      assert p[|dest|..] == [n] + p[|dest| + 1..];
      assert src + p[|dest|..] == src + [n] + p[|dest| + 1..];
    }
  }

  lemma {:induction false} CopyFileAt(
    t: Tree, u: Tree, v: Tree, src: Path, dest: Path, names: iset<string>, n: string, umask: Mode, p: Path)
    requires WellFormed(t) && Apart(src, dest) && n !in names && src + [n] in t && t[src + [n]].File?
    requires CopyAt(t, u, src, dest, names, umask, p) && CopyAt(t, u, src, dest, names, umask, dest + [n])
    requires Placed(u, v, dest + [n], CopyOf(u, t[src + [n]], dest + [n], umask))
    ensures CopyAt(t, v, src, dest, names + iset{n}, umask, p)
  {
    CopiesOneMore(t, src, dest, names, n, p);
    CopiesOneMore(t, src, dest, names, n, dest + [n]);
    NothingBelowFile(t, src + [n]);
    assert Source(src, dest, dest + [n]) == src + [n];
    assert !Under(dest + [n], dest);
    if Copies(t, src + [n], dest + [n], AllNames, p) {
      assert Under(src + [n], Source(src + [n], dest + [n], p));
    }
  }

  lemma {:induction false} CopyFileStep(
    t: Tree, u: Tree, v: Tree, src: Path, dest: Path, names: iset<string>, n: string, umask: Mode)
    requires WellFormed(t) && Apart(src, dest) && n !in names && src + [n] in t && t[src + [n]].File?
    requires Copied(t, u, src, dest, names, umask)
    requires Placed(u, v, dest + [n], CopyOf(u, t[src + [n]], dest + [n], umask))
    ensures Copied(t, v, src, dest, names + iset{n}, umask)
  {
    forall p ensures CopyAt(t, v, src, dest, names + iset{n}, umask, p) {
      assert CopyAt(t, u, src, dest, names, umask, p) && CopyAt(t, u, src, dest, names, umask, dest + [n]);
      CopyFileAt(t, u, v, src, dest, names, n, umask, p);
    }
    var s, s' := iset p | Copies(t, src, dest, names, p), iset p | Copies(t, src, dest, names + iset{n}, p);
    forall q | q in t && q !in s' && t[q].Dir? && q in v && v[q] != t[q]
      ensures exists m :: q + [m] in v && q + [m] !in t
    {
      CopiesOneMore(t, src, dest, names, n, q);
      assert CopyAt(t, u, src, dest, names, umask, q);
      if u[q] != t[q] {
        var m :| q + [m] in u && q + [m] !in t;
        assert q + [m] in v;
      } else {
        var m :| q + [m] in v && q + [m] !in u;
        assert CopyAt(t, u, src, dest, names, umask, q + [m]);
      }
    }
  }

  /**
   * The states in copying a child directory: before, after mkdir -p, after the recursive copy, after the time is set.
   */
  ghost predicate DirSteps(
    t: Tree, u: Tree, w: Tree, x: Tree, v: Tree, src: Path, dest: Path, names: iset<string>, n: string, umask: Mode)
  {
    var c, d := src + [n], dest + [n];
    && WellFormed(t) && WellFormed(w) && Apart(src, dest) && n !in names && c in t && t[c].Dir?
    && Copied(t, u, src, dest, names, umask)
    && AddedDirs(u, w, d, Masked(t[c].mode, umask)) && d in w && w[d].Dir?
    && Copied(w, x, c, d, AllNames, umask)
    && d in x && x[d].Dir? && v == x[d := Dir(x[d].mode, t[c].mtime)]
  }

  lemma {:induction false} ApartChild(a: Path, b: Path, n: string)
    requires Apart(a, b)
    ensures !Under(a, b + [n])
  {}

  lemma {:induction false} ApartChildren(src: Path, dest: Path, n: string)
    requires Apart(src, dest)
    ensures Apart(src + [n], dest + [n]) && Apart(src, dest + [n])
  {
    ApartChild(src, dest, n);
    ApartChild(dest, src, n);
    assert Under(src + [n], dest + [n]) ==> Under(src, dest + [n]);
    assert Under(dest + [n], src + [n]) ==> Under(dest, src + [n]);
    assert Under(dest + [n], src) ==> Under(dest, src);
  }

  /** Making the target directory and copying before it leave the source alone. */
  lemma {:induction false} SourceKeptByMkdir(
    t: Tree, u: Tree, w: Tree, src: Path, dest: Path, names: iset<string>, n: string, umask: Mode, mode: Mode,
    q: Path)
    requires Apart(src, dest) && Copied(t, u, src, dest, names, umask) && AddedDirs(u, w, dest + [n], mode)
    requires Under(src, q)
    ensures (q in w <==> q in t) && (q in t ==> w[q] == t[q])
  {
    ApartChildren(src, dest, n);
    SourceKept(t, u, src, dest, names, umask, q);
    assert !Under(q, dest + [n]);
    assert forall m :: Under(q + [m], dest + [n]) ==> Under(q, dest + [n]);
  }

  /** Away from the child's copy and the way down to it, nothing changes at all. */
  lemma {:induction false} ElsewhereKept(
    t: Tree, u: Tree, w: Tree, x: Tree, v: Tree, src: Path, dest: Path, names: iset<string>, n: string, umask: Mode,
    p: Path)
    requires DirSteps(t, u, w, x, v, src, dest, names, n, umask)
    requires !Under(p, dest + [n]) && !Under(dest + [n], p) && p in u
    ensures p in v && v[p] == u[p]
  {
    var c, d := src + [n], dest + [n];
    assert CopyAt(w, x, c, d, AllNames, umask, p);
    forall m
      ensures p + [m] in w ==> p + [m] in u
      ensures p + [m] in x ==> p + [m] in w
    {
      assert CopyAt(w, x, c, d, AllNames, umask, p + [m]);
      assert Under(p + [m], d) ==> Under(p, d);
      assert Under(d, p + [m]) && |d| <= |p| ==> Under(d, p);
      assert Under(d, p + [m]) && |d| > |p| ==> d == p + [m];
    }
  }

  /** The copy of something strictly below the child. */
  lemma {:induction false} BelowChildAt(
    t: Tree, u: Tree, w: Tree, x: Tree, v: Tree, src: Path, dest: Path, names: iset<string>, n: string, umask: Mode,
    p: Path)
    requires DirSteps(t, u, w, x, v, src, dest, names, n, umask)
    requires Under(dest + [n], p) && p != dest + [n]
    ensures CopyAt(t, v, src + [n], dest + [n], AllNames, umask, p)
  {
    var c, d := src + [n], dest + [n];
    CopiesOneMore(t, src, dest, names, n, p);
    assert CopyAt(t, u, src, dest, names, umask, p);
    assert !Under(p, d) && !Under(p, dest);
    var s := Source(c, d, p);
    assert Under(src, s);
    SourceKeptByMkdir(t, u, w, src, dest, names, n, umask, Masked(t[c].mode, umask), s);
    assert p in u <==> p in t;
    assert p in w <==> p in t;
    assert CopyAt(w, x, c, d, AllNames, umask, p);
  }

  /** A directory on the way down to the child's copy. */
  lemma {:induction false} AboveChildAt(
    t: Tree, u: Tree, w: Tree, x: Tree, v: Tree, src: Path, dest: Path, names: iset<string>, n: string, umask: Mode,
    p: Path)
    requires DirSteps(t, u, w, x, v, src, dest, names, n, umask)
    requires Under(p, dest + [n]) && p != dest + [n]
    ensures CopyAt(t, v, src, dest, names + iset{n}, umask, p)
  {
    var d := dest + [n];
    CopiesOneMore(t, src, dest, names, n, p);
    assert CopyAt(t, u, src, dest, names, umask, p);
    assert CopyAt(w, x, src + [n], d, AllNames, umask, p);
    UnderParent(p, d);
    assert Parent(d) == dest;
    assert !Under(dest, p) || p == dest;
    PrefixesAreDirs(w, d);
  }

  lemma {:induction false} CopyDirAt(
    t: Tree, u: Tree, w: Tree, x: Tree, v: Tree, src: Path, dest: Path, names: iset<string>, n: string, umask: Mode,
    p: Path)
    requires DirSteps(t, u, w, x, v, src, dest, names, n, umask)
    ensures CopyAt(t, v, src, dest, names + iset{n}, umask, p)
  {
    var c, d := src + [n], dest + [n];
    CopiesOneMore(t, src, dest, names, n, p);
    assert CopyAt(t, u, src, dest, names, umask, p);
    assert CopyAt(w, x, c, d, AllNames, umask, p);
    if p == d {
      assert Source(src, dest, d) == c;
      assert !Under(d, dest);
    } else if Under(d, p) {
      BelowChildAt(t, u, w, x, v, src, dest, names, n, umask, p);
      assert !Under(p, dest);
    } else if Under(p, d) {
      AboveChildAt(t, u, w, x, v, src, dest, names, n, umask, p);
    } else if p in u {
      ElsewhereKept(t, u, w, x, v, src, dest, names, n, umask, p);
    }
  }

  lemma {:induction false} CopyDirStep(
    t: Tree, u: Tree, w: Tree, x: Tree, v: Tree, src: Path, dest: Path, names: iset<string>, n: string, umask: Mode)
    requires DirSteps(t, u, w, x, v, src, dest, names, n, umask)
    ensures Copied(t, v, src, dest, names + iset{n}, umask)
  {
    var c, d := src + [n], dest + [n];
    forall p ensures CopyAt(t, v, src, dest, names + iset{n}, umask, p) {
      CopyDirAt(t, u, w, x, v, src, dest, names, n, umask, p);
    }
    var s' := iset p | Copies(t, src, dest, names + iset{n}, p);
    forall q | q in t && q !in s' && t[q].Dir? && q in v && v[q] != t[q]
      ensures exists m :: q + [m] in v && q + [m] !in t
    {
      QuietThroughSteps(t, u, w, x, v, src, dest, names, n, umask, q);
    }
  }

  lemma {:induction false} QuietThroughSteps(
    t: Tree, u: Tree, w: Tree, x: Tree, v: Tree, src: Path, dest: Path, names: iset<string>, n: string, umask: Mode,
    q: Path)
    requires DirSteps(t, u, w, x, v, src, dest, names, n, umask)
    requires q in t && !Copies(t, src, dest, names + iset{n}, q) && t[q].Dir? && q in v && v[q] != t[q]
    ensures exists m :: q + [m] in v && q + [m] !in t
  {
    var c, d := src + [n], dest + [n];
    CopiesOneMore(t, src, dest, names, n, q);
    assert CopyAt(t, u, src, dest, names, umask, q) && CopyAt(w, x, c, d, AllNames, umask, q);
    if u[q] != t[q] {
      var m :| q + [m] in u && q + [m] !in t;
      assert CopyAt(w, x, c, d, AllNames, umask, q + [m]);
    } else if w[q] != u[q] {
      var m :| q + [m] in w && q + [m] !in u;
      assert CopyAt(w, x, c, d, AllNames, umask, q + [m]) && CopyAt(t, u, src, dest, names, umask, q + [m]);
    } else {
      if Under(d, q) {
        assert Under(src, Source(c, d, q));
        SourceKeptByMkdir(t, u, w, src, dest, names, n, umask, Masked(t[c].mode, umask), Source(c, d, q));
      }
      var m :| q + [m] in x && q + [m] !in w;
      assert CopyAt(t, u, src, dest, names, umask, q + [m]);
    }
  }

  lemma {:induction false} BoundedChild(t: Tree, u: Tree, dest: Path, n: string, depth: nat)
    requires depth > 0 && Bounded(t, u, dest + [n], depth - 1)
    ensures Bounded(t, u, dest, depth)
  {}

  /** New paths in dest do not make the rest of the source any deeper. */
  lemma {:induction false} WithinKept(t: Tree, u: Tree, src: Path, dest: Path, depth: nat)
    requires depth > 0 && Within(t, src, dest, depth) && Bounded(t, u, dest, depth)
    ensures Within(u, src, dest, depth)
  {
    forall q | q in u && q !in t && Under(src, q) && !Beyond(src, dest, q) ensures |q| <= |src| + depth {
      if Inside(src, dest) {
        NewBeyond(src, dest, q);
      } else {
        BothAbove(src, dest, q);
      }
    }
  }

  lemma {:induction false} NewBeyond(src: Path, dest: Path, q: Path)
    requires Inside(src, dest) && Under(src, q) && (Under(q, dest) || Under(dest, q)) && !Beyond(src, dest, q)
    ensures |q| <= |src| + 1
  {
    var c := src + [dest[|src|]];
    assert c == dest[..|src| + 1];
    assert |q| > |src| && Under(q, dest) ==> q[..|src| + 1] == c;
    assert Under(dest, q) ==> q[..|src| + 1] == c;
  }

  lemma {:induction false} NotInsideChild(src: Path, dest: Path, n: string)
    requires Inside(src + [n], dest + [n])
    ensures Inside(src, dest) && n == dest[|src|]
  {
    var c, d := src + [n], dest + [n];
    assert |c| == |d| ==> c == d;
    assert dest[..|src| + 1] == d[..|c|];
    assert src == c[..|src|] && n == c[|src|];
  }

  /** A child that does not contain dest is less deep. */
  lemma {:induction false} WithinChild(t: Tree, src: Path, dest: Path, n: string, depth: nat)
    requires Within(t, src, dest, depth) && src + [n] in t && (Inside(src, dest) ==> n != dest[|src|])
    ensures depth > 0 && Ends(t, src + [n], dest + [n]) && Within(t, src + [n], dest + [n], depth - 1)
  {
    assert Under(src, src + [n]);
    if Inside(src + [n], dest + [n]) { NotInsideChild(src, dest, n); }
    forall q | Under(src + [n], q) ensures Under(src, q) && !Beyond(src, dest, q) {
      assert q[|src|] == n;
    }
  }

  /** The child of src on the way to dest. */
  lemma {:induction false} OneDown(src: Path, dest: Path)
    requires Inside(src, dest)
    ensures src + [dest[|src|]] == dest[..|src| + 1] && Under(src + [dest[|src|]], dest)
  {}

  lemma {:induction false} StillInside(src: Path, dest: Path)
    requires Inside(src, dest)
    ensures Inside(src + [dest[|src|]], dest + [dest[|src|]])
  {
    OneDown(src, dest);
  }

  /**
   * With dest inside a directory that is copied, the call for that directory is again such a call: once its target
   * is made, it finds dest inside a directory of its own. w is the tree after mkdir -p.
   */
  lemma {:induction false} NestsAgain(w: Tree, src: Path, dest: Path)
    requires WellFormed(w) && Inside(src, dest)
    requires dest + [dest[|src|]] in w && w[dest + [dest[|src|]]].Dir?
    ensures !Ends(w, src + [dest[|src|]], dest + [dest[|src|]])
  {
    var c, d := src + [dest[|src|]], dest + [dest[|src|]];
    StillInside(src, dest);
    OneDown(c, d);
    PrefixesAreDirs(w, d);
  }

  /** The smallest such case: a directory copied into a directory of its own. */
  lemma {:induction false} IntoItself(mode: Mode)
    ensures var t: Tree := map[[] := Dir(mode, 0), ["a"] := Dir(mode, 0), ["a", "b"] := Dir(mode, 0)];
      WellFormed(t) && Inside(["a"], ["a", "b"]) && !Ends(t, ["a"], ["a", "b"])
  {
    var t: Tree := map[[] := Dir(mode, 0), ["a"] := Dir(mode, 0), ["a", "b"] := Dir(mode, 0)];
    assert Parent(["a"]) == [] && Parent(["a", "b"]) == ["a"];
    assert Plain("a") && Plain("b");
    assert ["a"] + [["a", "b"][1]] == ["a", "b"];
  }

  /** The names read from src are all there is to copy. */
  lemma {:induction false} AllCopied(t: Tree, u: Tree, src: Path, dest: Path, names: set<string>, umask: Mode)
    requires WellFormed(t) && forall n :: n in names <==> src + [n] in t
    requires Copied(t, u, src, dest, Named(names), umask)
    ensures Copied(t, u, src, dest, AllNames, umask)
  {
    var some := Named(names);
    forall p ensures Copies(t, src, dest, AllNames, p) <==> Copies(t, src, dest, some, p) {
      if Copies(t, src, dest, AllNames, p) {
        var s := Source(src, dest, p);
        assert s[..|src| + 1] == src + [p[|dest|]];
        assert Under(src + [p[|dest|]], s);
        PrefixesAreDirs(t, s);
      }
    }
    forall p ensures CopyAt(t, u, src, dest, AllNames, umask, p) {
      assert CopyAt(t, u, src, dest, some, umask, p);
    }
    assert (iset p | Copies(t, src, dest, AllNames, p)) == (iset p | Copies(t, src, dest, some, p));
  }

  /** Where a compatible file goes can be opened. */
  lemma {:induction false} FileFits(
    t: Tree, u: Tree, src: Path, dest: Path, names: iset<string>, n: string, umask: Mode)
    requires Compatible(t, src, dest) && Copied(t, u, src, dest, names, umask) && Grows(t, u)
    requires n !in names && src + [n] in t && !t[src + [n]].Dir?
    ensures t[src + [n]].File? && Openable(u, dest + [n])
  {
    var d := dest + [n];
    assert Under(src, src + [n]);
    assert Parent(d) == dest && Source(src, dest, d) == src + [n];
    assert Copies(t, src, dest, AllNames, d);
    assert CopyAt(t, u, src, dest, names, umask, d);
    assert !Under(d, dest);
  }

  /** Where a compatible directory goes can be made. */
  lemma {:induction false} DirFits(t: Tree, u: Tree, src: Path, dest: Path, names: iset<string>, n: string, umask: Mode)
    requires Compatible(t, src, dest) && Copied(t, u, src, dest, names, umask) && Grows(t, u) && WellFormed(u)
    requires n !in names && src + [n] in t && t[src + [n]].Dir?
    ensures Passable(u, dest + [n])
  {
    var d := dest + [n];
    assert Source(src, dest, d) == src + [n];
    assert Copies(t, src, dest, AllNames, d);
    assert CopyAt(t, u, src, dest, names, umask, d);
    assert !Under(d, dest);
    PrefixesAreDirs(u, dest);
    forall q | q in u && Under(q, d) ensures u[q].Dir? {
      if q != d { UnderParent(q, d); assert Parent(d) == dest; }
    }
  }

  /** Once its directory is made, the copy of the child is compatible in turn. */
  lemma {:induction false} ChildFits(
    t: Tree, u: Tree, w: Tree, src: Path, dest: Path, names: iset<string>, n: string, umask: Mode, mode: Mode)
    requires Compatible(t, src, dest) && Apart(src, dest) && n !in names
    requires Copied(t, u, src, dest, names, umask) && AddedDirs(u, w, dest + [n], mode)
    requires dest + [n] in w && w[dest + [n]].Dir? && src + [n] in t && t[src + [n]].Dir?
    ensures Compatible(w, src + [n], dest + [n])
  {
    var c, d := src + [n], dest + [n];
    SourceKeptByMkdir(t, u, w, src, dest, names, n, umask, mode, c);
    forall q | q in w && Under(c, q) && q != c ensures !w[q].Special? {
      assert Under(src, q);
      SourceKeptByMkdir(t, u, w, src, dest, names, n, umask, mode, q);
    }
    forall p | p in w && Copies(w, c, d, AllNames, p) ensures SameKind(w[p], w[Source(c, d, p)]) {
      CopiesOneMore(t, src, dest, names, n, p);
      assert Under(d, p) && p != d;
      assert Under(src, Source(c, d, p));
      SourceKeptByMkdir(t, u, w, src, dest, names, n, umask, mode, Source(c, d, p));
      assert CopyAt(t, u, src, dest, names, umask, p);
      assert !Under(p, d) && !Under(p, dest);
      assert Copies(t, src, dest, AllNames, p);
    }
  }

  // ----- a directory copied onto itself -----

  lemma {:induction false} NothingEmptied(t: Tree, src: Path)
    ensures Emptied(t, src, iset{}) == t
  {}

  lemma {:induction false} EmptiedFile(t: Tree, src: Path, names: iset<string>, n: string)
    requires WellFormed(t) && n !in names && src + [n] in t && t[src + [n]].File?
    ensures var u := Emptied(t, src, names);
      u[src + [n] := u[src + [n]].(content := Nothing)] == Emptied(t, src, names + iset{n})
  {
    NothingBelowFile(t, src + [n]);
    forall p | p in t ensures FileBelow(t, src, names + iset{n}, p) <==> FileBelow(t, src, names, p) || p == src + [n] {
      FirstName(src, n, p);
    }
  }

  lemma {:induction false} FirstName(src: Path, n: string, p: Path)
    ensures Under(src + [n], p) <==> Under(src, p) && |p| > |src| && p[|src|] == n
    ensures |p| == |src| + 1 && Under(src + [n], p) ==> p == src + [n]
  {
    if Under(src, p) && |p| > |src| && p[|src|] == n { assert p[..|src| + 1] == src + [n]; }
    assert (src + [n])[|src|] == n;
  }

  lemma {:induction false} EmptiedDir(t: Tree, src: Path, names: iset<string>, n: string)
    requires WellFormed(t) && n !in names && src + [n] in t && t[src + [n]].Dir?
    ensures Emptied(Emptied(t, src, names), src + [n], AllNames) == Emptied(t, src, names + iset{n})
  {
    var u := Emptied(t, src, names);
    forall p | p in t
      ensures FileBelow(t, src, names + iset{n}, p) <==>
        FileBelow(t, src, names, p) || FileBelow(u, src + [n], AllNames, p)
    {
      FirstName(src, n, p);
    }
  }

  lemma {:induction false} AllEmptied(t: Tree, src: Path, names: set<string>)
    requires WellFormed(t) && forall n :: n in names <==> src + [n] in t
    ensures Emptied(t, src, Named(names)) == Emptied(t, src, AllNames)
  {
    forall p | p in t ensures FileBelow(t, src, Named(names), p) <==> FileBelow(t, src, AllNames, p) {
      if FileBelow(t, src, AllNames, p) {
        FirstName(src, p[|src|], p);
        PrefixesAreDirs(t, p);
      }
    }
  }

  /** Setting the time of the directory again changes nothing, so it is all in the recursive call. */
  lemma {:induction false} TimeIsThere(u: Tree, x: Tree, c: Path)
    requires c in u && u[c].Dir? && x == Emptied(u, c, AllNames)
    ensures c in x && x[c := Dir(x[c].mode, u[c].mtime)] == x
  {}

  /** A child that is there has its place. */
  lemma {:induction false} OwnPlace(u: Tree, src: Path, n: string)
    requires WellFormed(u) && src + [n] in u
    ensures u[src + [n]].File? ==> Openable(u, src + [n])
    ensures u[src + [n]].Dir? ==> Passable(u, src + [n])
  {
    assert Parent(src + [n]) == src;
    PrefixesAreDirs(u, src + [n]);
  }

  /** Copying onto itself needs a directory of directories and regular files. */
  lemma {:induction false} OntoItself(t: Tree, src: Path)
    ensures Feasible(t, src, src) <==> src in t && t[src].Dir? && NoSpecialBelow(t, src)
  {
    forall p | p in t && Copies(t, src, src, AllNames, p) ensures Source(src, src, p) == p {}
  }

  lemma {:induction false} EmptiedCompatible(t: Tree, src: Path, names: iset<string>, n: string)
    requires WellFormed(t) && Compatible(t, src, src) && src + [n] in t
    ensures var u := Emptied(t, src, names);
      (u[src + [n]].Dir? ==> Compatible(u, src + [n], src + [n])) && !u[src + [n]].Special?
  {
    var u, c := Emptied(t, src, names), src + [n];
    assert Under(src, c);
    forall q | q in u && Under(c, q) ensures !u[q].Special? { assert Under(src, q) && q != src; }
    if u[c].Dir? { OntoItself(u, c); }
  }

  // ----- directories: the recursion -----

  ghost function Named(names: set<string>): iset<string> { iset n | n in names }

  lemma {:induction false} NamedMore(names: set<string>, n: string)
    ensures Named(names + {n}) == Named(names) + iset{n}
  {}

  lemma {:induction false} TameTwice(t: Tree, u: Tree, v: Tree, dest: Path, depth: nat)
    requires Tame(t, u, dest, depth) && Tame(u, v, dest, depth)
    ensures Tame(t, v, dest, depth)
  {}

  /** With dest there, mkdir -p in it adds only that child. */
  lemma {:induction false} OnlyChildAdded(u: Tree, w: Tree, dest: Path, n: string, mode: Mode)
    requires WellFormed(u) && AddedDirs(u, w, dest + [n], mode) && dest in u
    ensures forall q | q in w && q !in u :: q == dest + [n]
  {
    assert Parent(dest + [n]) == dest;
    PrefixesAreDirs(u, dest);
    forall q | q in w && q !in u ensures q == dest + [n] {
      if q != dest + [n] { UnderParent(q, dest + [n]); }
    }
  }

  lemma {:induction false} ConfinedMkdir(u: Tree, w: Tree, dest: Path, n: string, mode: Mode)
    requires WellFormed(u) && AddedDirs(u, w, dest + [n], mode)
    ensures Confined(u, w, dest)
  {
    if dest in u {
      OnlyChildAdded(u, w, dest, n, mode);
      assert Under(dest, dest + [n]) && Under(dest, dest);
      forall q | !Under(dest, q) && q in u ensures w[q] == u[q] {
        assert forall m: string :: q + [m] == dest + [n] ==> q == dest;
      }
    }
  }

  /** Making a directory in dest, or on the way to it. */
  lemma {:induction false} TameMkdir(u: Tree, w: Tree, dest: Path, n: string, depth: nat, mode: Mode)
    requires WellFormed(u) && depth > 0 && AddedDirs(u, w, dest + [n], mode)
    ensures Tame(u, w, dest, depth)
  {
    BoundedChild(u, w, dest, n, depth);
    ConfinedMkdir(u, w, dest, n, mode);
  }

  /** What is tame in a child of dest is tame in dest. */
  lemma {:induction false} TameChild(w: Tree, x: Tree, dest: Path, n: string, depth: nat)
    requires depth > 0 && dest + [n] in w && Tame(w, x, dest + [n], depth - 1)
    ensures Tame(w, x, dest, depth)
  {}

  /** Writing a file in dest. */
  lemma {:induction false} TameFile(u: Tree, v: Tree, dest: Path, n: string, depth: nat)
    requires depth > 0 && Grows(u, v) && KeptOutside(u, v, iset{dest + [n]}) && Quiet(u, v, iset{})
    ensures Tame(u, v, dest, depth)
  {}

  /** Setting the time of something in dest. */
  lemma {:induction false} TameTime(u: Tree, dest: Path, p: Path, mtime: Time, depth: nat)
    requires p in u && u[p].Dir? && Under(dest, p)
    ensures Tame(u, u[p := Dir(u[p].mode, mtime)], dest, depth)
  {}

  /** What both methods below are given: the state t the directory was read in, and the children copied since. */
  ghost predicate Halfway(disk: Disk, src: Path, dest: Path, t: Tree, names: iset<string>)
    reads disk
  {
    && WellFormed(disk.tree) && PlainPath(dest) && WellFormed(t) && Grows(t, disk.tree)
    && CopiedOver(t, disk.tree, src, dest, names, disk.umask)
  }

  /** A turn of the loop of CopyDir, for an entry that is no directory. */
  method CopyChildFile(
    disk: Disk, src: Path, dest: Path, n: string, ghost room: nat, ghost t: Tree, ghost names: iset<string>)
    returns (ok: bool)
    requires Halfway(disk, src, dest, t, names) && src + [n] in t && n !in names && !t[src + [n]].Dir? && room > 0
    modifies disk`tree
    ensures WellFormed(disk.tree) && Tame(old(disk.tree), disk.tree, dest, room)
    ensures ok ==> CopiedOver(t, disk.tree, src, dest, names + iset{n}, disk.umask)
    ensures disk.reliable && Feasible(t, src, dest) ==> ok
  {
    var c, d := src + [n], dest + [n];
    ghost var u := disk.tree;
    assert PlainPath(c) && PlainPath(d);
    if Apart(src, dest) {
      SourceKept(t, u, src, dest, names, disk.umask, c);
      if Compatible(t, src, dest) { FileFits(t, u, src, dest, names, n, disk.umask); }
    } else if src == dest {
      OwnPlace(u, src, n);
      if Compatible(t, src, dest) { EmptiedCompatible(t, src, names, n); }
    }
    ok := CopyFile(disk, c, d);
    TameFile(u, disk.tree, dest, n, room);
    if ok && Apart(src, dest) { CopyFileStep(t, u, disk.tree, src, dest, names, n, disk.umask); }
    if ok && src == dest { EmptiedFile(t, src, names, n); }
  }

  /** The child is shallow enough, and dest is not inside it. */
  ghost predicate Roomy(t: Tree, src: Path, dest: Path, n: string, room: nat) {
    Within(t, src, dest, room) && (Inside(src, dest) ==> n != dest[|src|])
  }

  /** Making the target directory, copying into it, and setting its time; w and x are the states in between. */
  method CopySubdir(disk: Disk, src: Path, dest: Path, n: string, room: nat)
    returns (ok: bool, exhausted: bool, ghost w: Tree, ghost x: Tree)
    requires WellFormed(disk.tree) && PlainPath(dest) && room > 0
    requires src + [n] in disk.tree && disk.tree[src + [n]].Dir?
    modifies disk`tree
    ensures WellFormed(disk.tree) && Tame(old(disk.tree), disk.tree, dest, room)
    ensures ok || Roomy(old(disk.tree), src, dest, n, room) ==> !exhausted
    ensures Inside(src, dest) && n == dest[|src|] ==> !ok
    ensures ok || (disk.reliable && Passable(old(disk.tree), dest + [n])) ==>
      && WellFormed(w) && dest + [n] in w && w[dest + [n]].Dir?
      && AddedDirs(old(disk.tree), w, dest + [n], Masked(old(disk.tree)[src + [n]].mode, disk.umask))
      && (dest + [n] in old(disk.tree) ==> w == old(disk.tree))
      && (disk.reliable && Feasible(w, src + [n], dest + [n]) ==> ok || exhausted)
    ensures ok ==>
      && CopiedOver(w, x, src + [n], dest + [n], AllNames, disk.umask)
      && dest + [n] in x && x[dest + [n]].Dir?
      && disk.tree == x[dest + [n] := Dir(x[dest + [n]].mode, old(disk.tree)[src + [n]].mtime)]
    decreases room, 0
  {
    var c, d := src + [n], dest + [n];
    ghost var u := disk.tree;
    assert PlainPath(c) && PlainPath(d);
    var mode, mtime := disk.tree[c].mode, disk.tree[c].mtime;
    exhausted := false;
    ok := disk.MkdirAll(d, mode);
    w, x := disk.tree, disk.tree;
    TameMkdir(u, w, dest, n, room, Masked(mode, disk.umask));
    if !ok { return; }
    if Roomy(u, src, dest, n, room) {
      WithinKept(u, w, src, dest, room);
      WithinChild(w, src, dest, n, room);
    }
    if Inside(src, dest) && n == dest[|src|] { NestsAgain(w, src, dest); }
    ok, exhausted := CopyDirFrom(disk, c, d, room - 1);
    x := disk.tree;
    TameChild(w, x, dest, n, room);
    TameTwice(u, w, x, dest, room);
    if !ok { return; }
    ok := disk.Chtimes(d, mtime);
    TameTime(x, dest, d, mtime, room);
    if ok { TameTwice(u, x, disk.tree, dest, room); }
  }

  /** A turn of the loop of CopyDir, for a directory. */
  method CopyChildDir(disk: Disk, src: Path, dest: Path, n: string, room: nat, ghost t: Tree, ghost names: iset<string>)
    returns (ok: bool, exhausted: bool)
    requires Halfway(disk, src, dest, t, names) && src + [n] in t && n !in names && t[src + [n]].Dir? && room > 0
    modifies disk`tree
    ensures WellFormed(disk.tree) && Tame(old(disk.tree), disk.tree, dest, room)
    ensures ok || Roomy(old(disk.tree), src, dest, n, room) ==> !exhausted
    ensures Inside(src, dest) && n == dest[|src|] ==> !ok
    ensures ok ==> CopiedOver(t, disk.tree, src, dest, names + iset{n}, disk.umask)
    ensures disk.reliable && Feasible(t, src, dest) ==> ok || exhausted
    decreases room, 1
  {
    ghost var u, w, x := disk.tree, map[], map[];
    if Apart(src, dest) {
      SourceKept(t, u, src, dest, names, disk.umask, src + [n]);
      ApartChildren(src, dest, n);
      if Compatible(t, src, dest) { DirFits(t, u, src, dest, names, n, disk.umask); }
    } else if src == dest {
      OwnPlace(u, src, n);
      if Compatible(t, src, dest) { EmptiedCompatible(t, src, names, n); }
    }
    ok, exhausted, w, x := CopySubdir(disk, src, dest, n, room);
    if Apart(src, dest) {
      if ok {
        CopyDirStep(t, u, w, x, disk.tree, src, dest, names, n, disk.umask);
      } else if disk.reliable && Compatible(t, src, dest) {
        ChildFits(t, u, w, src, dest, names, n, disk.umask, Masked(t[src + [n]].mode, disk.umask));
      }
    } else if ok && src == dest {
      TimeIsThere(u, x, src + [n]);
      EmptiedDir(t, src, names, n);
    }
  }

  /** What holds while the children are being copied; fits says that room suffices. */
  ghost predicate Underway(
    disk: Disk, src: Path, dest: Path, room: nat, t: Tree, names: seq<string>, seen: set<string>, fits: bool)
    reads disk
  {
    && Halfway(disk, src, dest, t, Named(seen)) && Tame(t, disk.tree, dest, room)
    && (forall n | n in names :: src + [n] in t)
    && (fits ==> Ends(t, src, dest) && Within(disk.tree, src, dest, room))
    && (!Ends(t, src, dest) ==> dest[|src|] !in seen)
  }

  /** The two kinds of turns of the loop. */
  method CopyEntry(disk: Disk, src: Path, dest: Path, n: string, room: nat, ghost t: Tree, ghost names: iset<string>)
    returns (ok: bool, exhausted: bool)
    requires Halfway(disk, src, dest, t, names) && src + [n] in t && n !in names && room > 0
    modifies disk`tree
    ensures WellFormed(disk.tree) && Tame(old(disk.tree), disk.tree, dest, room)
    ensures ok || (Within(old(disk.tree), src, dest, room) && Ends(t, src, dest)) ==> !exhausted
    ensures !Ends(t, src, dest) && n == dest[|src|] ==> !ok
    ensures ok ==> CopiedOver(t, disk.tree, src, dest, names + iset{n}, disk.umask)
    ensures disk.reliable && Feasible(t, src, dest) ==> ok || exhausted
    decreases room, 2
  {
    exhausted := false;
    if disk.tree[src + [n]].Dir? {
      ok, exhausted := CopyChildDir(disk, src, dest, n, room, t, names);
    } else {
      ok := CopyChildFile(disk, src, dest, n, room, t, names);
    }
  }

  /** One turn of the loop. */
  method CopyChild(
    disk: Disk, src: Path, dest: Path, n: string, room: nat,
    ghost t: Tree, ghost names: seq<string>, ghost seen: set<string>, ghost fits: bool)
    returns (ok: bool, exhausted: bool)
    requires Underway(disk, src, dest, room, t, names, seen, fits) && n in names && n !in seen
    modifies disk`tree
    ensures WellFormed(disk.tree) && Tame(t, disk.tree, dest, room)
    ensures ok ==> Underway(disk, src, dest, room, t, names, seen + {n}, fits)
    ensures ok || fits ==> !exhausted
    ensures disk.reliable && Feasible(t, src, dest) ==> ok || exhausted
    decreases room, 3
  {
    ghost var u := disk.tree;
    if fits { RoomFor(u, src, dest, n, room); }
    if room == 0 { return false, true; }
    NamedMore(seen, n);
    ok, exhausted := CopyEntry(disk, src, dest, n, room, t, Named(seen));
    TameTwice(t, u, disk.tree, dest, room);
    if fits { WithinKept(u, disk.tree, src, dest, room); }
  }

  /** There is room for a child that is there. */
  lemma {:induction false} RoomFor(t: Tree, src: Path, dest: Path, n: string, depth: nat)
    requires Within(t, src, dest, depth) && src + [n] in t
    ensures depth > 0
  {
    assert Under(src, src + [n]);
    assert !Beyond(src, dest, src + [n]);
  }

  /**
   * CopyDir, where room says how many names longer than dest a path can get before the file system or the stack
   * gives out; exhausted says that it did. This matters where the copy is made into its own source: if dest is
   * inside a directory of src, the recursion keeps finding its own output and never succeeds, whatever the room.
   * In every other case it needs only as much room as the source is deep.
   */
  method CopyDirFrom(disk: Disk, src: Path, dest: Path, room: nat) returns (ok: bool, exhausted: bool)
    requires WellFormed(disk.tree) && PlainPath(dest)
    modifies disk`tree
    ensures WellFormed(disk.tree) && Tame(old(disk.tree), disk.tree, dest, room)
    ensures ok ==> src in old(disk.tree) && old(disk.tree)[src].Dir? && !exhausted
    ensures ok ==> Ends(old(disk.tree), src, dest)
    ensures Ends(old(disk.tree), src, dest) && Within(old(disk.tree), src, dest, room) ==> !exhausted
    ensures ok ==> CopiedOver(old(disk.tree), disk.tree, src, dest, AllNames, disk.umask)
    ensures disk.reliable && Feasible(old(disk.tree), src, dest) ==> ok || exhausted
    decreases room, 4
  {
    ghost var t := disk.tree;
    ghost var fits := Ends(t, src, dest) && Within(t, src, dest, room);
    var names;
    exhausted := false;
    ok, names := disk.ReadDir(src);
    if !ok { return; }
    ghost var seen: set<string> := {};
    NothingCopied(t, src, dest, disk.umask);
    NothingEmptied(t, src);
    assert Named(seen) == iset{};
    for k := 0 to |names|
      invariant SeenSoFar(names, k, seen)
      invariant Underway(disk, src, dest, room, t, names, seen, fits)
    {
      SeenMore(names, k, seen);
      ok, exhausted := CopyChild(disk, src, dest, names[k], room, t, names, seen, fits);
      if !ok { return; }
      seen := seen + {names[k]};
    }
    exhausted := false;
    assert forall n :: n in seen <==> n in names;
    if Apart(src, dest) { AllCopied(t, disk.tree, src, dest, seen, disk.umask); }
    if src == dest { AllEmptied(t, src, seen); }
  }

  /** No path is longer than this. */
  method LongestPath(disk: Disk) returns (m: nat)
    ensures forall p | p in disk.tree :: |p| <= m
  {
    m := 0;
    var todo := disk.tree.Keys;
    while todo != {}
      invariant todo <= disk.tree.Keys
      invariant forall p | p in disk.tree && p !in todo :: |p| <= m
      decreases |todo|
    {
      var p :| p in todo;
      if |p| > m { m := |p|; }
      todo := todo - {p};
    }
  }

  /**
   * CopyDir. It never succeeds if dest is inside a directory of src; otherwise the limit on paths does not matter,
   * and if the two are apart the result is exactly the copy. Copying a directory onto itself empties every file in it.
   */
  method CopyDir(disk: Disk, src: Path, dest: Path) returns (ok: bool)
    requires WellFormed(disk.tree) && PlainPath(dest)
    modifies disk`tree
    ensures WellFormed(disk.tree) && Grows(old(disk.tree), disk.tree)
    ensures dest in old(disk.tree) ==> OnlyUnder(old(disk.tree), disk.tree, dest)
    ensures ok ==> src in old(disk.tree) && old(disk.tree)[src].Dir? && Ends(old(disk.tree), src, dest)
    ensures ok && Apart(src, dest) ==> Copied(old(disk.tree), disk.tree, src, dest, AllNames, disk.umask)
    ensures ok && src == dest ==> disk.tree == Emptied(old(disk.tree), src, AllNames)
    ensures disk.reliable && Feasible(old(disk.tree), src, dest) ==> ok
  {
    var longest := LongestPath(disk);
    var exhausted;
    ok, exhausted := CopyDirFrom(disk, src, dest, longest);
  }
}
