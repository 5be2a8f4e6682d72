/** Writing an archive of a directory: what it lists, and the walk that writes it. */
module Archive {
  import opened FileSystem

  /** fileInfoHeader and the contents that follow: the name is relative, a directory's ends in a slash. */
  function EntryOf(n: Node, name: Path): Entry {
    match n
    case Dir(mode, mtime) => Entry(name + [""], Directory, mode, mtime, Nothing)
    case File(mode, mtime, content) => Entry(name, Regular, mode, mtime, content)
    case Special => Entry(name, OtherKind, 0, 0, Nothing)
  }

  /** q lies below p, under one of the given names. */
  predicate Below(p: Path, names: set<string>, q: Path) { Under(p, q) && |q| > |p| && q[|p|] in names }

  /**
   * es are the entries of the paths ps, named relative to src, and no path comes after one that it contains or
   * equals.
   */
  ghost predicate Listing(t: Tree, src: Path, es: seq<Entry>, ps: seq<Path>) {
    && |es| == |ps|
    && (forall i | 0 <= i < |ps| ::
          && ps[i] in t && Under(src, ps[i]) && ps[i] != src
          && es[i] == EntryOf(t[ps[i]], ps[i][|src|..]))
    && (forall i, j | 0 <= i < j < |ps| :: !Under(ps[j], ps[i]))
  }

  /** An archive of src: a listing of everything below it. */
  ghost predicate IsArchive(t: Tree, src: Path, es: seq<Entry>, ps: seq<Path>) { ListsStrictly(t, src, src, es, ps) }

  /** Only directories and regular files lie below p. */
  ghost predicate NoSpecialBelow(t: Tree, p: Path) { forall q | q in t && Under(p, q) && q != p :: !t[q].Special? }

  ghost function Subtree(t: Tree, p: Path): set<Path> { set q | q in t && Under(p, q) }

  /** Everything at or below p, in a listing. */
  ghost predicate ListsFrom(t: Tree, src: Path, p: Path, es: seq<Entry>, ps: seq<Path>) {
    Listing(t, src, es, ps) && forall q :: q in ps <==> q in t && Under(p, q)
  }

  /** Everything strictly below p, in a listing. */
  ghost predicate ListsStrictly(t: Tree, src: Path, p: Path, es: seq<Entry>, ps: seq<Path>) {
    Listing(t, src, es, ps) && forall q :: q in ps <==> q in t && Under(p, q) && q != p
  }

  /** Everything below p under some of its names, in a listing. */
  ghost predicate ListsBelow(t: Tree, src: Path, p: Path, names: set<string>, es: seq<Entry>, ps: seq<Path>) {
    Listing(t, src, es, ps) && forall q :: q in ps <==> q in t && Below(p, names, q)
  }

  /** Two listings in a row are one if nothing in the second contains something in the first. */
  lemma {:induction false} ListingConcat(
    t: Tree, src: Path, es: seq<Entry>, ps: seq<Path>, es': seq<Entry>, ps': seq<Path>)
    requires Listing(t, src, es, ps) && Listing(t, src, es', ps')
    requires forall p, q | p in ps && q in ps' :: !Under(q, p)
    ensures Listing(t, src, es + es', ps + ps')
  {}

  /** A listing that starts with p. */
  lemma {:induction false} ListingCons(t: Tree, src: Path, p: Path, es: seq<Entry>, ps: seq<Path>)
    requires p in t && Under(src, p) && p != src
    requires ListsStrictly(t, src, p, es, ps)
    ensures ListsFrom(t, src, p, [EntryOf(t[p], p[|src|..])] + es, [p] + ps)
  {
    forall q | q in ps ensures !Under(q, p) {
      assert Under(p, q) && Under(q, p) ==> q == p;
    }
    assert Listing(t, src, [EntryOf(t[p], p[|src|..])], [p]);
    ListingConcat(t, src, [EntryOf(t[p], p[|src|..])], [p], es, ps);
    assert Under(p, p);
  }

  /** The listing of some children of p continued with another child. */
  lemma {:induction false} ListsOneMore(
    t: Tree, src: Path, p: Path, names: set<string>, n: string, es: seq<Entry>, ps: seq<Path>, es': seq<Entry>,
    ps': seq<Path>)
    requires n !in names && ListsBelow(t, src, p, names, es, ps) && ListsFrom(t, src, p + [n], es', ps')
    ensures ListsBelow(t, src, p, names + {n}, es + es', ps + ps')
  {
    forall a, b | a in ps && b in ps' ensures !Under(b, a) {
      assert Below(p, names, a) && Under(p + [n], b);
      assert b[|p|] == n;
    }
    ListingConcat(t, src, es, ps, es', ps');
    forall q ensures q in ps + ps' <==> q in t && Below(p, names + {n}, q) {
      assert q in ps + ps' <==> q in ps || q in ps';
      if Under(p, q) && |q| > |p| && q[|p|] == n {
        assert q[..|p| + 1] == p + [n];
        assert Under(p + [n], q);
      }
    }
  }

  /** A file has nothing below it. */
  lemma {:induction false} NothingBelowFile(t: Tree, p: Path)
    requires WellFormed(t) && p in t && !t[p].Dir?
    ensures forall q | q in t && Under(p, q) :: q == p
  {
    forall q | q in t && Under(p, q) ensures q == p {
      if q != p { PrefixesAreDirs(t, q); assert false; }
    }
  }

  lemma {:induction false} SubtreeShrinks(t: Tree, p: Path, n: string)
    requires p in t && p + [n] in t
    ensures Subtree(t, p + [n]) < Subtree(t, p)
  {
    assert p in Subtree(t, p) && p !in Subtree(t, p + [n]);
  }

  ghost predicate CleanBelow(t: Tree, p: Path, names: set<string>) {
    forall q | q in t && Below(p, names, q) :: !t[q].Special?
  }

  lemma {:induction false} ChildrenClean(t: Tree, p: Path, n: string)
    requires NoSpecialBelow(t, p)
    ensures NoSpecialFrom(t, p + [n])
  {}

  lemma {:induction false} CleanOneMore(t: Tree, p: Path, names: set<string>, n: string)
    requires NoSpecialFrom(t, p + [n]) && CleanBelow(t, p, names)
    ensures CleanBelow(t, p, names + {n})
  {}

  /** The names read from p account for everything below it. */
  lemma {:induction false} AllSeen(t: Tree, p: Path, names: set<string>)
    requires WellFormed(t) && forall n :: n in names <==> p + [n] in t
    ensures forall q | q in t :: Below(p, names, q) <==> Under(p, q) && q != p
  {
    forall q | q in t && Under(p, q) && q != p ensures Below(p, names, q) {
      assert |q| == |p| ==> q == p;
      assert q[..|p| + 1] == p + [q[|p|]];
      assert Under(p + [q[|p|]], q);
      PrefixesAreDirs(t, q);
    }
  }

  ghost predicate SeenSoFar(names: seq<string>, k: int, seen: set<string>) {
    0 <= k <= |names| && forall n :: n in seen <==> exists i :: 0 <= i < k && names[i] == n
  }

  lemma {:induction false} SeenMore(names: seq<string>, k: nat, seen: set<string>)
    requires k < |names| && SeenSoFar(names, k, seen)
    requires forall i, j | 0 <= i < j < |names| :: names[i] != names[j]
    ensures names[k] in names && names[k] !in seen && SeenSoFar(names, k + 1, seen + {names[k]})
  {}

  lemma {:induction false} WalkDone(t: Tree, src: Path, p: Path, names: set<string>, es: seq<Entry>, ps: seq<Path>)
    requires WellFormed(t) && forall n :: n in names <==> p + [n] in t
    requires ListsBelow(t, src, p, names, es, ps) && CleanBelow(t, p, names)
    ensures ListsStrictly(t, src, p, es, ps) && NoSpecialBelow(t, p)
  {
    AllSeen(t, p, names);
  }

  /** Only directories and regular files lie at or below p. */
  ghost predicate NoSpecialFrom(t: Tree, p: Path) { forall q | q in t && Under(p, q) :: !t[q].Special? }

  /**
   * The walk of CreateTar at p: its header and contents, then what lies below it. A reliable disk lets it
   * succeed exactly when there are only directories and regular files.
   */
  method Visit(disk: Disk, src: Path, p: Path) returns (ok: bool, es: seq<Entry>, ghost ps: seq<Path>)
    requires WellFormed(disk.tree) && Under(src, p) && p != src && p in disk.tree
    ensures ok ==> ListsFrom(disk.tree, src, p, es, ps) && NoSpecialFrom(disk.tree, p)
    ensures disk.reliable && NoSpecialFrom(disk.tree, p) ==> ok
    decreases Subtree(disk.tree, p), 1
  {
    var t := disk.tree;
    es, ps := [], [];
    assert Under(p, p);
    if t[p].Special? { return false, es, ps; }
    ok := true;
    if t[p].Dir? {
      ok, es, ps := Walk(disk, src, p);
      if !ok { return; }
    } else {
      NothingBelowFile(t, p);
    }
    ListingCons(t, src, p, es, ps);
    es, ps := [EntryOf(t[p], p[|src|..])] + es, [p] + ps;
  }

  /** The walk below directory p, in the order its names are read. */
  method Walk(disk: Disk, src: Path, p: Path) returns (ok: bool, es: seq<Entry>, ghost ps: seq<Path>)
    requires WellFormed(disk.tree) && Under(src, p) && p in disk.tree && disk.tree[p].Dir?
    ensures ok ==> ListsStrictly(disk.tree, src, p, es, ps) && NoSpecialBelow(disk.tree, p)
    ensures disk.reliable && NoSpecialBelow(disk.tree, p) ==> ok
    decreases Subtree(disk.tree, p), 0
  {
    var t := disk.tree;
    var names;
    es, ps := [], [];
    ok, names := disk.ReadDir(p);
    if !ok { return; }
    ghost var seen: set<string> := {};
    for k := 0 to |names|
      invariant SeenSoFar(names, k, seen)
      invariant ListsBelow(t, src, p, seen, es, ps)
      invariant CleanBelow(t, p, seen)
    {
      var n := names[k];
      SeenMore(names, k, seen);
      SubtreeShrinks(t, p, n);
      if NoSpecialBelow(t, p) { ChildrenClean(t, p, n); }
      var sub;
      ghost var below;
      ok, sub, below := Visit(disk, src, p + [n]);
      if !ok { return; }
      ListsOneMore(t, src, p, seen, n, es, ps, sub, below);
      CleanOneMore(t, p, seen, n);
      es, ps := es + sub, ps + below;
      seen := seen + {n};
    }
    assert forall n :: n in seen <==> n in names;
    WalkDone(t, src, p, seen, es, ps);
  }

  /**
   * CreateTar: the containing directory itself is left out, and a source that is no directory gives an empty archive.
   */
  method CreateTar(disk: Disk, src: Path) returns (ok: bool, es: seq<Entry>, ghost ps: seq<Path>)
    requires WellFormed(disk.tree)
    ensures ok ==> src in disk.tree && IsArchive(disk.tree, src, es, ps) && NoSpecialBelow(disk.tree, src)
    ensures disk.reliable && src in disk.tree && NoSpecialBelow(disk.tree, src) ==> ok
  {
    es, ps := [], [];
    ok := src in disk.tree;
    if !ok { return; }
    if disk.tree[src].Dir? {
      ok, es, ps := Walk(disk, src, src);
    } else {
      NothingBelowFile(disk.tree, src);
    }
  }
}
