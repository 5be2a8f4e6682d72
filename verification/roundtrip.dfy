/** Archiving and extracting again: the round trip, and its agreement with CopyDir. */
module RoundTrip {
  import opened Common
  import opened FileSystem
  import opened Extract
  import opened Archive
  import opened Copy

  /** An archive es of the tree a below src is to be extracted over the tree t into the directory dest. */
  ghost predicate Ready(a: Tree, src: Path, es: seq<Entry>, ps: seq<Path>, t: Tree, dest: Path) {
    && WellFormed(a) && IsArchive(a, src, es, ps) && NoSpecialBelow(a, src)
    && WellFormed(t) && dest in t && t[dest].Dir?
  }

  /** p is the image of something archived. */
  predicate Imaged(a: Tree, src: Path, dest: Path, p: Path) {
    Under(dest, p) && p != dest && Source(src, dest, p) in a
  }

  /** What extracting the archive makes of p, up to the time of directories that are not in it. */
  function Image(a: Tree, src: Path, t: Tree, dest: Path, umask: Mode, p: Path): Option<Node> {
    if Imaged(a, src, dest, p) then Some(CopyOf(t, a[Source(src, dest, p)], p, umask))
    else if p in t then Some(t[p]) else None
  }

  /** Entry i lands where its path has its image. */
  lemma {:induction false} TargetOf(a: Tree, src: Path, es: seq<Entry>, ps: seq<Path>, t: Tree, dest: Path, i: nat)
    requires Ready(a, src, es, ps, t, dest) && i < |es|
    ensures Target(dest, es[i].name) == dest + ps[i][|src|..]
    ensures Source(src, dest, Target(dest, es[i].name)) == ps[i] && Imaged(a, src, dest, Target(dest, es[i].name))
  {
    var rel := ps[i][|src|..];
    assert src + rel == ps[i];
    assert rel == [] ==> src + rel == src;
    assert rel[0] == ps[i][|src|];
    ResolvePlain(dest, rel);
    assert Under(dest, dest + rel);
  }

  /** No earlier entry makes the image of a later one. */
  lemma {:induction false} MadeOnce(
    a: Tree, src: Path, es: seq<Entry>, ps: seq<Path>, t: Tree, dest: Path, j: nat, p: Path)
    requires Ready(a, src, es, ps, t, dest) && j < |es|
    requires Under(dest, p) && p != dest && Makes(es[j], dest, p)
    ensures Imaged(a, src, dest, p) && Under(Source(src, dest, p), ps[j])
  {
    TargetOf(a, src, es, ps, t, dest, j);
    var q := Target(dest, es[j].name);
    assert Under(p, q);
    assert q[|dest|..] == ps[j][|src|..];
    assert p == q[..|p|];
    var s := Source(src, dest, p);
    assert s == ps[j][..|s|];
    assert Under(s, ps[j]);
    if s != ps[j] { PrefixesAreDirs(a, ps[j]); }
  }

  lemma {:induction false} Distinct(
    a: Tree, src: Path, es: seq<Entry>, ps: seq<Path>, t: Tree, dest: Path, i: nat, j: nat)
    requires Ready(a, src, es, ps, t, dest) && i < |es| && j < |es| && i != j
    ensures Target(dest, es[j].name) != dest + ps[i][|src|..]
    ensures j < i ==> !Makes(es[j], dest, dest + ps[i][|src|..])
  {
    var p := dest + ps[i][|src|..];
    TargetOf(a, src, es, ps, t, dest, i);
    TargetOf(a, src, es, ps, t, dest, j);
    assert Source(src, dest, p) == ps[i];
    assert Under(ps[i], ps[i]) && Under(ps[j], ps[j]);
    if j < i && Makes(es[j], dest, p) { MadeOnce(a, src, es, ps, t, dest, j, p); }
  }

  /** Nothing in the archive is about a path that is no image. */
  lemma {:induction false} NotAbout(
    a: Tree, src: Path, es: seq<Entry>, ps: seq<Path>, t: Tree, dest: Path, j: nat, p: Path)
    requires Ready(a, src, es, ps, t, dest) && j < |es| && !Imaged(a, src, dest, p)
    ensures Target(dest, es[j].name) != p
    ensures p !in t ==> !Makes(es[j], dest, p)
  {
    TargetOf(a, src, es, ps, t, dest, j);
    if p !in t && Makes(es[j], dest, p) {
      PrefixesAreDirs(t, dest);
      var q := Target(dest, es[j].name);
      assert Under(p, q) && Under(dest, q);
      assert |p| <= |dest| ==> Under(p, dest);
      assert |p| > |dest| ==> Under(dest, p);
      MadeOnce(a, src, es, ps, t, dest, j, p);
    }
  }

  /** Where the first entry is also the last, an archive means what that entry says. */
  lemma {:induction false} MeaningOfOne(
    t: Tree, es: seq<Entry>, dest: Path, umask: Mode, p: Path, n: Node, name: seq<string>)
    requires !n.Special? && LastFor(es, dest, p) == Some(EntryOf(n, name))
    requires FirstFor(es, dest, p) == Some(EntryOf(n, name))
    ensures Want(t, es, dest, umask, p) == Some(CopyOf(t, n, p, umask))
  {}

  /** What an archive means at the image of something archived. */
  lemma {:induction false} MeaningOfImage(
    a: Tree, src: Path, es: seq<Entry>, ps: seq<Path>, t: Tree, dest: Path, umask: Mode, i: nat)
    requires Ready(a, src, es, ps, t, dest) && i < |es|
    ensures var p := dest + ps[i][|src|..];
      && Want(t, es, dest, umask, p) == Some(CopyOf(t, a[ps[i]], p, umask)) && LastFor(es, dest, p).Some?
  {
    OnlyEntry(a, src, es, ps, t, dest, i);
    MeaningOfOne(t, es, dest, umask, dest + ps[i][|src|..], a[ps[i]], ps[i][|src|..]);
  }

  /** Only one entry is about an image. */
  lemma {:induction false} OnlyEntry(
    a: Tree, src: Path, es: seq<Entry>, ps: seq<Path>, t: Tree, dest: Path, i: nat)
    requires Ready(a, src, es, ps, t, dest) && i < |es|
    ensures LastFor(es, dest, dest + ps[i][|src|..]) == Some(es[i])
    ensures FirstFor(es, dest, dest + ps[i][|src|..]) == Some(es[i])
  {
    var p := dest + ps[i][|src|..];
    TargetOf(a, src, es, ps, t, dest, i);
    forall j: nat | j < |es| && j != i
      ensures Target(dest, es[j].name) != p && (j < i ==> !Makes(es[j], dest, p))
    {
      Distinct(a, src, es, ps, t, dest, i, j);
    }
    LastIs(es, dest, p, i);
    FirstIs(es, dest, p, i);
  }

  /** And at any other path. */
  lemma {:induction false} MeaningElsewhere(
    a: Tree, src: Path, es: seq<Entry>, ps: seq<Path>, t: Tree, dest: Path, umask: Mode, p: Path)
    requires Ready(a, src, es, ps, t, dest) && !Imaged(a, src, dest, p)
    ensures Want(t, es, dest, umask, p) == (if p in t then Some(t[p]) else None) && LastFor(es, dest, p).None?
  {
    forall j: nat | j < |es| ensures Target(dest, es[j].name) != p && (p !in t ==> !Makes(es[j], dest, p)) {
      NotAbout(a, src, es, ps, t, dest, j, p);
    }
    NoLast(es, dest, p);
    if p !in t { NoFirst(es, dest, p); }
  }

  /** The meaning of an archive of a directory, in closed form: it does not depend on the order of its entries. */
  lemma {:induction false} ArchiveMeaning(
    a: Tree, src: Path, es: seq<Entry>, ps: seq<Path>, t: Tree, dest: Path, umask: Mode, p: Path)
    requires Ready(a, src, es, ps, t, dest)
    ensures Want(t, es, dest, umask, p) == Image(a, src, t, dest, umask, p)
    ensures LastFor(es, dest, p).Some? <==> Imaged(a, src, dest, p)
  {
    if Imaged(a, src, dest, p) {
      var s := Source(src, dest, p);
      assert Under(src, s) && s != src;
      assert s in ps;
      var i: nat :| i < |ps| && ps[i] == s;
      assert dest + s[|src|..] == p;
      MeaningOfImage(a, src, es, ps, t, dest, umask, i);
    } else {
      MeaningElsewhere(a, src, es, ps, t, dest, umask, p);
    }
  }

  // ----- when the archive can be extracted -----

  /** No path in dest would have to change its kind. */
  ghost predicate Unobstructed(a: Tree, src: Path, t: Tree, dest: Path) {
    forall p | p in t && Imaged(a, src, dest, p) :: SameKind(t[p], a[Source(src, dest, p)])
  }

  lemma {:induction false} EntryAmong(es: seq<Entry>, i: nat, e: Entry)
    requires i <= |es| && e in es[..i]
    ensures exists j: nat :: j < i && es[j] == e
  {}

  lemma {:induction false} FirstIsAmong(es: seq<Entry>, dest: Path, p: Path)
    ensures FirstFor(es, dest, p).Some? ==> FirstFor(es, dest, p).value in es
    ensures FirstFor(es, dest, p).Some? ==> Makes(FirstFor(es, dest, p).value, dest, p)
  {
    if es != [] { FirstIsAmong(es[..|es| - 1], dest, p); }
  }

  predicate OfKind(n: Node, k: Kind) { (k.Directory? && n.Dir?) || (k.Regular? && n.File?) }

  /** The last entry for q among the first i has the kind of what q is the image of. */
  lemma {:induction false} PrefixLast(
    a: Tree, src: Path, es: seq<Entry>, ps: seq<Path>, t: Tree, dest: Path, i: nat, q: Path)
    requires Ready(a, src, es, ps, t, dest) && i <= |es| && LastFor(es[..i], dest, q).Some?
    ensures Imaged(a, src, dest, q) && OfKind(a[Source(src, dest, q)], LastFor(es[..i], dest, q).value.kind)
  {
    LastHasFirst(es[..i], dest, q);
    EntryAmong(es, i, LastFor(es[..i], dest, q).value);
    var j: nat :| j < i && es[j] == LastFor(es[..i], dest, q).value;
    TargetOf(a, src, es, ps, t, dest, j);
  }

  /** Without an entry for q among them, one of the first i may have made q, as a directory. */
  lemma {:induction false} PrefixMade(
    a: Tree, src: Path, es: seq<Entry>, ps: seq<Path>, t: Tree, dest: Path, i: nat, q: Path)
    requires Ready(a, src, es, ps, t, dest) && i <= |es| && q !in t
    requires LastFor(es[..i], dest, q).None? && FirstFor(es[..i], dest, q).Some?
    ensures Imaged(a, src, dest, q) && a[Source(src, dest, q)].Dir?
  {
    FirstIsAmong(es[..i], dest, q);
    EntryAmong(es, i, FirstFor(es[..i], dest, q).value);
    var j: nat :| j < i && es[j] == FirstFor(es[..i], dest, q).value;
    MakesImage(a, src, es, ps, t, dest, j, q);
    MissesAll(es[..i], dest, q, j);
  }

  /** What is there after the first i entries was there before, or has the kind of what it is the image of. */
  lemma {:induction false} PrefixKind(
    a: Tree, src: Path, es: seq<Entry>, ps: seq<Path>, t: Tree, dest: Path, umask: Mode, i: nat, q: Path)
    requires Ready(a, src, es, ps, t, dest) && i <= |es|
    ensures var w := Want(t, es[..i], dest, umask, q);
      w.Some? ==> (q in t && w.value == t[q]) || (Imaged(a, src, dest, q) && SameKind(w.value, a[Source(src, dest, q)]))
  {
    if LastFor(es[..i], dest, q).Some? {
      PrefixLast(a, src, es, ps, t, dest, i, q);
    } else if q !in t && FirstFor(es[..i], dest, q).Some? {
      PrefixMade(a, src, es, ps, t, dest, i, q);
    }
  }

  /** A path that an entry makes and that was not there is an image; if it is not the target itself, of a directory. */
  lemma {:induction false} MakesImage(
    a: Tree, src: Path, es: seq<Entry>, ps: seq<Path>, t: Tree, dest: Path, j: nat, q: Path)
    requires Ready(a, src, es, ps, t, dest) && j < |es| && q !in t && Makes(es[j], dest, q)
    ensures Imaged(a, src, dest, q) && Under(Source(src, dest, q), ps[j])
    ensures es[j].kind.Directory? ==> a[Source(src, dest, q)].Dir?
  {
    if !Imaged(a, src, dest, q) { NotAbout(a, src, es, ps, t, dest, j, q); }
    MadeOnce(a, src, es, ps, t, dest, j, q);
    PrefixesAreDirs(a, ps[j]);
  }

  /** What lies between dest and the target of an entry is the image of what lies between src and its path. */
  lemma {:induction false} OnTheWay(
    a: Tree, src: Path, es: seq<Entry>, ps: seq<Path>, t: Tree, dest: Path, i: nat, q: Path)
    requires Ready(a, src, es, ps, t, dest) && i < |es| && Under(q, Target(dest, es[i].name))
    ensures Under(q, dest) || (Imaged(a, src, dest, q) && Under(Source(src, dest, q), ps[i]))
  {
    TargetOf(a, src, es, ps, t, dest, i);
    var p := Target(dest, es[i].name);
    assert q == p[..|q|];
    if |q| <= |dest| {
      assert Under(q, dest);
    } else {
      assert Under(dest, q);
      var s := Source(src, dest, q);
      assert s == ps[i][..|s|];
      assert Under(s, ps[i]);
      PrefixesAreDirs(a, ps[i]);
    }
  }

  lemma {:induction false} DirectoryFits(
    a: Tree, src: Path, es: seq<Entry>, ps: seq<Path>, t: Tree, dest: Path, umask: Mode, i: nat)
    requires Ready(a, src, es, ps, t, dest) && Unobstructed(a, src, t, dest) && i < |es| && a[ps[i]].Dir?
    ensures Fits(t, es[..i], dest, umask, es[i])
  {
    forall q | Under(q, Target(dest, es[i].name)) && Want(t, es[..i], dest, umask, q).Some?
      ensures Want(t, es[..i], dest, umask, q).value.Dir?
    {
      PrefixKind(a, src, es, ps, t, dest, umask, i, q);
      OnTheWay(a, src, es, ps, t, dest, i, q);
      PrefixesAreDirs(t, dest);
      PrefixesAreDirs(a, ps[i]);
      if Under(q, dest) { assert !Imaged(a, src, dest, q); }
    }
  }

  /** The parent of an archived path comes before it. */
  lemma {:induction false} ParentFirst(
    a: Tree, src: Path, es: seq<Entry>, ps: seq<Path>, t: Tree, dest: Path, i: nat)
    requires Ready(a, src, es, ps, t, dest) && i < |es| && ps[i] != [] && Parent(ps[i]) != src
    ensures exists j: nat :: j < i && ps[j] == Parent(ps[i])
  {
    var s := Parent(ps[i]);
    assert Under(src, s);
    assert s in ps;
    var j: nat :| j < |ps| && ps[j] == s;
    assert Under(ps[j], ps[i]);
  }

  lemma {:induction false} ParentImage(src: Path, dest: Path, q: Path)
    requires Under(src, q) && q != src
    ensures Parent(dest + q[|src|..]) == dest + Parent(q)[|src|..]
  {}

  lemma {:induction false} FileFitsIn(
    a: Tree, src: Path, es: seq<Entry>, ps: seq<Path>, t: Tree, dest: Path, umask: Mode, i: nat)
    requires Ready(a, src, es, ps, t, dest) && Unobstructed(a, src, t, dest) && i < |es| && a[ps[i]].File?
    ensures Fits(t, es[..i], dest, umask, es[i])
  {
    TargetOf(a, src, es, ps, t, dest, i);
    var p := Target(dest, es[i].name);
    PrefixKind(a, src, es, ps, t, dest, umask, i, p);
    PrefixKind(a, src, es, ps, t, dest, umask, i, Parent(p));
    if Parent(ps[i]) == src {
      assert Parent(p) == dest;
    } else {
      ParentFirst(a, src, es, ps, t, dest, i);
      var j: nat :| j < i && ps[j] == Parent(ps[i]);
      TargetOf(a, src, es, ps, t, dest, j);
      ParentImage(src, dest, ps[i]);
      if LastFor(es[..i], dest, Parent(p)).None? { MissesAll(es[..i], dest, Parent(p), j); }
    }
  }

  lemma {:induction false} MissesAll(es: seq<Entry>, dest: Path, p: Path, j: nat)
    requires j < |es| && LastFor(es, dest, p).None?
    ensures Target(dest, es[j].name) != p
  {
    if j < |es| - 1 { MissesAll(es[..|es| - 1], dest, p, j); }
  }

  lemma {:induction false} PrefixFits(
    a: Tree, src: Path, es: seq<Entry>, ps: seq<Path>, t: Tree, dest: Path, umask: Mode, i: nat)
    requires Ready(a, src, es, ps, t, dest) && Unobstructed(a, src, t, dest) && i <= |es|
    ensures AllFit(t, es[..i], dest, umask)
  {
    if i > 0 {
      PrefixFits(a, src, es, ps, t, dest, umask, i - 1);
      if a[ps[i - 1]].Dir? {
        DirectoryFits(a, src, es, ps, t, dest, umask, i - 1);
      } else {
        FileFitsIn(a, src, es, ps, t, dest, umask, i - 1);
      }
      TakeSnoc(es, i);
      AllFitMore(t, es[..i - 1], dest, umask, es[i - 1]);
    }
  }

  /** An entry cannot be extracted onto something of another kind. */
  lemma {:induction false} Obstructed(
    a: Tree, src: Path, es: seq<Entry>, ps: seq<Path>, t: Tree, dest: Path, umask: Mode, i: nat)
    requires Ready(a, src, es, ps, t, dest) && i < |es|
    requires var p := Target(dest, es[i].name); p in t && !SameKind(t[p], a[ps[i]])
    ensures !Fits(t, es[..i], dest, umask, es[i])
  {
    TargetOf(a, src, es, ps, t, dest, i);
    var p := Target(dest, es[i].name);
    forall j: nat | j < i ensures Target(dest, es[..i][j].name) != p {
      Distinct(a, src, es, ps, t, dest, i, j);
    }
    NoLast(es[..i], dest, p);
    assert Under(p, p);
  }

  lemma {:induction false} ObstructedSomewhere(
    a: Tree, src: Path, es: seq<Entry>, ps: seq<Path>, t: Tree, dest: Path, umask: Mode, p: Path)
    requires Ready(a, src, es, ps, t, dest)
    requires p in t && Imaged(a, src, dest, p) && !SameKind(t[p], a[Source(src, dest, p)])
    ensures !AllFit(t, es, dest, umask)
  {
    var s := Source(src, dest, p);
    assert Under(src, s) && s != src && s in ps;
    var i: nat :| i < |ps| && ps[i] == s;
    TargetOf(a, src, es, ps, t, dest, i);
    assert dest + s[|src|..] == p;
    Obstructed(a, src, es, ps, t, dest, umask, i);
    MisfitStops(t, es, dest, umask, i);
  }

  /** An archive of a directory can be extracted into dest exactly if no path would have to change its kind. */
  lemma {:induction false} FitsIffUnobstructed(
    a: Tree, src: Path, es: seq<Entry>, ps: seq<Path>, t: Tree, dest: Path, umask: Mode)
    requires Ready(a, src, es, ps, t, dest)
    ensures AllFit(t, es, dest, umask) <==> Unobstructed(a, src, t, dest)
  {
    if Unobstructed(a, src, t, dest) {
      PrefixFits(a, src, es, ps, t, dest, umask, |es|);
      assert es[..|es|] == es;
    } else {
      var p :| p in t && Imaged(a, src, dest, p) && !SameKind(t[p], a[Source(src, dest, p)]);
      ObstructedSomewhere(a, src, es, ps, t, dest, umask, p);
    }
  }

  // ----- what is rebuilt -----

  /** dest has nothing in it. */
  ghost predicate Vacant(t: Tree, dest: Path) { forall p | p in t && Under(dest, p) :: p == dest }

  function WithMode(n: Node, mode: Mode): Node { if n.Special? then n else n.(mode := mode) }

  /** dest holds, in u, exactly what src holds in a; with the umask taken off the modes. */
  ghost predicate Rebuilt(a: Tree, src: Path, u: Tree, dest: Path, umask: Mode) {
    && (forall p | Under(dest, p) && p != dest :: p in u <==> Source(src, dest, p) in a)
    && (forall p | Imaged(a, src, dest, p) ::
          p in u && u[p] == WithMode(a[Source(src, dest, p)], Masked(NodeMode(a[Source(src, dest, p)]), umask)))
  }

  /** dest holds exactly what src holds, modes included. */
  ghost predicate Identical(a: Tree, src: Path, u: Tree, dest: Path) {
    && (forall p | Under(dest, p) && p != dest :: p in u <==> Source(src, dest, p) in a)
    && (forall p | Imaged(a, src, dest, p) :: p in u && u[p] == a[Source(src, dest, p)])
  }

  /** The umask clears nothing of any mode below src. */
  ghost predicate Unmasked(a: Tree, src: Path, umask: Mode) {
    forall s | s in a && Under(src, s) && s != src :: Masked(NodeMode(a[s]), umask) == NodeMode(a[s])
  }

  /**
   * Outside dest nothing changes at all, and dest itself changes at most its time, and that only if it got an entry.
   */
  ghost predicate OnlyInside(t: Tree, u: Tree, dest: Path) {
    && (forall p | !Under(dest, p) :: (p in u <==> p in t) && (p in t ==> u[p] == t[p]))
    && dest in t && dest in u && Kept(t[dest], u[dest])
    && ((forall p | p in u && Under(dest, p) :: p in t) ==> u[dest] == t[dest])
  }

  /** What extraction makes of every single path. */
  lemma {:induction false} ExtractedAt(
    a: Tree, src: Path, es: seq<Entry>, ps: seq<Path>, t: Tree, u: Tree, dest: Path, umask: Mode, p: Path)
    requires Ready(a, src, es, ps, t, dest) && Extracted(t, u, es, dest, umask)
    ensures if Imaged(a, src, dest, p) then p in u && u[p] == CopyOf(t, a[Source(src, dest, p)], p, umask)
      else if p in t then p in u && Kept(t[p], u[p]) else p !in u
    ensures !Imaged(a, src, dest, p) && p in t && u[p] != t[p] ==> p == dest
    ensures !Imaged(a, src, dest, p) && p in t && u[p] != t[p] ==> exists q :: q in u && q !in t && Under(dest, q)
  {
    ArchiveMeaning(a, src, es, ps, t, dest, umask, p);
    assert Agrees(u, p, Want(t, es, dest, umask, p));
    if !Imaged(a, src, dest, p) && p in t && u[p] != t[p] {
      assert p !in Headed(es, dest);
      var n :| p + [n] in u && p + [n] !in t;
      ArchiveMeaning(a, src, es, ps, t, dest, umask, p + [n]);
      assert Agrees(u, p + [n], Want(t, es, dest, umask, p + [n]));
      assert Imaged(a, src, dest, p + [n]);
      ImagedParent(a, src, dest, p, n);
    }
  }

  /** The parent of an image is an image too, or dest. */
  lemma {:induction false} ImagedParent(a: Tree, src: Path, dest: Path, p: Path, n: string)
    requires WellFormed(a) && Imaged(a, src, dest, p + [n])
    ensures p == dest || Imaged(a, src, dest, p)
    ensures Under(dest, p + [n])
  {
    if |p| == |dest| {
      assert p == dest;
    } else {
      assert Under(dest, p);
      var s := Source(src, dest, p + [n]);
      assert Parent(s) == Source(src, dest, p);
    }
  }

  lemma {:induction false} OnlyInsideExtracted(
    a: Tree, src: Path, es: seq<Entry>, ps: seq<Path>, t: Tree, u: Tree, dest: Path, umask: Mode)
    requires Ready(a, src, es, ps, t, dest) && Extracted(t, u, es, dest, umask)
    ensures OnlyInside(t, u, dest)
  {
    forall p | !Under(dest, p) ensures (p in u <==> p in t) && (p in t ==> u[p] == t[p]) {
      ExtractedAt(a, src, es, ps, t, u, dest, umask, p);
    }
    assert Under(dest, dest);
    ExtractedAt(a, src, es, ps, t, u, dest, umask, dest);
  }

  /**
   * Extracting an archive of src into an empty directory rebuilds src there: the same paths, kinds, contents
   * and times whatever the umask, the same modes exactly if the umask clears nothing, and nothing else changes.
   */
  lemma {:induction false} ExtractionRebuilds(
    a: Tree, src: Path, es: seq<Entry>, ps: seq<Path>, t: Tree, u: Tree, dest: Path, umask: Mode)
    requires Ready(a, src, es, ps, t, dest) && Vacant(t, dest) && Extracted(t, u, es, dest, umask)
    ensures Rebuilt(a, src, u, dest, umask) && OnlyInside(t, u, dest)
    ensures Identical(a, src, u, dest) <==> Unmasked(a, src, umask)
  {
    OnlyInsideExtracted(a, src, es, ps, t, u, dest, umask);
    forall p | Under(dest, p) && p != dest
      ensures p in u <==> Source(src, dest, p) in a
      ensures p in u ==> u[p] == WithMode(a[Source(src, dest, p)], Masked(NodeMode(a[Source(src, dest, p)]), umask))
    {
      ExtractedAt(a, src, es, ps, t, u, dest, umask, p);
      assert Source(src, dest, p) in a ==> Under(src, Source(src, dest, p)) && Source(src, dest, p) != src;
    }
    RebuiltIdentical(a, src, u, dest, umask);
  }

  lemma {:induction false} RebuiltIdentical(a: Tree, src: Path, u: Tree, dest: Path, umask: Mode)
    requires NoSpecialBelow(a, src) && Rebuilt(a, src, u, dest, umask)
    ensures Identical(a, src, u, dest) <==> Unmasked(a, src, umask)
  {
    forall p | Imaged(a, src, dest, p)
      ensures Under(src, Source(src, dest, p)) && Source(src, dest, p) != src
    {}
    if Identical(a, src, u, dest) {
      forall s | s in a && Under(src, s) && s != src ensures Masked(NodeMode(a[s]), umask) == NodeMode(a[s]) {
        var p := dest + s[|src|..];
        assert Source(src, dest, p) == s;
        assert Imaged(a, src, dest, p);
      }
    }
  }

  /** An ordinary umask does clear bits: a file that group and others may write is not restored as it was. */
  lemma {:induction false} UmaskMatters()
    ensures var a: Tree := map[[] := Dir(0x1ED, 0), ["file"] := File(0x1B6, 0, Nothing)];
      WellFormed(a) && NoSpecialBelow(a, []) && !Unmasked(a, [], 0x012)
  {
    var a: Tree := map[[] := Dir(0x1ED, 0), ["file"] := File(0x1B6, 0, Nothing)];
    assert Masked(0x1B6, 0x012) != 0x1B6;
    assert Plain("file") && PlainPath(["file"]);
    assert ["file"] in a && Under([], ["file"]) && NodeMode(a[["file"]]) == 0x1B6;
  }

  /** CopyDir changes the same paths, and makes the same of them. */
  lemma {:induction false} CopiedAt(
    t: Tree, u: Tree, src: Path, dest: Path, umask: Mode, p: Path)
    requires WellFormed(t) && dest in t && t[dest].Dir? && Copied(t, u, src, dest, AllNames, umask)
    ensures if Imaged(t, src, dest, p) then p in u && u[p] == CopyOf(t, t[Source(src, dest, p)], p, umask)
      else if p in t then p in u && Kept(t[p], u[p]) else p !in u
    ensures !Imaged(t, src, dest, p) && p in t && u[p] != t[p] ==> p == dest
  {
    assert CopyAt(t, u, src, dest, AllNames, umask, p);
    PrefixesAreDirs(t, dest);
    assert Imaged(t, src, dest, p) <==> Copies(t, src, dest, AllNames, p);
    if !Imaged(t, src, dest, p) && p in t && u[p] != t[p] {
      var n :| p + [n] in u && p + [n] !in t;
      assert CopyAt(t, u, src, dest, AllNames, umask, p + [n]);
      assert Imaged(t, src, dest, p + [n]);
      ImagedParent(t, src, dest, p, n);
    }
  }

  /**
   * Copying a directory and extracting an archive of it are the same: from the same tree, over any
   * destination apart from the source, the two leave the same tree up to the time of dest itself.
   */
  lemma {:induction false} CopyIsExtraction(
    t: Tree, src: Path, es: seq<Entry>, ps: seq<Path>, dest: Path, umask: Mode, copied: Tree, extracted: Tree)
    requires Ready(t, src, es, ps, t, dest)
    requires Copied(t, copied, src, dest, AllNames, umask)
    requires Extracted(t, extracted, es, dest, umask)
    ensures dest in copied && dest in extracted && Kept(copied[dest], extracted[dest])
    ensures copied[dest := extracted[dest]] == extracted
  {
    forall p
      ensures p in copied <==> p in extracted
      ensures p in copied ==> Kept(copied[p], extracted[p])
      ensures p in copied && p != dest ==> copied[p] == extracted[p]
    {
      CopiedAt(t, copied, src, dest, umask, p);
      ExtractedAt(t, src, es, ps, t, extracted, dest, umask, p);
    }
    CopiedAt(t, copied, src, dest, umask, dest);
  }

  /** Both need the same of dest: nothing in it may have to change its kind. */
  lemma {:induction false} SameDemand(t: Tree, src: Path, es: seq<Entry>, ps: seq<Path>, dest: Path, umask: Mode)
    requires Ready(t, src, es, ps, t, dest) && src in t && t[src].Dir?
    ensures Compatible(t, src, dest) <==> AllFit(t, es, dest, umask)
  {
    FitsIffUnobstructed(t, src, es, ps, t, dest, umask);
    forall p ensures Imaged(t, src, dest, p) <==> Copies(t, src, dest, AllNames, p) {}
  }

  /** Creating an archive on one disk and extracting it on another, as the stages of a build do. */
  method Transfer(from: Disk, src: Path, to: Disk, dest: Path) returns (ok: bool)
    requires WellFormed(from.tree) && WellFormed(to.tree) && dest in to.tree && to.tree[dest].Dir?
    requires Vacant(to.tree, dest)
    modifies to`tree
    ensures WellFormed(to.tree)
    ensures ok ==> Rebuilt(old(from.tree), src, to.tree, dest, to.umask) && OnlyInside(old(to.tree), to.tree, dest)
    ensures ok ==> (Identical(old(from.tree), src, to.tree, dest) <==> Unmasked(old(from.tree), src, to.umask))
    ensures from.reliable && to.reliable && src in old(from.tree) && NoSpecialBelow(old(from.tree), src) ==> ok
  {
    ghost var a, t := from.tree, to.tree;
    var es;
    ghost var ps;
    ok, es, ps := CreateTar(from, src);
    if !ok { return; }
    FitsIffUnobstructed(a, src, es, ps, t, dest, to.umask);
    ok := ExtractTar(to, es, false, dest);
    if ok { ExtractionRebuilds(a, src, es, ps, t, to.tree, dest, to.umask); }
  }
}
