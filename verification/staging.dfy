/** What the commands share: classifying a package, archiving into a file, and staging directories. */
module Staging {
  import opened Common
  import opened FileSystem
  import opened Archive

  const MetadataJson: string := "metadata.json"

  // ----- classification -----

  datatype Verdict = External | Internal | Unreadable

  /** What IsExternalCC decides; typeOf is the "type" in the JSON of a file, None if it is no such JSON. */
  function VerdictOn(t: Tree, dir: Path, typeOf: Content -> Option<string>): Verdict {
    var p := dir + [MetadataJson];
    if p in t && t[p].File? then
      match typeOf(t[p].content)
      case None => Unreadable
      case Some(ccType) => if Lower(ccType) == "external" then External else Internal
    else Internal
  }

  /** The verdict, by the letters of the type. */
  lemma {:induction false} VerdictByType(t: Tree, dir: Path, typeOf: Content -> Option<string>)
    ensures var p := dir + [MetadataJson];
      VerdictOn(t, dir, typeOf) ==
      if !(p in t && t[p].File?) then Internal
      else if typeOf(t[p].content).None? then Unreadable
      else if Spells(typeOf(t[p].content).value, "external") then External
      else Internal
  {
    var p := dir + [MetadataJson];
    if p in t && t[p].File? && typeOf(t[p].content).Some? { LowerSpells(typeOf(t[p].content).value, "external"); }
  }

  /** "External" and "EXTERNAL" are external too. */
  lemma {:induction false} ExternalInCapitals()
    ensures Lower("External") == "external" && Lower("EXTERNAL") == "external"
  {
    LowerSpells("External", "external");
    LowerSpells("EXTERNAL", "external");
  }

  /** IsExternalCC: a file that cannot be read counts like one that is not there. */
  method IsExternalCC(disk: Disk, dir: Path, typeOf: Content -> Option<string>) returns (v: Verdict)
    ensures v == VerdictOn(disk.tree, dir, typeOf) || (v == Internal && !disk.reliable)
    ensures var p := dir + [MetadataJson];
      var there := p in disk.tree && disk.tree[p].File?;
      && (v == Unreadable ==> there && typeOf(disk.tree[p].content).None?)
      && (v == External ==> there && exists t :: typeOf(disk.tree[p].content) == Some(t) && Spells(t, "external"))
      && (disk.reliable && there && typeOf(disk.tree[p].content).None? ==> v == Unreadable)
      && (disk.reliable && there ==>
            forall t | typeOf(disk.tree[p].content) == Some(t) ::
              v == if Spells(t, "external") then External else Internal)
  {
    VerdictByType(disk.tree, dir, typeOf);
    var p := dir + [MetadataJson];
    var ok := p in disk.tree && disk.tree[p].File?;
    if ok && !disk.reliable { ok := *; }
    if !ok { return Internal; }
    match typeOf(disk.tree[p].content) {
      case None => v := Unreadable;
      case Some(ccType) => v := if Lower(ccType) == "external" then External else Internal;
    }
  }

  // ----- archives in files -----

  /** c is an archive of src as it is in t. */
  ghost predicate ArchiveOf(t: Tree, src: Path, c: Content) {
    c.Tar? && src in t && NoSpecialBelow(t, src) && exists ps :: IsArchive(t, src, c.entries, ps)
  }

  /** Nothing at or below src differs. */
  ghost predicate SameBelow(t: Tree, u: Tree, src: Path) {
    forall q | Under(src, q) :: (q in u <==> q in t) && (q in t ==> u[q] == t[q])
  }

  lemma {:induction false} ArchiveMoves(t: Tree, u: Tree, src: Path, c: Content)
    requires SameBelow(t, u, src) && ArchiveOf(t, src, c)
    ensures ArchiveOf(u, src, c)
  {
    assert Under(src, src);
    var ps :| IsArchive(t, src, c.entries, ps);
    forall q ensures q in ps <==> q in u && Under(src, q) && q != src {
      assert q in ps <==> q in t && Under(src, q) && q != src;
    }
    assert IsArchive(u, src, c.entries, ps);
  }

  lemma {:induction false} PlacedChanges(t: Tree, u: Tree, p: Path)
    requires p != [] && KeptOutside(t, u, iset{p}) && Quiet(t, u, iset{})
    ensures SameBut(t, u, iset{p, Parent(p)})
    ensures Parent(p) in t && t[Parent(p)].Dir? ==> Parent(p) in u && Kept(t[Parent(p)], u[Parent(p)])
  {}

  /** A file at p was added or rewritten in a directory that was there. */
  ghost predicate Rewritten(t: Tree, u: Tree, p: Path) {
    && p != [] && SameBut(t, u, iset{p, Parent(p)})
    && Parent(p) in t && Parent(p) in u && t[Parent(p)].Dir? && Kept(t[Parent(p)], u[Parent(p)])
    && (p in t ==> p in u)
  }

  lemma {:induction false} RewrittenElsewhere(t: Tree, u: Tree, p: Path, src: Path)
    requires Rewritten(t, u, p) && !Under(src, p)
    ensures SameBelow(t, u, src) && SameBelow(u, t, src) && (src in t <==> src in u)
    ensures NoSpecialBelow(t, src) <==> NoSpecialBelow(u, src)
  {}

  /** The two writes to a new archive. */
  lemma {:induction false} ArchiveLands(t: Tree, u: Tree, p: Path, src: Path, es: seq<Entry>, ps: seq<Path>)
    requires Rewritten(t, u, p) && !Under(src, p)
    requires src in u && IsArchive(u, src, es, ps) && NoSpecialBelow(u, src)
    ensures ArchiveOf(t, src, Tar(es))
  {
    RewrittenElsewhere(t, u, p, src);
    assert IsArchive(u, src, Tar(es).entries, ps);
    ArchiveMoves(u, t, src, Tar(es));
  }

  /** A file that was there keeps its mode. */
  function ModeAt(t: Tree, p: Path, mode: Mode, umask: Mode): Mode {
    if p in t && t[p].File? then t[p].mode else Masked(mode, umask)
  }

  /** What createTar needs to succeed. */
  ghost predicate Archivable(t: Tree, target: Path, source: Path) {
    Openable(t, target) && !Under(source, target) && source in t && NoSpecialBelow(t, source)
  }

  /** The first half of createTar: an empty file for the archive. */
  method OpenTarget(disk: Disk, target: Path) returns (ok: bool)
    requires WellFormed(disk.tree) && PlainPath(target) && target != []
    requires Parent(target) in disk.tree && disk.tree[Parent(target)].Dir?
    modifies disk`tree
    ensures WellFormed(disk.tree) && Rewritten(old(disk.tree), disk.tree, target)
    ensures ok ==> target in disk.tree && disk.tree[target].File?
    ensures ok ==> disk.tree[target].mode == ModeAt(old(disk.tree), target, 0x1B6, disk.umask)
    ensures disk.reliable && Openable(old(disk.tree), target) ==> ok
  {
    ghost var t := disk.tree;
    PrefixesAreDirs(t, Parent(target));
    ok := disk.MkdirAll(Parent(target), 0x1ED);
    if !ok { return; }
    ok := disk.OpenTruncated(target, 0x1B6);
    PlacedChanges(t, disk.tree, target);
  }

  /**
   * createTar, into a directory that is there: the file becomes an archive of source as it was, unless it lies
   * in source itself. The file is opened before the source is looked at, so a failure may leave it empty.
   */
  method CreateTarFile(disk: Disk, target: Path, source: Path) returns (ok: bool)
    requires WellFormed(disk.tree) && PlainPath(target) && target != []
    requires Parent(target) in disk.tree && disk.tree[Parent(target)].Dir?
    modifies disk`tree
    ensures WellFormed(disk.tree) && Rewritten(old(disk.tree), disk.tree, target)
    ensures ok ==> target in disk.tree && disk.tree[target].File?
    ensures ok ==> disk.tree[target].mode == ModeAt(old(disk.tree), target, 0x1B6, disk.umask)
    ensures ok && !Under(source, target) ==> ArchiveOf(old(disk.tree), source, disk.tree[target].content)
    ensures disk.reliable && Archivable(old(disk.tree), target, source) ==> ok
  {
    ghost var t := disk.tree;
    ok := OpenTarget(disk, target);
    if !ok { return; }
    ghost var u := disk.tree;
    if !Under(source, target) { RewrittenElsewhere(t, u, target, source); }
    var es;
    ghost var ps;
    ok, es, ps := CreateTar(disk, source);
    if !ok { return; }
    ok := disk.Write(target, Tar(es));
    if ok && !Under(source, target) { ArchiveLands(t, u, target, source, es, ps); }
  }

  // ----- what the sidecar reads -----

  /** The contents of the first entry of that name. */
  function FirstNamed(es: seq<Entry>, name: seq<string>): Option<Content> {
    if es == [] then None
    else if es[0].name == name then Some(es[0].content)
    else FirstNamed(es[1..], name)
  }

  /** extractChaincodeMetadata, up to the decoding: the loop over the headers. */
  method FindMetadata(es: seq<Entry>) returns (found: Option<Content>)
    ensures found == FirstNamed(es, [MetadataJson])
  {
    var i := 0;
    while i < |es|
      invariant 0 <= i <= |es|
      invariant FirstNamed(es, [MetadataJson]) == FirstNamed(es[i..], [MetadataJson])
    {
      if es[i].name == [MetadataJson] { return Some(es[i].content); }
      i := i + 1;
    }
    return None;
  }

  lemma {:induction false} FirstNamedIs(es: seq<Entry>, name: seq<string>, i: nat)
    requires i < |es| && es[i].name == name
    requires forall j: nat | j < i :: es[j].name != name
    ensures FirstNamed(es, name) == Some(es[i].content)
  {
    if i > 0 { FirstNamedIs(es[1..], name, i - 1); }
  }

  lemma {:induction false} NoneNamed(es: seq<Entry>, name: seq<string>)
    requires forall j: nat | j < |es| :: es[j].name != name
    ensures FirstNamed(es, name) == None
  {
    if es != [] { NoneNamed(es[1..], name); }
  }

  lemma {:induction false} EntryNamed(t: Tree, dir: Path, es: seq<Entry>, ps: seq<Path>, n: string, i: nat)
    requires IsArchive(t, dir, es, ps) && NoSpecialBelow(t, dir) && i < |es| && n != ""
    ensures es[i].name == [n] <==> ps[i] == dir + [n] && t[ps[i]].File?
    ensures es[i].name == [n] ==> es[i].content == t[ps[i]].content
  {}

  /**
   * However deep and large the archived directory, looking for a plain name in the archive finds the file of that
   * name at its top, and nothing else.
   */
  lemma {:induction false} FoundIsFile(t: Tree, dir: Path, c: Content, n: string)
    requires ArchiveOf(t, dir, c) && n != ""
    ensures FirstNamed(c.entries, [n]) ==
      if dir + [n] in t && t[dir + [n]].File? then Some(t[dir + [n]].content) else None
  {
    var ps :| IsArchive(t, dir, c.entries, ps);
    FirstInArchive(t, dir, c.entries, ps, n);
  }

  lemma {:induction false} FirstInArchive(t: Tree, dir: Path, es: seq<Entry>, ps: seq<Path>, n: string)
    requires IsArchive(t, dir, es, ps) && NoSpecialBelow(t, dir) && n != ""
    ensures FirstNamed(es, [n]) ==
      if dir + [n] in t && t[dir + [n]].File? then Some(t[dir + [n]].content) else None
  {
    var p := dir + [n];
    assert Under(dir, p) && Under(p, p);
    forall i: nat | i < |es| ensures es[i].name == [n] <==> ps[i] == p && t[p].File? {
      EntryNamed(t, dir, es, ps, n, i);
    }
    if p in t && t[p].File? {
      assert p in ps;
      var i: nat :| i < |ps| && ps[i] == p;
      EntryNamed(t, dir, es, ps, n, i);
      FirstNamedIs(es, [n], i);
    } else {
      NoneNamed(es, [n]);
    }
  }

  // ----- staging directories -----

  /** dir holds exactly these files. */
  ghost predicate Holds(t: Tree, dir: Path, files: map<string, Content>) {
    && dir in t && t[dir].Dir?
    && (forall n :: dir + [n] in t <==> n in files)
    && (forall n | n in files :: t[dir + [n]].File? && t[dir + [n]].content == files[n])
  }

  lemma {:induction false} HoldsMore(t: Tree, u: Tree, dir: Path, files: map<string, Content>, n: string)
    requires Holds(t, dir, files) && Rewritten(t, u, dir + [n]) && dir + [n] in u && u[dir + [n]].File?
    ensures Holds(u, dir, files[n := u[dir + [n]].content])
  {}

  lemma {:induction false} NothingDeeper(t: Tree, dir: Path, files: map<string, Content>, q: Path)
    requires WellFormed(t) && Holds(t, dir, files) && q in t && Under(dir, q) && q != dir
    ensures |q| == |dir| + 1 && q == dir + [q[|dir|]]
  {
    var child := q[..|dir| + 1];
    assert child == dir + [q[|dir|]];
    assert Under(child, q);
    if child != q { PrefixesAreDirs(t, q); }
  }
}
