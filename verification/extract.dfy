/** Extracting an archive: what every path must become, and the two-pass method that achieves it. */
module Extract {
  import opened Common
  import opened FileSystem

  // ----- the meaning of an archive -----

  /** The last entry for p: it decides contents and time. */
  function LastFor(es: seq<Entry>, dest: Path, p: Path): Option<Entry> {
    if es == [] then None
    else
      var e := es[|es| - 1];
      if Target(dest, e.name) == p then Some(e) else LastFor(es[..|es| - 1], dest, p)
  }

  /** Extracting e creates p if it is missing: its target, or for a directory anything above it. */
  predicate Makes(e: Entry, dest: Path, p: Path) {
    Target(dest, e.name) == p || (e.kind.Directory? && Under(p, Target(dest, e.name)))
  }

  /** The first entry that makes p: it decides the mode of a path that was not there. */
  function FirstFor(es: seq<Entry>, dest: Path, p: Path): Option<Entry> {
    if es == [] then None
    else
      var before := FirstFor(es[..|es| - 1], dest, p);
      if before.Some? then before
      else if Makes(es[|es| - 1], dest, p) then Some(es[|es| - 1]) else None
  }

  function NodeMode(n: Node): Mode { if n.Special? then 0 else n.mode }

  /** A path that was there keeps its mode. */
  function ModeFor(t: Tree, es: seq<Entry>, dest: Path, umask: Mode, p: Path): Mode {
    if p in t then NodeMode(t[p])
    else
      match FirstFor(es, dest, p)
      case Some(e) => Masked(e.mode, umask)
      case None => 0
  }

  /**
   * What p is after extracting es over t. For a path with an entry this is exact; for a directory
   * without one, only the time is left open.
   */
  function Want(t: Tree, es: seq<Entry>, dest: Path, umask: Mode, p: Path): Option<Node> {
    var mode := ModeFor(t, es, dest, umask, p);
    match LastFor(es, dest, p)
    case Some(e) => Some(if e.kind.Directory? then Dir(mode, e.mtime) else File(mode, e.mtime, e.content))
    case None =>
      if p in t then Some(t[p])
      else if FirstFor(es, dest, p).Some? then Some(Dir(mode, 0))
      else None
  }

  /** u has at p what is wanted, up to the time of a directory. */
  predicate Agrees(u: Tree, p: Path, want: Option<Node>) {
    if want.None? then p !in u else p in u && Kept(want.value, u[p])
  }

  /** e can be extracted where es has been extracted already. */
  ghost predicate Fits(t: Tree, es: seq<Entry>, dest: Path, umask: Mode, e: Entry) {
    var p := Target(dest, e.name);
    match e.kind
    case Directory =>
      forall q | Under(q, p) && Want(t, es, dest, umask, q).Some? :: Want(t, es, dest, umask, q).value.Dir?
    case Regular =>
      && p != []
      && (var d := Want(t, es, dest, umask, Parent(p)); d.Some? && d.value.Dir?)
      && (var f := Want(t, es, dest, umask, p); f.Some? ==> f.value.File?)
    case OtherKind => false
  }

  /** Every entry fits after the ones before it. */
  ghost predicate AllFit(t: Tree, es: seq<Entry>, dest: Path, umask: Mode) {
    es == [] || (AllFit(t, es[..|es| - 1], dest, umask) && Fits(t, es[..|es| - 1], dest, umask, es[|es| - 1]))
  }

  /** The paths that have a directory entry. */
  ghost function Headed(es: seq<Entry>, dest: Path): iset<Path> {
    iset p | LastFor(es, dest, p).Some? && LastFor(es, dest, p).value.kind.Directory?
  }

  /**
   * u is t with es extracted: exact wherever there is an entry, and a directory without one is touched only if it got
   * a new entry.
   */
  ghost predicate Extracted(t: Tree, u: Tree, es: seq<Entry>, dest: Path, umask: Mode) {
    && (forall p :: Agrees(u, p, Want(t, es, dest, umask, p)))
    && (forall p | LastFor(es, dest, p).Some? :: p in u && Some(u[p]) == Want(t, es, dest, umask, p))
    && Quiet(t, u, Headed(es, dest))
  }

  // ----- lemmas about the meaning -----

  lemma {:induction false} Snoc(es: seq<Entry>, e: Entry, dest: Path, p: Path)
    ensures LastFor(es + [e], dest, p) == if Target(dest, e.name) == p then Some(e) else LastFor(es, dest, p)
    ensures FirstFor(es + [e], dest, p) ==
      if FirstFor(es, dest, p).Some? then FirstFor(es, dest, p) else if Makes(e, dest, p) then Some(e) else None
  {}

  lemma {:induction false} LastHasFirst(es: seq<Entry>, dest: Path, p: Path)
    ensures LastFor(es, dest, p).Some? ==> FirstFor(es, dest, p).Some?
    ensures LastFor(es, dest, p).Some? ==> LastFor(es, dest, p).value in es
    ensures LastFor(es, dest, p).Some? ==> Target(dest, LastFor(es, dest, p).value.name) == p
  {
    if es != [] { LastHasFirst(es[..|es| - 1], dest, p); }
  }

  lemma {:induction false} LastIs(es: seq<Entry>, dest: Path, p: Path, i: nat)
    requires i < |es| && Target(dest, es[i].name) == p
    requires forall j: nat | i < j < |es| :: Target(dest, es[j].name) != p
    ensures LastFor(es, dest, p) == Some(es[i])
  {
    if i < |es| - 1 { LastIs(es[..|es| - 1], dest, p, i); }
  }

  lemma {:induction false} NoLast(es: seq<Entry>, dest: Path, p: Path)
    requires forall j: nat | j < |es| :: Target(dest, es[j].name) != p
    ensures LastFor(es, dest, p) == None
  {
    if es != [] { NoLast(es[..|es| - 1], dest, p); }
  }

  lemma {:induction false} FirstIs(es: seq<Entry>, dest: Path, p: Path, i: nat)
    requires i < |es| && Makes(es[i], dest, p)
    requires forall j: nat | j < i :: !Makes(es[j], dest, p)
    ensures FirstFor(es, dest, p) == Some(es[i])
  {
    if i < |es| - 1 { FirstIs(es[..|es| - 1], dest, p, i); } else { NoFirst(es[..i], dest, p); }
  }

  lemma {:induction false} NoFirst(es: seq<Entry>, dest: Path, p: Path)
    requires forall j: nat | j < |es| :: !Makes(es[j], dest, p)
    ensures FirstFor(es, dest, p) == None
  {
    if es != [] { NoFirst(es[..|es| - 1], dest, p); }
  }

  lemma {:induction false} AllFitPrefix(t: Tree, es: seq<Entry>, dest: Path, umask: Mode, n: nat)
    requires AllFit(t, es, dest, umask) && n <= |es|
    ensures AllFit(t, es[..n], dest, umask)
  {
    if n == |es| {
      assert es[..n] == es;
    } else {
      AllFitPrefix(t, es[..|es| - 1], dest, umask, n);
      assert es[..|es| - 1][..n] == es[..n];
    }
  }

  /** What an extra entry changes in what is wanted. */
  lemma {:induction false} WantSnoc(t: Tree, es: seq<Entry>, e: Entry, dest: Path, umask: Mode, p: Path)
    ensures var w := Want(t, es, dest, umask, p);
      var w' := Want(t, es + [e], dest, umask, p);
      var mode := if w.Some? then NodeMode(w.value) else Masked(e.mode, umask);
      w' ==
        if Target(dest, e.name) == p
        then Some(if e.kind.Directory? then Dir(mode, e.mtime) else File(mode, e.mtime, e.content))
        else if w.Some? then w
        else if Makes(e, dest, p) then Some(Dir(mode, 0))
        else None
  {
    Snoc(es, e, dest, p);
    LastHasFirst(es, dest, p);
  }

  /** An extra directory entry: what mkdir -p did is what is now wanted. */
  lemma {:induction false} WantAfterDir(
    t: Tree, es: seq<Entry>, e: Entry, dest: Path, umask: Mode, u: Tree, v: Tree, p: Path)
    requires e.kind.Directory?
    requires Agrees(u, p, Want(t, es, dest, umask, p)) && WellFormed(v)
    requires AddedDirs(u, v, Target(dest, e.name), Masked(e.mode, umask))
    requires Target(dest, e.name) in v && v[Target(dest, e.name)].Dir?
    ensures Agrees(v, p, Want(t, es + [e], dest, umask, p))
  {
    WantSnoc(t, es, e, dest, umask, p);
    assert Under(p, p);
    PrefixesAreDirs(v, Target(dest, e.name));
  }

  /** An extra file entry: what opening, writing and stamping did is what is now wanted. */
  lemma {:induction false} WantAfterFile(
    t: Tree, es: seq<Entry>, e: Entry, dest: Path, umask: Mode, u: Tree, v: Tree, p: Path)
    requires e.kind.Regular?
    requires Agrees(u, p, Want(t, es, dest, umask, p))
    requires Placed(u, v, Target(dest, e.name),
      File(if Target(dest, e.name) in u then NodeMode(u[Target(dest, e.name)]) else Masked(e.mode, umask),
           e.mtime, e.content))
    ensures Agrees(v, p, Want(t, es + [e], dest, umask, p))
  {
    WantSnoc(t, es, e, dest, umask, p);
  }

  // ----- the extraction -----

  /** What the first pass has achieved after es. */
  ghost predicate FirstPass(t: Tree, u: Tree, es: seq<Entry>, dest: Path, umask: Mode) {
    && WellFormed(u)
    && Grows(t, u)
    && (forall p :: Agrees(u, p, Want(t, es, dest, umask, p)))
    && Quiet(t, u, iset{})
  }

  /** The headers collected for the second pass. */
  ghost predicate Collected(headers: map<Path, Entry>, es: seq<Entry>, dest: Path) {
    forall p ::
      if p in Headed(es, dest) then p in headers && Some(headers[p]) == LastFor(es, dest, p) else p !in headers
  }

  lemma {:induction false} PassMore(t: Tree, es: seq<Entry>, e: Entry, dest: Path, umask: Mode, u: Tree, v: Tree)
    requires FirstPass(t, u, es, dest, umask) && WellFormed(v) && Grows(u, v) && Quiet(u, v, iset{})
    requires forall p :: Agrees(v, p, Want(t, es + [e], dest, umask, p))
    ensures FirstPass(t, v, es + [e], dest, umask)
  {}

  /** A directory fits exactly if mkdir -p would succeed. */
  lemma {:induction false} FitsDir(t: Tree, es: seq<Entry>, dest: Path, umask: Mode, u: Tree, e: Entry)
    requires e.kind.Directory? && FirstPass(t, u, es, dest, umask)
    ensures Fits(t, es, dest, umask, e) <==> Passable(u, Target(dest, e.name))
  {
    forall q ensures Agrees(u, q, Want(t, es, dest, umask, q)) {}
  }

  /** A file fits exactly if it could be opened for writing. */
  lemma {:induction false} FitsFile(t: Tree, es: seq<Entry>, dest: Path, umask: Mode, u: Tree, e: Entry)
    requires e.kind.Regular? && FirstPass(t, u, es, dest, umask)
    ensures Fits(t, es, dest, umask, e) <==> Openable(u, Target(dest, e.name))
  {}

  /** One turn of the loop, for a directory header. */
  method ExtractDirectory(disk: Disk, e: Entry, dest: Path, ghost t: Tree, ghost es: seq<Entry>) returns (ok: bool)
    requires PlainPath(dest) && e.kind.Directory? && FirstPass(t, disk.tree, es, dest, disk.umask)
    modifies disk`tree
    ensures WellFormed(disk.tree)
    ensures Under(dest, Target(dest, e.name)) ==> Confined(old(disk.tree), disk.tree, dest)
    ensures ok ==> FirstPass(t, disk.tree, es + [e], dest, disk.umask)
    ensures ok ==> Fits(t, es, dest, disk.umask, e)
    ensures disk.reliable && Fits(t, es, dest, disk.umask, e) ==> ok
  {
    FitsDir(t, es, dest, disk.umask, disk.tree, e);
    ghost var u := disk.tree;
    var p := Target(dest, e.name);
    ok := disk.MkdirAll(p, e.mode);
    if Under(dest, p) { DirsConfined(u, disk.tree, dest, p, Masked(e.mode, disk.umask)); }
    if ok {
      forall q ensures Agrees(disk.tree, q, Want(t, es + [e], dest, disk.umask, q)) {
        WantAfterDir(t, es, e, dest, disk.umask, u, disk.tree, q);
      }
      PassMore(t, es, e, dest, disk.umask, u, disk.tree);
    }
  }

  /** v is u with the file f placed at p. */
  ghost predicate Placed(u: Tree, v: Tree, p: Path, f: Node) {
    f.File? && p in v && v[p] == f && KeptOutside(u, v, iset{p}) && Quiet(u, v, iset{}) && (p in u ==> u[p].File?)
  }

  lemma {:induction false} PlacedAgain(u: Tree, v: Tree, p: Path, f: Node, g: Node)
    requires Placed(u, v, p, f) && g.File?
    ensures Placed(u, v[p := g], p, g)
  {}

  lemma {:induction false} PlacedGrows(u: Tree, v: Tree, p: Path, f: Node)
    requires Placed(u, v, p, f)
    ensures Grows(u, v)
  {}

  /** Writing and stamping a file that was just opened. */
  method FillFile(disk: Disk, p: Path, mtime: Time, content: Content, ghost u: Tree) returns (ok: bool)
    requires WellFormed(disk.tree) && p in disk.tree && Placed(u, disk.tree, p, disk.tree[p])
    modifies disk`tree
    ensures WellFormed(disk.tree) && p in disk.tree && Placed(u, disk.tree, p, disk.tree[p]) && Grows(u, disk.tree)
    ensures ok ==> disk.tree[p] == File(NodeMode(old(disk.tree)[p]), mtime, content)
    ensures disk.reliable ==> ok
  {
    ghost var emptied := disk.tree;
    ok := disk.Write(p, content);
    PlacedAgain(u, emptied, p, emptied[p], disk.tree[p]);
    PlacedGrows(u, disk.tree, p, disk.tree[p]);
    if !ok { return; }
    ghost var written := disk.tree;
    ok := disk.Chtimes(p, mtime);
    PlacedAgain(u, written, p, written[p], disk.tree[p]);
    PlacedGrows(u, disk.tree, p, disk.tree[p]);
  }

  /** Opening, writing and stamping a file, as ExtractTar and CopyFile do. */
  method PlaceFile(disk: Disk, p: Path, mode: Mode, mtime: Time, content: Content) returns (ok: bool)
    requires WellFormed(disk.tree) && PlainPath(p)
    modifies disk`tree
    ensures WellFormed(disk.tree)
    ensures KeptOutside(old(disk.tree), disk.tree, iset{p}) && Quiet(old(disk.tree), disk.tree, iset{})
    ensures Grows(old(disk.tree), disk.tree)
    ensures ok ==> Openable(old(disk.tree), p)
    ensures ok ==> Placed(old(disk.tree), disk.tree, p,
      File(if p in old(disk.tree) then NodeMode(old(disk.tree)[p]) else Masked(mode, disk.umask), mtime, content))
    ensures disk.reliable && Openable(old(disk.tree), p) ==> ok
  {
    ghost var u := disk.tree;
    ok := disk.OpenTruncated(p, mode);
    if !ok { return; }
    ghost var emptied := disk.tree;
    assert Placed(u, emptied, p, emptied[p]);
    ok := FillFile(disk, p, mtime, content, u);
  }

  /** One turn of the loop, for a file header. */
  method ExtractFile(disk: Disk, e: Entry, dest: Path, ghost t: Tree, ghost es: seq<Entry>) returns (ok: bool)
    requires PlainPath(dest) && e.kind.Regular? && FirstPass(t, disk.tree, es, dest, disk.umask)
    modifies disk`tree
    ensures WellFormed(disk.tree)
    ensures Under(dest, Target(dest, e.name)) ==> Confined(old(disk.tree), disk.tree, dest)
    ensures ok ==> FirstPass(t, disk.tree, es + [e], dest, disk.umask)
    ensures ok ==> Fits(t, es, dest, disk.umask, e)
    ensures disk.reliable && Fits(t, es, dest, disk.umask, e) ==> ok
  {
    FitsFile(t, es, dest, disk.umask, disk.tree, e);
    ghost var u := disk.tree;
    var p := Target(dest, e.name);
    ok := PlaceFile(disk, p, e.mode, e.mtime, e.content);
    if Under(dest, p) { FileConfined(u, disk.tree, dest, p); }
    if ok {
      forall q ensures Agrees(disk.tree, q, Want(t, es + [e], dest, disk.umask, q)) {
        WantAfterFile(t, es, e, dest, disk.umask, u, disk.tree, q);
      }
      PassMore(t, es, e, dest, disk.umask, u, disk.tree);
    }
  }

  /** t with the times of the given headed directories set. */
  function TimesSet(t: Tree, headers: map<Path, Entry>, done: set<Path>): Tree {
    map p | p in t :: if p in done && p in headers && t[p].Dir? then Dir(t[p].mode, headers[p].mtime) else t[p]
  }

  lemma {:induction false} TimesSetMore(t: Tree, headers: map<Path, Entry>, done: set<Path>, p: Path)
    requires p in t && t[p].Dir? && p in headers
    ensures TimesSet(t, headers, done + {p})
      == TimesSet(t, headers, done)[p := Dir(t[p].mode, headers[p].mtime)]
  {}

  /**
   * The second pass, over the headers in whatever order the map yields them. The result does not depend on
   * that order: it is a function of the tree and the headers.
   */
  method SetDirectoryTimes(disk: Disk, headers: map<Path, Entry>) returns (ok: bool)
    requires WellFormed(disk.tree)
    requires forall p | p in headers :: p in disk.tree && disk.tree[p].Dir?
    modifies disk`tree
    ensures WellFormed(disk.tree)
    ensures ok ==> disk.tree == TimesSet(old(disk.tree), headers, headers.Keys)
    ensures SameBut(old(disk.tree), disk.tree, iset p | p in headers)
    ensures disk.reliable ==> ok
  {
    var done: set<Path> := {};
    ok := true;
    while headers.Keys - done != {}
      invariant done <= headers.Keys && WellFormed(disk.tree)
      invariant disk.tree == TimesSet(old(disk.tree), headers, done)
      decreases headers.Keys - done
    {
      var p :| p in headers.Keys - done;
      TimesSetMore(old(disk.tree), headers, done, p);
      ok := disk.Chtimes(p, headers[p].mtime);
      if !ok { return; }
      done := done + {p};
    }
    assert done == headers.Keys;
  }

  /** After both passes the archive is extracted. */
  lemma {:induction false} SecondPass(
    t: Tree, u: Tree, es: seq<Entry>, dest: Path, umask: Mode, headers: map<Path, Entry>)
    requires FirstPass(t, u, es, dest, umask) && Collected(headers, es, dest)
    ensures Extracted(t, TimesSet(u, headers, headers.Keys), es, dest, umask)
  {
    var v := TimesSet(u, headers, headers.Keys);
    forall p
      ensures Agrees(v, p, Want(t, es, dest, umask, p))
      ensures LastFor(es, dest, p).Some? ==> p in v && Some(v[p]) == Want(t, es, dest, umask, p)
    {
      assert Agrees(u, p, Want(t, es, dest, umask, p));
      assert if p in Headed(es, dest) then p in headers && Some(headers[p]) == LastFor(es, dest, p) else p !in headers;
    }
    forall q | q in t && q !in Headed(es, dest) && t[q].Dir? && q in v && v[q] != t[q]
      ensures exists n :: q + [n] in v && q + [n] !in t
    {
      assert q !in headers;
      var n :| q + [n] in u && q + [n] !in t;
      assert q + [n] in v;
    }
  }

  /** The header map after one more entry that fitted. */
  lemma {:induction false} CollectedMore(
    t: Tree, headers: map<Path, Entry>, es: seq<Entry>, e: Entry, dest: Path, umask: Mode)
    requires Collected(headers, es, dest) && Fits(t, es, dest, umask, e)
    ensures Collected(if e.kind.Directory? then headers[Target(dest, e.name) := e] else headers, es + [e], dest)
  {}

  lemma {:induction false} HeadersPresent(
    t: Tree, u: Tree, headers: map<Path, Entry>, es: seq<Entry>, dest: Path, umask: Mode)
    requires FirstPass(t, u, es, dest, umask) && Collected(headers, es, dest)
    ensures forall p | p in headers :: p in u && u[p].Dir?
  {
    forall p | p in headers ensures p in u && u[p].Dir? {
      assert p in Headed(es, dest);
      assert Agrees(u, p, Want(t, es, dest, umask, p));
    }
  }

  /** One turn of the loop of the first pass. */
  method ExtractEntry(disk: Disk, e: Entry, dest: Path, headers: map<Path, Entry>, ghost t: Tree, ghost es: seq<Entry>)
    returns (ok: bool, headers': map<Path, Entry>)
    requires PlainPath(dest) && FirstPass(t, disk.tree, es, dest, disk.umask) && Collected(headers, es, dest)
    modifies disk`tree
    ensures WellFormed(disk.tree)
    ensures Under(dest, Target(dest, e.name)) ==> Confined(old(disk.tree), disk.tree, dest)
    ensures ok ==> FirstPass(t, disk.tree, es + [e], dest, disk.umask) && Collected(headers', es + [e], dest)
    ensures ok ==> Fits(t, es, dest, disk.umask, e)
    ensures disk.reliable && Fits(t, es, dest, disk.umask, e) ==> ok
  {
    headers' := headers;
    match e.kind {
      case Directory =>
        ok := ExtractDirectory(disk, e, dest, t, es);
        headers' := headers[Target(dest, e.name) := e];
      case Regular =>
        ok := ExtractFile(disk, e, dest, t, es);
      case OtherKind =>
        ok := false;
    }
    if ok { CollectedMore(t, headers, es, e, dest, disk.umask); }
  }

  lemma {:induction false} AllFitMore(t: Tree, es: seq<Entry>, dest: Path, umask: Mode, e: Entry)
    ensures AllFit(t, es + [e], dest, umask) <==> AllFit(t, es, dest, umask) && Fits(t, es, dest, umask, e)
  {}

  lemma {:induction false} MisfitStops(t: Tree, es: seq<Entry>, dest: Path, umask: Mode, i: nat)
    requires i < |es| && !Fits(t, es[..i], dest, umask, es[i])
    ensures !AllFit(t, es, dest, umask)
  {
    if AllFit(t, es, dest, umask) {
      AllFitPrefix(t, es, dest, umask, i + 1);
      assert es[..i + 1] == es[..i] + [es[i]];
      AllFitMore(t, es[..i], dest, umask, es[i]);
      assert false;
    }
  }

  lemma {:induction false} NothingExtracted(t: Tree, dest: Path, umask: Mode)
    requires WellFormed(t)
    ensures FirstPass(t, t, [], dest, umask) && Collected(map[], [], dest) && AllFit(t, [], dest, umask)
  {}

  /** Every entry lands in dest. */
  ghost predicate Contained(es: seq<Entry>, dest: Path) {
    forall i | 0 <= i < |es| :: Under(dest, Target(dest, es[i].name))
  }

  lemma {:induction false} HeadersContained(headers: map<Path, Entry>, es: seq<Entry>, dest: Path)
    requires Collected(headers, es, dest) && Contained(es, dest)
    ensures forall p | p in headers :: Under(dest, p)
  {
    forall p | p in headers ensures Under(dest, p) {
      assert p in Headed(es, dest);
      LastHasFirst(es, dest, p);
    }
  }

  /** Nothing but directories and regular files fits. */
  lemma {:induction false} OrdinaryKinds(t: Tree, es: seq<Entry>, dest: Path, umask: Mode)
    requires AllFit(t, es, dest, umask)
    ensures forall i | 0 <= i < |es| :: es[i].kind == Directory || es[i].kind == Regular
  {
    if es != [] { OrdinaryKinds(t, es[..|es| - 1], dest, umask); }
  }

  /** The first pass over the whole archive. */
  method ExtractEntries(disk: Disk, es: seq<Entry>, dest: Path) returns (ok: bool, headers: map<Path, Entry>)
    requires WellFormed(disk.tree) && PlainPath(dest)
    modifies disk`tree
    ensures WellFormed(disk.tree)
    ensures Contained(es, dest) ==> Confined(old(disk.tree), disk.tree, dest)
    ensures ok ==> FirstPass(old(disk.tree), disk.tree, es, dest, disk.umask) && Collected(headers, es, dest)
    ensures ok ==> AllFit(old(disk.tree), es, dest, disk.umask)
    ensures disk.reliable && AllFit(old(disk.tree), es, dest, disk.umask) ==> ok
  {
    ghost var t := disk.tree;
    headers := map[];
    ok := true;
    var i := 0;
    ghost var done: seq<Entry> := [];
    NothingExtracted(t, dest, disk.umask);
    while i < |es|
      invariant 0 <= i <= |es| && done == es[..i]
      invariant FirstPass(t, disk.tree, done, dest, disk.umask)
      invariant Contained(es, dest) ==> Confined(t, disk.tree, dest)
      invariant Collected(headers, done, dest)
      invariant AllFit(t, done, dest, disk.umask)
    {
      ghost var u := disk.tree;
      ok, headers := ExtractEntry(disk, es[i], dest, headers, t, done);
      if Contained(es, dest) { ConfinedTwice(t, u, disk.tree, dest); }
      if !ok {
        if disk.reliable { MisfitStops(t, es, dest, disk.umask, i); }
        return;
      }
      AllFitMore(t, done, dest, disk.umask, es[i]);
      TakeSnoc(es, i + 1);
      done := done + [es[i]];
      i := i + 1;
    }
    assert done == es;
  }

  /**
   * ExtractTar over the entries the reader yields; corrupt says that it fails after them. On success the
   * whole tree is what the archive means, for any archive, any destination and any clock. On a reliable
   * disk it succeeds exactly when every entry fits. Whether it succeeds or not, an archive whose entries all land
   * in dest changes nothing outside it.
   */
  method ExtractTar(disk: Disk, es: seq<Entry>, corrupt: bool, dest: Path) returns (ok: bool)
    requires WellFormed(disk.tree) && PlainPath(dest)
    modifies disk`tree
    ensures WellFormed(disk.tree)
    ensures Contained(es, dest) ==> Confined(old(disk.tree), disk.tree, dest)
    ensures ok ==> !corrupt && AllFit(old(disk.tree), es, dest, disk.umask)
    ensures ok ==> forall i | 0 <= i < |es| :: es[i].kind == Directory || es[i].kind == Regular
    ensures ok ==> Extracted(old(disk.tree), disk.tree, es, dest, disk.umask)
    ensures disk.reliable && !corrupt && AllFit(old(disk.tree), es, dest, disk.umask) ==> ok
  {
    ghost var t := disk.tree;
    var headers;
    ok, headers := ExtractEntries(disk, es, dest);
    if corrupt { ok := false; }
    if !ok { return; }
    ghost var u := disk.tree;
    HeadersPresent(t, u, headers, es, dest, disk.umask);
    ok := SetDirectoryTimes(disk, headers);
    if Contained(es, dest) {
      HeadersContained(headers, es, dest);
      ConfinedTwice(t, u, disk.tree, dest);
    }
    SecondPass(t, u, es, dest, disk.umask, headers);
    OrdinaryKinds(t, es, dest, disk.umask);
  }

  // ----- extraction as an overlay -----

  /** Where everything fits, an entry has the kind of what was at its path. */
  lemma {:induction false} KindsKept(t: Tree, es: seq<Entry>, dest: Path, umask: Mode, p: Path)
    requires WellFormed(t) && AllFit(t, es, dest, umask) && p in t && LastFor(es, dest, p).Some?
    ensures if LastFor(es, dest, p).value.kind.Directory? then t[p].Dir? else t[p].File?
  {
    var before, e := es[..|es| - 1], es[|es| - 1];
    assert Under(p, p);
    if Target(dest, e.name) != p {
      KindsKept(t, before, dest, umask, p);
    } else if LastFor(before, dest, p).Some? {
      KindsKept(t, before, dest, umask, p);
    }
  }

  /**
   * Extraction over whatever is there is an overlay: a path with an entry ends up with the contents and time
   * of its last entry, a path that was there keeps its kind and mode, and without an entry its contents too.
   */
  lemma {:induction false} Overlay(t: Tree, u: Tree, es: seq<Entry>, dest: Path, umask: Mode, p: Path)
    requires WellFormed(t) && AllFit(t, es, dest, umask) && Extracted(t, u, es, dest, umask)
    ensures var last := LastFor(es, dest, p);
      && (last.Some? ==> p in u && !u[p].Special? && u[p].mtime == last.value.mtime)
      && (last.Some? ==> u[p].Dir? == last.value.kind.Directory?)
      && (last.Some? && u[p].File? ==> u[p].content == last.value.content)
      && (p in t ==> p in u && t[p].Dir? == u[p].Dir? && t[p].File? == u[p].File? && NodeMode(t[p]) == NodeMode(u[p]))
      && (p in t && last.None? ==> Kept(t[p], u[p]))
      && (p in u && p !in t ==> FirstFor(es, dest, p).Some?)
      && (p in u && p !in t ==> NodeMode(u[p]) == Masked(FirstFor(es, dest, p).value.mode, umask))
  {
    assert Agrees(u, p, Want(t, es, dest, umask, p));
    LastHasFirst(es, dest, p);
    if p in t && LastFor(es, dest, p).Some? { KindsKept(t, es, dest, umask, p); }
  }

  // ----- containment -----

  /** A name that does not step up lands in dest; so does a rooted one, however often it does. */
  lemma {:induction false} StaysInside(dest: Path, name: seq<string>)
    requires ".." !in name || (|name| > 1 && name[0] == "")
    ensures Under(dest, Target(dest, name))
  {
    if |name| > 1 && name[0] == "" {
      assert PlainPath([]);
      ResolvePlain(dest, Resolve([], name));
    } else {
      ResolveDown(dest, name);
    }
  }

  lemma {:induction false} ResolveDown(base: Path, name: seq<string>)
    requires ".." !in name
    ensures Under(base, Resolve(base, name))
    decreases |name|
  {
    if name != [] {
      assert name[0] in name && forall c | c in name[1..] :: c in name;
      if name[0] == "" || name[0] == "." {
        ResolveDown(base, name[1..]);
      } else {
        ResolveDown(base + [name[0]], name[1..]);
        assert Under(base, base + [name[0]]);
      }
    }
  }

  /** An entry that lands outside dest finds there what its last entry makes of it anyway. */
  ghost predicate Harmless(t: Tree, es: seq<Entry>, dest: Path, umask: Mode) {
    forall i | 0 <= i < |es| ::
      var p := Target(dest, es[i].name);
      Under(dest, p) || (p in t && Some(t[p]) == Want(t, es, dest, umask, p))
  }

  /** What makes p is under dest, or at a path that is there: then p is under dest or there itself. */
  lemma {:induction false} MadeInside(
    t: Tree, es: seq<Entry>, dest: Path, umask: Mode, p: Path)
    requires WellFormed(t) && dest in t && Harmless(t, es, dest, umask) && FirstFor(es, dest, p).Some?
    ensures Under(dest, p) || p in t
  {
    FirstIsMade(es, dest, p);
    var i: nat :| i < |es| && Makes(es[i], dest, p);
    var q := Target(dest, es[i].name);
    assert Under(q, q);
    assert Under(p, q);
    BothAbove(dest, p, q);
    PrefixesAreDirs(t, dest);
    if q in t { PrefixesAreDirs(t, q); }
  }

  lemma {:induction false} FirstIsMade(es: seq<Entry>, dest: Path, p: Path)
    requires FirstFor(es, dest, p).Some?
    ensures exists i: nat :: i < |es| && Makes(es[i], dest, p)
  {
    if FirstFor(es[..|es| - 1], dest, p).Some? {
      FirstIsMade(es[..|es| - 1], dest, p);
      var i: nat :| i < |es| - 1 && Makes(es[..|es| - 1][i], dest, p);
      assert Makes(es[i], dest, p);
    } else {
      assert Makes(es[|es| - 1], dest, p);
    }
  }

  lemma {:induction false} HarmlessAt(t: Tree, u: Tree, es: seq<Entry>, dest: Path, umask: Mode, p: Path)
    requires WellFormed(t) && dest in t && Extracted(t, u, es, dest, umask) && Harmless(t, es, dest, umask)
    requires !Under(dest, p)
    ensures (p in u <==> p in t) && (p in t ==> u[p] == t[p])
  {
    assert Agrees(u, p, Want(t, es, dest, umask, p));
    assert forall n: string | Under(dest, p + [n]) :: p + [n] == dest;
    LastHasFirst(es, dest, p);
    if LastFor(es, dest, p).Some? {
      var e := LastFor(es, dest, p).value;
      var i :| 0 <= i < |es| && es[i] == e;
    } else if p in t {
      if u[p] != t[p] {
        var n :| p + [n] in u && p + [n] !in t;
        assert Agrees(u, p + [n], Want(t, es, dest, umask, p + [n]));
        LastHasFirst(es, dest, p + [n]);
        MadeInside(t, es, dest, umask, p + [n]);
      }
    } else if FirstFor(es, dest, p).Some? {
      MadeInside(t, es, dest, umask, p);
    }
  }

  /**
   * A relative name can climb out of dest. An archive that is extracted into a directory that is there changes
   * nothing outside it exactly if every entry that lands outside finds what it would make there anyway.
   */
  lemma {:induction false} ConfinedIffHarmless(t: Tree, u: Tree, es: seq<Entry>, dest: Path, umask: Mode)
    requires WellFormed(t) && dest in t && Extracted(t, u, es, dest, umask)
    ensures Confined(t, u, dest) <==> Harmless(t, es, dest, umask)
    ensures Contained(es, dest) ==> Harmless(t, es, dest, umask)
  {
    if Harmless(t, es, dest, umask) {
      forall p | !Under(dest, p) ensures (p in u <==> p in t) && (p in t ==> u[p] == t[p]) {
        HarmlessAt(t, u, es, dest, umask, p);
      }
    }
    if Confined(t, u, dest) {
      forall i | 0 <= i < |es| && !Under(dest, Target(dest, es[i].name))
        ensures var p := Target(dest, es[i].name); p in t && Some(t[p]) == Want(t, es, dest, umask, p)
      {
        LastPresent(es, dest, i);
      }
    }
  }

  lemma {:induction false} LastPresent(es: seq<Entry>, dest: Path, i: nat)
    requires i < |es|
    ensures LastFor(es, dest, Target(dest, es[i].name)).Some?
  {
    if i < |es| - 1 { LastPresent(es[..|es| - 1], dest, i); }
  }

  const Climbing: seq<string> := ["..", "x"]

  lemma {:induction false} ClimbingLands()
    ensures Target(["d"], Climbing) == ["x"] && !Under(["d"], ["x"])
  {
    assert Climbing[1..] == ["x"] && ["x"][1..] == [] && [] + ["x"] == ["x"];
    assert Parent(["d"]) == [];
  }

  lemma {:induction false} ClimbingFits(t: Tree, e: Entry, umask: Mode)
    requires WellFormed(t) && ["x"] !in t && e.kind.Regular? && Target(["d"], e.name) == ["x"]
    ensures AllFit(t, [e], ["d"], umask)
  {
    NothingExtracted(t, ["d"], umask);
    assert Parent(["x"]) == [];
    assert [] + [e] == [e];
    AllFitMore(t, [], ["d"], umask, e);
  }

  /** Such an archive has a file called ../x, which is made next to the directory it is extracted into. */
  lemma {:induction false} Escapes(t: Tree, e: Entry, umask: Mode, u: Tree)
    requires WellFormed(t) && ["d"] in t && ["x"] !in t && e.kind.Regular? && e.name == Climbing
    ensures AllFit(t, [e], ["d"], umask)
    ensures Extracted(t, u, [e], ["d"], umask) ==> ["x"] in u && !Confined(t, u, ["d"])
  {
    ClimbingLands();
    ClimbingFits(t, e, umask);
    LastPresent([e], ["d"], 0);
  }
}
