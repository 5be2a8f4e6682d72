/** The build command for a package with its own server: nothing is built, its files are handed through. */
module ExternalBuild {
  import opened Common
  import opened FileSystem
  import opened Extract
  import opened Archive
  import opened Copy
  import opened Staging
  import opened BuildCommand
  import opened ReleaseCommand

  predicate FileAt(t: Tree, p: Path) { p in t && t[p].File? }

  predicate FileWith(t: Tree, p: Path, c: Content) { FileAt(t, p) && t[p].content == c }

  /** There is a file, and its contents can be updated. */
  predicate Updatable(t: Tree, src: Path, update: Content -> Option<Content>) {
    FileAt(t, src) && update(t[src].content).Some?
  }

  /**
   * UpdateFile: the rewritten contents of src go to dest. update says what the contents become, or that they
   * cannot be updated; unlike CopyFile this leaves the time of dest to the clock.
   */
  method UpdateFile(disk: Disk, src: Path, dest: Path, update: Content -> Option<Content>) returns (ok: bool)
    requires WellFormed(disk.tree) && PlainPath(dest)
    modifies disk`tree
    ensures WellFormed(disk.tree)
    ensures KeptOutside(old(disk.tree), disk.tree, iset{dest}) && Quiet(old(disk.tree), disk.tree, iset{})
    ensures ok ==> src in old(disk.tree) && old(disk.tree)[src].File? && dest != []
    ensures ok ==> dest in disk.tree && disk.tree[dest].File?
    ensures ok ==>
              disk.tree[dest].mode == ModeAt(old(disk.tree), dest, NodeMode(old(disk.tree)[src]), disk.umask)
    ensures ok ==> Some(disk.tree[dest].content) == update(old(disk.tree)[src].content)
    ensures disk.reliable && Updatable(old(disk.tree), src, update) && Openable(old(disk.tree), dest) ==> ok
  {
    ok := src in disk.tree && disk.tree[src].File?;
    if ok && !disk.reliable { ok := *; }
    if !ok { return; }
    var mode := disk.tree[src].mode;
    match update(disk.tree[src].content) {
      case None => return false;
      case Some(content) =>
        ghost var t := disk.tree;
        ok := disk.OpenTruncated(dest, mode);
        if !ok { return; }
        ghost var u := disk.tree;
        ok := disk.Write(dest, content);
        assert Placed(t, u, dest, u[dest]);
        PlacedAgain(t, u, dest, u[dest], disk.tree[dest]);
    }
  }

  /** The output directory is there, apart from the source and the metadata. */
  ghost predicate ExternalLayout(t: Tree, source: Path, metadata: Path, output: Path) {
    WellFormed(t) && IsDirectory(t, output) && Apart(source, output) && Apart(metadata, output)
  }

  /** The rewritten connection file of the source, unless the metadata has one, which is copied over it. */
  function ConnectionFor(t: Tree, source: Path, metadata: Path, inject: Content -> Option<Content>): Option<Content> {
    if FileAt(t, metadata + [ConnectionJson]) then Some(t[metadata + [ConnectionJson]].content)
    else if FileAt(t, source + [ConnectionJson]) then inject(t[source + [ConnectionJson]].content)
    else None
  }

  /** No path of that name is of another kind than a file, in either directory. */
  predicate FileOrFree(t: Tree, a: Path, b: Path, n: string) {
    (a + [n] in t ==> t[a + [n]].File?) && (b + [n] in t ==> t[b + [n]].File?)
  }

  /** Nothing keeps an external package from being handed through. */
  ghost predicate Handable(t: Tree, source: Path, metadata: Path, output: Path, inject: Content -> Option<Content>) {
    && Updatable(t, source + [ConnectionJson], inject)
    && Compatible(t, metadata, output) && FileOrFree(t, metadata, output, ConnectionJson)
    && (IsDirectory(t, source + [MetaInf]) ==>
          NoSpecialBelow(t, source + [MetaInf]) && FileOrFree(t, metadata, output, MetaInfTar))
  }

  /**
   * What has become of something in output, apart from the rewritten connection file and the archive of META-INF: it
   * is a copy of what the metadata has there, or what it was.
   */
  ghost predicate HandedAt(t: Tree, u: Tree, metadata: Path, output: Path, q: Path) {
    if Copies(t, metadata, output, AllNames, q) then
      var n := t[Source(metadata, output, q)];
      !n.Special? && q in u && SameKind(u[q], n) && u[q].mtime == n.mtime && (n.File? ==> u[q].content == n.content)
    else
      q != output + [ConnectionJson] ==> (q in u <==> q in t) && (q in t ==> Kept(t[q], u[q]))
  }

  ghost predicate AllHanded(t: Tree, u: Tree, metadata: Path, output: Path) {
    forall q | Under(output, q) && q != output && q != output + [MetaInfTar] :: HandedAt(t, u, metadata, output, q)
  }

  /**
   * output has the META-INF archive of the source if there is a META-INF directory, and otherwise what the metadata has
   * under that name, or what was there.
   */
  ghost predicate MetaInfHanded(t: Tree, u: Tree, source: Path, metadata: Path, output: Path, reliable: bool) {
    var p := output + [MetaInfTar];
    if IsDirectory(t, source + [MetaInf]) && reliable
    then FileAt(u, p) && ArchiveOf(t, source + [MetaInf], u[p].content)
    else if IsDirectory(t, source + [MetaInf]) then true
    else HandedAt(t, u, metadata, output, p) && (p !in t && metadata + [MetaInfTar] !in t ==> p !in u)
  }

  /** What an external build leaves in output; nothing else changes. */
  ghost predicate BuiltExternal(
    t: Tree, u: Tree, source: Path, metadata: Path, output: Path, inject: Content -> Option<Content>, reliable: bool)
  {
    && OnlyUnder(t, u, output)
    && (exists c :: ConnectionFor(t, source, metadata, inject) == Some(c) && FileWith(u, output + [ConnectionJson], c))
    && (FileAt(t, metadata + [MetadataJson]) ==>
          FileWith(u, output + [MetadataJson], t[metadata + [MetadataJson]].content))
    && AllHanded(t, u, metadata, output)
    && MetaInfHanded(t, u, source, metadata, output, reliable)
  }

  /** What copying makes of one name right in the destination. */
  lemma {:induction false} CopiedChild(t: Tree, u: Tree, src: Path, dest: Path, umask: Mode, n: string)
    requires Copied(t, u, src, dest, AllNames, umask)
    ensures FileAt(t, src + [n]) ==> FileWith(u, dest + [n], t[src + [n]].content)
    ensures src + [n] !in t && FileAt(t, dest + [n]) ==> FileAt(u, dest + [n]) && u[dest + [n]] == t[dest + [n]]
    ensures src + [n] in t && FileAt(t, dest + [n]) ==> FileAt(t, src + [n])
    ensures src + [n] !in t && dest + [n] !in t ==> dest + [n] !in u
  {
    assert CopyAt(t, u, src, dest, AllNames, umask, dest + [n]);
    assert Source(src, dest, dest + [n]) == src + [n];
    assert !Under(dest + [n], dest);
  }

  /** The connection file was rewritten into output, and the metadata copied over it. */
  ghost predicate HandedOver(
    t: Tree, u: Tree, v: Tree, source: Path, metadata: Path, output: Path, inject: Content -> Option<Content>,
    umask: Mode)
  {
    && FileAt(t, source + [ConnectionJson]) && FileAt(u, output + [ConnectionJson])
    && Some(u[output + [ConnectionJson]].content) == inject(t[source + [ConnectionJson]].content)
    && SameBut(t, u, iset{output + [ConnectionJson], output})
    && Copied(u, v, metadata, output, AllNames, umask) && OnlyUnder(u, v, output)
  }

  lemma {:induction false} OutsideOutput(source: Path, output: Path, n: string)
    requires Apart(source, output)
    ensures !Under(output, source + [n]) && !Under(source + [n], output)
  {}

  lemma {:induction false} ApartBelow(source: Path, output: Path, q: Path)
    requires Apart(source, output) && Under(source, q)
    ensures !Under(output, q)
  {}

  /** What is in output before META-INF is dealt with. */
  ghost predicate Handed(
    t: Tree, v: Tree, source: Path, metadata: Path, output: Path, inject: Content -> Option<Content>)
  {
    && OnlyUnder(t, v, output)
    && (exists c :: ConnectionFor(t, source, metadata, inject) == Some(c) && FileWith(v, output + [ConnectionJson], c))
    && (FileAt(t, metadata + [MetadataJson]) ==>
          FileWith(v, output + [MetadataJson], t[metadata + [MetadataJson]].content))
    && AllHanded(t, v, metadata, output) && HandedAt(t, v, metadata, output, output + [MetaInfTar])
    && (output + [MetaInfTar] !in t && metadata + [MetaInfTar] !in t ==> output + [MetaInfTar] !in v)
    && (FileOrFree(t, metadata, output, MetaInfTar) && output + [MetaInfTar] in v ==> FileAt(v, output + [MetaInfTar]))
  }

  lemma {:induction false} HandedName(
    t: Tree, u: Tree, v: Tree, metadata: Path, output: Path, umask: Mode, n: string)
    requires Apart(metadata, output) && SameBut(t, u, iset{output + [ConnectionJson], output})
    requires Copied(u, v, metadata, output, AllNames, umask)
    ensures metadata + [n] in u <==> metadata + [n] in t
    ensures metadata + [n] in t ==> u[metadata + [n]] == t[metadata + [n]]
    ensures FileAt(t, metadata + [n]) ==> FileWith(v, output + [n], t[metadata + [n]].content)
    ensures n != ConnectionJson && metadata + [n] !in t && output + [n] !in t ==> output + [n] !in v
    ensures metadata + [n] !in t && FileAt(u, output + [n]) ==> FileWith(v, output + [n], u[output + [n]].content)
    ensures FileAt(u, output + [n]) ==> metadata + [n] !in t || FileAt(t, metadata + [n])
    ensures n != ConnectionJson && FileOrFree(t, metadata, output, n) && output + [n] in v ==> FileAt(v, output + [n])
  {
    assert (output + [n])[|output|] == n && (output + [ConnectionJson])[|output|] == ConnectionJson;
    assert Under(output, output + [ConnectionJson]) && Under(output, output);
    OutsideOutput(metadata, output, n);
    CopiedChild(u, v, metadata, output, umask, n);
  }

  lemma {:induction false} HandedFiles(
    t: Tree, u: Tree, v: Tree, source: Path, metadata: Path, output: Path, inject: Content -> Option<Content>,
    umask: Mode)
    requires ExternalLayout(t, source, metadata, output) && HandedOver(t, u, v, source, metadata, output, inject, umask)
    ensures Handed(t, v, source, metadata, output, inject)
  {
    FileNamesDiffer();
    HandedName(t, u, v, metadata, output, umask, ConnectionJson);
    HandedName(t, u, v, metadata, output, umask, MetadataJson);
    HandedName(t, u, v, metadata, output, umask, MetaInfTar);
    assert FileWith(v, output + [ConnectionJson], v[output + [ConnectionJson]].content);
    OnlyPutIn(t, u, output, ConnectionJson);
    OnlyUnderTwice(t, u, v, output);
    CopyHandsAll(t, u, v, metadata, output, umask);
  }

  lemma {:induction false} CopyHandsAll(t: Tree, u: Tree, v: Tree, metadata: Path, output: Path, umask: Mode)
    requires Apart(metadata, output) && SameBut(t, u, iset{output + [ConnectionJson], output})
    requires Copied(u, v, metadata, output, AllNames, umask)
    ensures AllHanded(t, v, metadata, output) && HandedAt(t, v, metadata, output, output + [MetaInfTar])
  {
    forall q | Under(output, q) && q != output ensures HandedAt(t, v, metadata, output, q) {
      CopyHands(t, u, v, metadata, output, umask, q);
    }
  }

  lemma {:induction false} CopyHands(
    t: Tree, u: Tree, v: Tree, metadata: Path, output: Path, umask: Mode, q: Path)
    requires Apart(metadata, output) && SameBut(t, u, iset{output + [ConnectionJson], output})
    requires Copied(u, v, metadata, output, AllNames, umask) && Under(output, q) && q != output
    ensures HandedAt(t, v, metadata, output, q)
  {
    var s := Source(metadata, output, q);
    assert Under(metadata, s);
    ApartBelow(metadata, output, s);
    assert Under(output, output + [ConnectionJson]) && Under(output, output);
    assert CopyAt(u, v, metadata, output, AllNames, umask, q);
    assert !Under(q, output);
  }

  lemma {:induction false} HandedFrameToo(t: Tree, v: Tree, w: Tree, output: Path, n: string)
    requires OnlyUnder(t, v, output) && SameBut(v, w, iset{output + [n], output})
    ensures OnlyUnder(t, w, output)
    ensures forall m: string | m != n ::
              && (output + [m] in w <==> output + [m] in v)
              && (output + [m] in v ==> w[output + [m]] == v[output + [m]])
  {
    assert Under(output, output + [n]) && Under(output, output);
    forall m: string | m != n ensures output + [m] != output + [n] {
      assert (output + [m])[|output|] == m && (output + [n])[|output|] == n;
    }
  }

  lemma {:induction false} MetaInfUntouched(t: Tree, v: Tree, source: Path, output: Path, c: Content)
    requires Apart(source, output) && OnlyUnder(t, v, output) && ArchiveOf(v, source + [MetaInf], c)
    ensures ArchiveOf(t, source + [MetaInf], c)
  {
    forall q | Under(source + [MetaInf], q) ensures !Under(output, q) {
      assert Under(source, q);
      ApartBelow(source, output, q);
    }
    ArchiveMoves(v, t, source + [MetaInf], c);
  }

  /** The rewritten connection file does not get in the way of the metadata. */
  lemma {:induction false} CompatibleStill(t: Tree, u: Tree, metadata: Path, output: Path)
    requires Compatible(t, metadata, output) && Apart(metadata, output)
    requires FileOrFree(t, metadata, output, ConnectionJson)
    requires SameBut(t, u, iset{output + [ConnectionJson], output}) && FileAt(u, output + [ConnectionJson])
    requires IsDirectory(u, output)
    ensures Compatible(u, metadata, output)
  {
    var p := output + [ConnectionJson];
    assert Under(output, p) && Under(output, output);
    forall q | Under(metadata, q) ensures (q in u <==> q in t) && (q in t ==> u[q] == t[q]) {
      ApartBelow(metadata, output, q);
    }
    assert Under(metadata, metadata) && Source(metadata, output, p) == metadata + [ConnectionJson];
    forall q | q in u && Copies(u, metadata, output, AllNames, q)
      ensures SameKind(u[q], u[Source(metadata, output, q)])
    {
      assert Under(metadata, Source(metadata, output, q));
      assert q != p ==> Copies(t, metadata, output, AllNames, q);
    }
  }

  /** Nothing keeps META-INF from being archived. */
  lemma {:induction false} MetaInfArchivable(
    t: Tree, v: Tree, source: Path, metadata: Path, output: Path, inject: Content -> Option<Content>)
    requires ExternalLayout(t, source, metadata, output) && Handed(t, v, source, metadata, output, inject)
    requires Handable(t, source, metadata, output, inject) && IsDirectory(v, output)
    requires IsDirectory(t, source + [MetaInf])
    requires !Under(source + [MetaInf], output + [MetaInfTar])
    ensures Archivable(v, output + [MetaInfTar], source + [MetaInf])
  {
    assert Parent(output + [MetaInfTar]) == output;
    forall q | Under(source + [MetaInf], q) ensures !Under(output, q) {
      assert Under(source, q);
      ApartBelow(source, output, q);
    }
    assert Under(source + [MetaInf], source + [MetaInf]);
  }

  lemma {:induction false} AllHandedStill(t: Tree, v: Tree, w: Tree, metadata: Path, output: Path)
    requires AllHanded(t, v, metadata, output) && SameBut(v, w, iset{output + [MetaInfTar], output})
    ensures AllHanded(t, w, metadata, output)
  {
    forall q | Under(output, q) && q != output && q != output + [MetaInfTar]
      ensures HandedAt(t, w, metadata, output, q)
    {
      assert HandedAt(t, v, metadata, output, q);
    }
  }

  lemma {:induction false} ArchiveHanded(
    t: Tree, v: Tree, w: Tree, source: Path, metadata: Path, output: Path, inject: Content -> Option<Content>,
    reliable: bool)
    requires ExternalLayout(t, source, metadata, output) && Handed(t, v, source, metadata, output, inject)
    requires Rewritten(v, w, output + [MetaInfTar]) && FileAt(w, output + [MetaInfTar])
    requires IsDirectory(t, source + [MetaInf])
    requires ArchiveOf(v, source + [MetaInf], w[output + [MetaInfTar]].content)
    ensures BuiltExternal(t, w, source, metadata, output, inject, reliable)
  {
    FileNamesDiffer();
    assert Parent(output + [MetaInfTar]) == output;
    HandedFrameToo(t, v, w, output, MetaInfTar);
    var c :| ConnectionFor(t, source, metadata, inject) == Some(c) && FileWith(v, output + [ConnectionJson], c);
    assert FileWith(w, output + [ConnectionJson], c);
    MetaInfUntouched(t, v, source, output, w[output + [MetaInfTar]].content);
    AllHandedStill(t, v, w, metadata, output);
  }

  lemma {:induction false} SameDirectory(t: Tree, v: Tree, source: Path, output: Path)
    requires Apart(source, output) && OnlyUnder(t, v, output)
    ensures IsDirectory(v, source + [MetaInf]) <==> IsDirectory(t, source + [MetaInf])
  {
    OutsideOutput(source, output, MetaInf);
  }

  /** The archive of META-INF. */
  method PackMetaInf(
    disk: Disk, source: Path, ghost metadata: Path, output: Path, ghost inject: Content -> Option<Content>,
    ghost t: Tree)
    returns (ok: bool)
    requires ExternalLayout(t, source, metadata, output) && Handed(t, disk.tree, source, metadata, output, inject)
    requires WellFormed(disk.tree) && PlainPath(output) && IsDirectory(disk.tree, output)
    requires IsDirectory(t, source + [MetaInf])
    modifies disk`tree
    ensures WellFormed(disk.tree) && OnlyUnder(t, disk.tree, output) && IsDirectory(disk.tree, output)
    ensures ok ==> BuiltExternal(t, disk.tree, source, metadata, output, inject, disk.reliable)
    ensures disk.reliable && Handable(t, source, metadata, output, inject) ==> ok
  {
    ghost var v := disk.tree;
    OutsideOutput(source, output, MetaInf);
    var p := output + [MetaInfTar];
    assert Parent(p) == output;
    NeverReaches(source + [MetaInf], output, MetaInfTar);
    if Handable(t, source, metadata, output, inject) { MetaInfArchivable(t, v, source, metadata, output, inject); }
    ok := CreateTarFile(disk, p, source + [MetaInf]);
    OnlyPutIn(v, disk.tree, output, MetaInfTar);
    OnlyUnderTwice(t, v, disk.tree, output);
    if ok { ArchiveHanded(t, v, disk.tree, source, metadata, output, inject, disk.reliable); }
  }

  /** The archive of META-INF, if there is a META-INF directory. */
  method HandMetaInf(
    disk: Disk, source: Path, metadata: Path, output: Path, inject: Content -> Option<Content>, ghost t: Tree)
    returns (ok: bool)
    requires ExternalLayout(t, source, metadata, output) && Handed(t, disk.tree, source, metadata, output, inject)
    requires WellFormed(disk.tree) && PlainPath(output) && IsDirectory(disk.tree, output)
    modifies disk`tree
    ensures WellFormed(disk.tree) && OnlyUnder(t, disk.tree, output) && IsDirectory(disk.tree, output)
    ensures ok ==> BuiltExternal(t, disk.tree, source, metadata, output, inject, disk.reliable)
    ensures disk.reliable && Handable(t, source, metadata, output, inject) ==> ok
  {
    var packed := DirExists(disk, source + [MetaInf]);
    SameDirectory(t, disk.tree, source, output);
    if !packed { return true; }
    ok := PackMetaInf(disk, source, metadata, output, inject, t);
  }

  /** Build.HandleExternalCC; inject rewrites the connection file. */
  method BuildExternal(
    disk: Disk, source: Path, metadata: Path, output: Path, inject: Content -> Option<Content>)
    returns (ok: bool)
    requires ExternalLayout(disk.tree, source, metadata, output)
    modifies disk`tree
    ensures WellFormed(disk.tree) && OnlyUnder(old(disk.tree), disk.tree, output) && IsDirectory(disk.tree, output)
    ensures ok ==> BuiltExternal(old(disk.tree), disk.tree, source, metadata, output, inject, disk.reliable)
    ensures disk.reliable && Handable(old(disk.tree), source, metadata, output, inject) ==> ok
  {
    ghost var t := disk.tree;
    var connection := output + [ConnectionJson];
    assert Parent(connection) == output;
    if source + [ConnectionJson] !in disk.tree { return false; }
    ok := UpdateFile(disk, source + [ConnectionJson], connection, inject);
    ghost var u := disk.tree;
    PlacedChanges(t, u, connection);
    OnlyPutIn(t, u, output, ConnectionJson);
    if !ok { return; }
    if Handable(t, source, metadata, output, inject) { CompatibleStill(t, u, metadata, output); }
    ok := CopyDir(disk, metadata, output);
    OnlyUnderTwice(t, u, disk.tree, output);
    if !ok { return; }
    HandedFiles(t, u, disk.tree, source, metadata, output, inject, disk.umask);
    ok := HandMetaInf(disk, source, metadata, output, inject, t);
  }
}
