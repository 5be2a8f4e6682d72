/** The build command for a package the sidecar builds: stage, call, copy out, clean up. */
module BuildCommand {
  import opened Common
  import opened FileSystem
  import opened Archive
  import opened Copy
  import opened RoundTrip
  import opened Staging
  import opened Client

  const SourceTar: string := "chaincode-source.tar"
  const MetaInfTar: string := "chaincode-metadata.tar"
  const PackageTar: string := "package-metadata.tar"
  const OutputTar: string := "chaincode-output.tar"
  const MetaInf: string := "META-INF"

  lemma {:induction false} NamesDiffer()
    ensures SourceTar != MetaInfTar && SourceTar != PackageTar && SourceTar != OutputTar
    ensures MetaInfTar != PackageTar && MetaInfTar != OutputTar && PackageTar != OutputTar
    ensures MetadataJson !in {SourceTar, MetaInfTar, PackageTar, OutputTar}
  {}

  /** What the sidecar does with a request: whether it takes it, its response stream, and the file it leaves behind. */
  datatype Reply = Reply(taken: bool, responses: seq<Response>, broken: bool, upload: Option<Upload>)

  datatype Upload = Upload(mode: Mode, content: Content)

  /** The sidecar replies to the files it finds in the staging directory. */
  type Sidecar = map<string, Content> -> Reply

  predicate Successful(reply: Reply) { reply.taken && !reply.broken && UnknownMessage !in reply.responses }

  /** What the client prints of a reply, whether it is successful or not. */
  function Printout(reply: Reply): string {
    if reply.taken then Concat(Texts(Understood(reply.responses))) else ""
  }

  function NamesIn(t: Tree, dir: Path): set<string> {
    set p | p in t && |p| == |dir| + 1 && Under(dir, p) :: p[|dir|]
  }

  /** The contents of what is in a directory, by name. */
  function Shown(t: Tree, dir: Path): map<string, Content> {
    map n | n in NamesIn(t, dir) :: if dir + [n] in t && t[dir + [n]].File? then t[dir + [n]].content else Nothing
  }

  lemma {:induction false} ShownIs(t: Tree, dir: Path, files: map<string, Content>)
    requires Holds(t, dir, files)
    ensures Shown(t, dir) == files
  {
    forall n ensures n in NamesIn(t, dir) <==> n in files {
      if n in NamesIn(t, dir) {
        var p :| p in t && |p| == |dir| + 1 && Under(dir, p) && p[|dir|] == n;
        assert p == dir + [n];
      }
      assert Under(dir, dir + [n]) && (dir + [n])[|dir|] == n;
    }
  }

  /** The peer hands over existing directories, and the shared volume lies in none of them. */
  ghost predicate Layout(t: Tree, shared: Path, source: Path, metadata: Path, output: Path) {
    && WellFormed(t)
    && shared in t && t[shared].Dir? && source in t && metadata in t && output in t && t[output].Dir?
    && !Under(source, shared) && !Under(metadata, shared) && !Under(output, shared)
  }

  /** Only what lies in temp differs, and the time of the shared directory. */
  ghost predicate Outside(t: Tree, u: Tree, shared: Path, temp: Path) {
    && SameBut(t, u, (iset q | Under(temp, q)) + iset{shared})
    && shared in t && shared in u && t[shared].Dir? && Kept(t[shared], u[shared])
  }

  /** temp is a new directory in shared. */
  ghost predicate Fresh(t: Tree, shared: Path, temp: Path) {
    WellFormed(t) && temp !in t && temp != [] && Parent(temp) == shared && PlainPath(temp)
  }

  /** The staging directory temp is new and holds these files, and nothing else has changed. */
  ghost predicate Progress(t: Tree, u: Tree, shared: Path, temp: Path, files: map<string, Content>) {
    Fresh(t, shared, temp) && WellFormed(u) && Outside(t, u, shared, temp) && Holds(u, temp, files)
  }

  /** A directory that was there and does not contain the shared one is not affected by staging. */
  lemma {:induction false} Untouched(t: Tree, u: Tree, shared: Path, temp: Path, src: Path)
    requires Fresh(t, shared, temp) && Outside(t, u, shared, temp) && src in t && !Under(src, shared)
    ensures SameBelow(t, u, src) && SameBelow(u, t, src) && src in u
    ensures !Under(src, temp) && !Under(temp, src)
    ensures NoSpecialBelow(t, src) <==> NoSpecialBelow(u, src)
  {
    NothingUnderMissing(t, temp);
    if Under(src, temp) { UnderParent(src, temp); }
    forall q | Under(src, q) ensures !Under(temp, q) { BothAbove(src, temp, q); }
    assert Under(src, src);
  }

  lemma {:induction false} OutsideMore(t: Tree, u: Tree, v: Tree, shared: Path, temp: Path, n: string)
    requires Outside(t, u, shared, temp) && Rewritten(u, v, temp + [n]) && temp != [] && Parent(temp) == shared
    ensures Outside(t, v, shared, temp)
  {}

  /** One more archive in the staging directory. */
  method StageTar(
    disk: Disk, temp: Path, n: string, src: Path, ghost t: Tree, ghost shared: Path,
    ghost files: map<string, Content>)
    returns (ok: bool, ghost files': map<string, Content>)
    requires Progress(t, disk.tree, shared, temp, files) && n !in files && Plain(n) && src in t && !Under(src, shared)
    modifies disk`tree
    ensures WellFormed(disk.tree) && Outside(t, disk.tree, shared, temp)
    ensures ok ==> Progress(t, disk.tree, shared, temp, files')
    ensures ok ==> n in files' && files' == files[n := files'[n]] && ArchiveOf(t, src, files'[n])
    ensures disk.reliable && NoSpecialBelow(t, src) ==> ok
  {
    ghost var u := disk.tree;
    var target := temp + [n];
    assert Parent(target) == temp;
    Untouched(t, u, shared, temp, src);
    NeverReaches(src, temp, n);
    assert target !in u;
    ok := CreateTarFile(disk, target, src);
    OutsideMore(t, u, disk.tree, shared, temp, n);
    files' := files;
    if ok {
      ArchiveMoves(u, t, src, disk.tree[target].content);
      HoldsMore(u, disk.tree, temp, files, n);
      files' := files[n := disk.tree[target].content];
    }
  }

  lemma {:induction false} NeverReaches(src: Path, temp: Path, n: string)
    requires !Under(src, temp) && !Under(temp, src)
    ensures !Under(src, temp + [n])
  {}

  ghost predicate ArchivedAs(t: Tree, src: Path, files: map<string, Content>, n: string) {
    n in files && ArchiveOf(t, src, files[n])
  }

  /** META-INF is archived if it is a directory, or could not be examined. */
  ghost predicate MetaInfPacked(t: Tree, source: Path, files: map<string, Content>, reliable: bool) {
    && (MetaInfTar in files ==>
          IsDirectory(t, source + [MetaInf]) && ArchivedAs(t, source + [MetaInf], files, MetaInfTar))
    && (reliable && IsDirectory(t, source + [MetaInf]) ==> MetaInfTar in files)
  }

  /** The archives of a package are among files. */
  ghost predicate Packed(t: Tree, source: Path, metadata: Path, files: map<string, Content>, reliable: bool) {
    && ArchivedAs(t, source, files, SourceTar)
    && ArchivedAs(t, metadata, files, PackageTar)
    && MetaInfPacked(t, source, files, reliable)
  }

  predicate IsDirectory(t: Tree, p: Path) { p in t && t[p].Dir? }

  /** dirExists: a directory that cannot be examined counts as missing. */
  method DirExists(disk: Disk, p: Path) returns (yes: bool)
    ensures yes ==> IsDirectory(disk.tree, p)
    ensures disk.reliable && IsDirectory(disk.tree, p) ==> yes
  {
    yes := p in disk.tree && disk.tree[p].Dir?;
    if yes && !disk.reliable { yes := *; }
  }

  lemma {:induction false} InnerClean(t: Tree, source: Path, n: string)
    requires NoSpecialBelow(t, source)
    ensures NoSpecialBelow(t, source + [n])
  {}

  lemma {:induction false} InnerApart(source: Path, shared: Path, n: string)
    requires !Under(source, shared)
    ensures !Under(source + [n], shared)
  {}

  /** The META-INF directory of the source, if there is one. */
  method StageMetaInf(
    disk: Disk, temp: Path, source: Path, ghost t: Tree, ghost shared: Path, ghost files: map<string, Content>)
    returns (ok: bool, ghost files': map<string, Content>)
    requires Progress(t, disk.tree, shared, temp, files) && MetaInfTar !in files && source in t
    requires !Under(source, shared)
    modifies disk`tree
    ensures WellFormed(disk.tree) && Outside(t, disk.tree, shared, temp)
    ensures ok ==> Progress(t, disk.tree, shared, temp, files')
    ensures ok ==> MetaInfPacked(t, source, files', disk.reliable)
    ensures ok ==> files' == files || (MetaInfTar in files' && files' == files[MetaInfTar := files'[MetaInfTar]])
    ensures disk.reliable && NoSpecialBelow(t, source) ==> ok
  {
    files' := files;
    Untouched(t, disk.tree, shared, temp, source);
    assert Under(source, source + [MetaInf]);
    var packed := DirExists(disk, source + [MetaInf]);
    if !packed { return true, files; }
    InnerApart(source, shared, MetaInf);
    if NoSpecialBelow(t, source) { InnerClean(t, source, MetaInf); }
    ok, files' := StageTar(disk, temp, MetaInfTar, source + [MetaInf], t, shared, files);
  }

  /** The source, and its META-INF directory if there is one. */
  method StageSource(disk: Disk, temp: Path, source: Path, ghost t: Tree, ghost shared: Path)
    returns (ok: bool, ghost files: map<string, Content>)
    requires Progress(t, disk.tree, shared, temp, map[]) && source in t && !Under(source, shared)
    modifies disk`tree
    ensures WellFormed(disk.tree) && Outside(t, disk.tree, shared, temp)
    ensures ok ==> Progress(t, disk.tree, shared, temp, files) && files.Keys <= {SourceTar, MetaInfTar}
    ensures ok ==> ArchivedAs(t, source, files, SourceTar) && MetaInfPacked(t, source, files, disk.reliable)
    ensures disk.reliable && NoSpecialBelow(t, source) ==> ok
  {
    NamesDiffer();
    files := map[];
    ok, files := StageTar(disk, temp, SourceTar, source, t, shared, files);
    if !ok { return; }
    ok, files := StageMetaInf(disk, temp, source, t, shared, files);
  }

  lemma {:induction false} PackedUp(
    t: Tree, source: Path, metadata: Path, files: map<string, Content>, files': map<string, Content>, reliable: bool)
    requires files.Keys <= {SourceTar, MetaInfTar}
    requires ArchivedAs(t, source, files, SourceTar) && MetaInfPacked(t, source, files, reliable)
    requires ArchivedAs(t, metadata, files', PackageTar) && files' == files[PackageTar := files'[PackageTar]]
    ensures Packed(t, source, metadata, files', reliable)
    ensures files'.Keys <= {SourceTar, PackageTar, MetaInfTar} && OutputTar !in files'
  {
    NamesDiffer();
  }

  /** The metadata, next to the source. */
  method StagePackage(
    disk: Disk, temp: Path, ghost source: Path, metadata: Path, ghost t: Tree, ghost shared: Path,
    ghost files: map<string, Content>)
    returns (ok: bool, ghost files': map<string, Content>)
    requires Progress(t, disk.tree, shared, temp, files) && metadata in t && !Under(metadata, shared)
    requires files.Keys <= {SourceTar, MetaInfTar}
    requires ArchivedAs(t, source, files, SourceTar) && MetaInfPacked(t, source, files, disk.reliable)
    modifies disk`tree
    ensures WellFormed(disk.tree) && Outside(t, disk.tree, shared, temp)
    ensures ok ==> Progress(t, disk.tree, shared, temp, files')
    ensures ok ==> files'.Keys <= {SourceTar, PackageTar, MetaInfTar} && OutputTar !in files'
    ensures ok ==> Packed(t, source, metadata, files', disk.reliable)
    ensures disk.reliable && NoSpecialBelow(t, metadata) ==> ok
  {
    NamesDiffer();
    ok, files' := StageTar(disk, temp, PackageTar, metadata, t, shared, files);
    if ok { PackedUp(t, source, metadata, files, files', disk.reliable); }
  }

  /** Staging: the source, its META-INF directory if there is one, and the metadata, each as an archive. */
  method Stage(
    disk: Disk, temp: Path, source: Path, metadata: Path, ghost t: Tree, ghost shared: Path, ghost output: Path)
    returns (ok: bool, ghost files: map<string, Content>)
    requires Layout(t, shared, source, metadata, output) && Progress(t, disk.tree, shared, temp, map[])
    modifies disk`tree
    ensures WellFormed(disk.tree) && Outside(t, disk.tree, shared, temp)
    ensures ok ==> Progress(t, disk.tree, shared, temp, files)
    ensures ok ==> files.Keys <= {SourceTar, PackageTar, MetaInfTar} && OutputTar !in files
    ensures ok ==> Packed(t, source, metadata, files, disk.reliable)
    ensures disk.reliable && NoSpecialBelow(t, source) && NoSpecialBelow(t, metadata) ==> ok
  {
    ok, files := StageSource(disk, temp, source, t, shared);
    if !ok { return; }
    ok, files := StagePackage(disk, temp, source, metadata, t, shared, files);
  }

  /** What the sidecar does to the staging directory while the client waits: it may add its output. */
  method Serve(
    disk: Disk, temp: Path, upload: Option<Upload>, ghost t: Tree, ghost shared: Path,
    ghost files: map<string, Content>)
    returns (ghost files': map<string, Content>)
    requires Progress(t, disk.tree, shared, temp, files) && OutputTar !in files
    modifies disk`tree
    ensures Progress(t, disk.tree, shared, temp, files')
    ensures OutputTar in files' ==> files' == files[OutputTar := files'[OutputTar]] && upload.Some?
    ensures OutputTar !in files' ==> files' == files
    ensures disk.reliable && upload.Some? ==> OutputTar in files' && files'[OutputTar] == upload.value.content
  {
    files' := files;
    if upload.None? { return; }
    ghost var u := disk.tree;
    var target := temp + [OutputTar];
    assert Parent(target) == temp;
    assert target !in u;
    var ok := disk.OpenTruncated(target, upload.value.mode);
    if !ok { return; }
    PlacedChanges(u, disk.tree, target);
    ok := disk.Write(target, upload.value.content);
    OutsideMore(t, u, disk.tree, shared, temp, OutputTar);
    HoldsMore(u, disk.tree, temp, files, OutputTar);
    files' := files[OutputTar := disk.tree[target].content];
  }

  predicate Among(dir: Path, files: map<string, Content>, q: Path) {
    |q| == |dir| + 1 && Under(dir, q) && q[|dir|] in files
  }

  predicate DeliveredAt(t: Tree, u: Tree, dir: Path, files: map<string, Content>, q: Path) {
    if Among(dir, files, q) then q in u && u[q].File? && u[q].content == files[q[|dir|]]
    else (q in u <==> q in t) && (q in t ==> Kept(t[q], u[q]))
  }

  /** dir got these files, and otherwise kept what it had. */
  ghost predicate Delivered(t: Tree, u: Tree, dir: Path, files: map<string, Content>) {
    IsDirectory(t, dir) && IsDirectory(u, dir) && forall q | Under(dir, q) :: DeliveredAt(t, u, dir, files, q)
  }

  lemma {:induction false} ImagedIsAmong(t: Tree, temp: Path, dir: Path, files: map<string, Content>, q: Path)
    requires WellFormed(t) && Holds(t, temp, files)
    ensures Imaged(t, temp, dir, q) <==> Among(dir, files, q)
    ensures Among(dir, files, q) ==> Source(temp, dir, q) == temp + [q[|dir|]]
  {
    if Imaged(t, temp, dir, q) {
      var s := Source(temp, dir, q);
      assert Under(temp, s);
      NothingDeeper(t, temp, files, s);
      assert s[|temp|] == q[|dir|];
      assert temp + [q[|dir|]] in t;
    }
    assert Among(dir, files, q) ==> Source(temp, dir, q) == temp + [q[|dir|]] && temp + [q[|dir|]] in t;
  }

  lemma {:induction false} CopyDeliversAt(
    t: Tree, u: Tree, temp: Path, dir: Path, files: map<string, Content>, umask: Mode, q: Path)
    requires WellFormed(t) && Holds(t, temp, files) && IsDirectory(t, dir)
    requires Copied(t, u, temp, dir, AllNames, umask)
    ensures DeliveredAt(t, u, dir, files, q)
    ensures !Under(dir, q) ==> (q in u <==> q in t) && (q in t ==> u[q] == t[q])
  {
    CopiedAt(t, u, temp, dir, umask, q);
    ImagedIsAmong(t, temp, dir, files, q);
    if Among(dir, files, q) {
      var n := q[|dir|];
      assert t[temp + [n]].File? && t[temp + [n]].content == files[n];
    }
  }

  /** Copying a staging directory delivers its files, and changes nothing outside the destination. */
  lemma {:induction false} CopyDelivers(
    t: Tree, u: Tree, temp: Path, dir: Path, files: map<string, Content>, umask: Mode)
    requires WellFormed(t) && Holds(t, temp, files) && IsDirectory(t, dir)
    requires Copied(t, u, temp, dir, AllNames, umask)
    ensures Delivered(t, u, dir, files) && OnlyUnder(t, u, dir)
  {
    forall q
      ensures DeliveredAt(t, u, dir, files, q)
      ensures !Under(dir, q) ==> (q in u <==> q in t) && (q in t ==> u[q] == t[q])
    {
      CopyDeliversAt(t, u, temp, dir, files, umask, q);
    }
    assert Under(dir, dir) && DeliveredAt(t, u, dir, files, dir);
  }

  /** A staging directory can be copied into an empty directory. */
  lemma {:induction false} CopyFits(t: Tree, temp: Path, dir: Path, files: map<string, Content>)
    requires WellFormed(t) && Holds(t, temp, files) && IsDirectory(t, dir) && Vacant(t, dir)
    ensures Compatible(t, temp, dir)
  {
    forall q | q in t && Under(temp, q) && q != temp ensures !t[q].Special? {
      NothingDeeper(t, temp, files, q);
    }
  }

  /** What was staged and delivered was delivered to the original tree, and cleaning up does not affect it. */
  lemma {:induction false} DeliveredThen(
    t: Tree, u: Tree, v: Tree, w: Tree, shared: Path, temp: Path, dir: Path, files: map<string, Content>)
    requires Fresh(t, shared, temp) && Outside(t, u, shared, temp) && dir in t && !Under(dir, shared)
    requires Delivered(u, v, dir, files) && SameBut(v, w, (iset q | Under(temp, q)) + iset{shared})
    ensures Delivered(t, w, dir, files)
  {
    Untouched(t, u, shared, temp, dir);
    assert Under(dir, dir);
    forall q | Under(dir, q) ensures (q in v <==> q in w) && (q in v ==> v[q] == w[q]) {
      BothAbove(dir, temp, q);
    }
    forall q | Under(dir, q) ensures DeliveredAt(t, w, dir, files, q) {
      assert DeliveredAt(u, v, dir, files, q);
    }
  }

  /**
   * Where a build may change the tree: in the staging directory and in output, and the time of the shared directory.
   */
  ghost function Scope(shared: Path, temp: Path, output: Path): iset<Path> {
    (iset q | Under(temp, q)) + (iset q | Under(output, q)) + iset{shared}
  }

  /** What the sidecar was shown, of the files there are after its reply. */
  function Request(files: map<string, Content>): map<string, Content> { files - {OutputTar} }

  /** Such a request has the archives of the package and nothing else. */
  ghost predicate StagedFor(
    t: Tree, source: Path, metadata: Path, files: map<string, Content>, reliable: bool)
  {
    Packed(t, source, metadata, files, reliable) && files.Keys <= {SourceTar, PackageTar, MetaInfTar}
  }

  /** The request has the archives of the package, and files adds what the sidecar left in reply to it. */
  ghost predicate Served(
    t: Tree, source: Path, metadata: Path, sidecar: Sidecar, files: map<string, Content>, reliable: bool)
  {
    && StagedFor(t, source, metadata, Request(files), reliable)
    && Uploaded(files, sidecar(Request(files)).upload, reliable)
  }

  /** What a successful build leaves in output: what the sidecar was shown and what it added, having succeeded. */
  ghost predicate Built(
    t: Tree, u: Tree, source: Path, metadata: Path, output: Path, sidecar: Sidecar, files: map<string, Content>,
    reliable: bool)
  {
    && Delivered(t, u, output, files)
    && Served(t, source, metadata, sidecar, files, reliable)
    && Successful(sidecar(Request(files)))
  }

  /** What is known of the archives in a request holds in the files there are after the reply. */
  lemma {:induction false} ServedFiles(
    t: Tree, source: Path, metadata: Path, sidecar: Sidecar, files: map<string, Content>, reliable: bool)
    requires Served(t, source, metadata, sidecar, files, reliable)
    ensures Packed(t, source, metadata, files, reliable)
    ensures files.Keys <= {SourceTar, PackageTar, MetaInfTar, OutputTar}
  {
    NamesDiffer();
  }

  predicate Uploaded(files: map<string, Content>, upload: Option<Upload>, reliable: bool) {
    && (OutputTar in files ==> upload.Some?)
    && (reliable && upload.Some? ==> OutputTar in files && files[OutputTar] == upload.value.content)
  }

  /** Nothing in a package keeps it from being archived. */
  ghost predicate Ordinary(t: Tree, source: Path, metadata: Path) {
    NoSpecialBelow(t, source) && NoSpecialBelow(t, metadata)
  }

  /** And output is empty. */
  ghost predicate Buildable(t: Tree, source: Path, metadata: Path, output: Path) {
    Ordinary(t, source, metadata) && Vacant(t, output)
  }

  /** The sidecar was asked, and everything of its reply was printed. */
  ghost predicate Answered(
    t: Tree, source: Path, metadata: Path, sidecar: Sidecar, files: map<string, Content>, stderr: string)
  {
    StagedFor(t, source, metadata, Request(files), true) && stderr == Printout(sidecar(Request(files)))
  }

  lemma {:induction false} RequestStays(files: map<string, Content>, files': map<string, Content>)
    requires OutputTar !in files
    requires files' == files || (OutputTar in files' && files' == files[OutputTar := files'[OutputTar]])
    ensures Request(files') == files
  {}

  lemma {:induction false} CopyOutApart(t: Tree, u: Tree, shared: Path, temp: Path, output: Path)
    requires Fresh(t, shared, temp) && Outside(t, u, shared, temp) && output in t && !Under(output, shared)
    ensures Apart(temp, output)
    ensures IsDirectory(t, output) ==> IsDirectory(u, output)
    ensures Vacant(t, output) ==> Vacant(u, output)
  {
    Untouched(t, u, shared, temp, output);
    assert Under(output, output);
  }

  lemma {:induction false} StagingGrows(t: Tree, u: Tree, shared: Path, temp: Path)
    requires Fresh(t, shared, temp) && Outside(t, u, shared, temp)
    ensures Grows(t, u)
  {
    NothingUnderMissing(t, temp);
  }

  /** Removing the staging directory takes away nothing that was there before. */
  lemma {:induction false} CleanedUp(t: Tree, v: Tree, w: Tree, shared: Path, temp: Path, output: Path)
    requires Fresh(t, shared, temp) && Grows(t, v) && SameBut(t, v, Scope(shared, temp, output))
    requires shared in t && shared in v && shared in w && Kept(t[shared], v[shared]) && Kept(v[shared], w[shared])
    requires SameBut(v, w, (iset q | Under(temp, q)) + iset{shared})
    ensures Grows(t, w) && SameBut(t, w, Scope(shared, temp, output)) && Kept(t[shared], w[shared])
  {
    NothingUnderMissing(t, temp);
  }

  /** Copying the staging directory out. */
  method CopyOut(
    disk: Disk, temp: Path, output: Path, ghost t: Tree, ghost shared: Path, ghost files: map<string, Content>)
    returns (ok: bool)
    requires Progress(t, disk.tree, shared, temp, files)
    requires IsDirectory(t, output) && !Under(output, shared) && PlainPath(output)
    modifies disk`tree
    ensures WellFormed(disk.tree) && SameBut(t, disk.tree, Scope(shared, temp, output)) && Grows(t, disk.tree)
    ensures shared in disk.tree && Kept(t[shared], disk.tree[shared])
    ensures ok ==> Delivered(old(disk.tree), disk.tree, output, files)
    ensures disk.reliable && Vacant(t, output) ==> ok
  {
    ghost var u := disk.tree;
    CopyOutApart(t, u, shared, temp, output);
    StagingGrows(t, u, shared, temp);
    if Vacant(t, output) { CopyFits(u, temp, output, files); }
    ok := CopyDir(disk, temp, output);
    if ok { CopyDelivers(u, disk.tree, temp, output, files, disk.umask); }
  }

  /** The archives and the request, and what the sidecar adds. */
  method StageAndServe(
    disk: Disk, temp: Path, source: Path, metadata: Path, sidecar: Sidecar, ghost t: Tree, ghost shared: Path,
    ghost output: Path)
    returns (ok: bool, reply: Reply, ghost files: map<string, Content>)
    requires Layout(t, shared, source, metadata, output) && Progress(t, disk.tree, shared, temp, map[])
    modifies disk`tree
    ensures WellFormed(disk.tree) && Outside(t, disk.tree, shared, temp)
    ensures ok ==> Progress(t, disk.tree, shared, temp, files)
    ensures ok ==> Served(t, source, metadata, sidecar, files, disk.reliable)
    ensures ok ==> reply == sidecar(Request(files)) && reply.taken
    ensures disk.reliable && Ordinary(t, source, metadata) ==>
              StagedFor(t, source, metadata, Request(files), true) && (ok <==> sidecar(Request(files)).taken)
  {
    reply := Reply(false, [], false, None);
    ok, files := Stage(disk, temp, source, metadata, t, shared, output);
    if !ok { return; }
    ShownIs(disk.tree, temp, files);
    reply := sidecar(Shown(disk.tree, temp));
    RequestStays(files, files);
    if !reply.taken { return false, reply, files; }
    ghost var staged := files;
    files := Serve(disk, temp, reply.upload, t, shared, files);
    RequestStays(staged, files);
  }

  /** The archives, the call, the responses and the copy out, in a staging directory that is there. */
  method BuildIn(
    disk: Disk, temp: Path, source: Path, metadata: Path, output: Path, sidecar: Sidecar, ghost t: Tree,
    ghost shared: Path)
    returns (ok: bool, stderr: string, ghost files: map<string, Content>, ghost u: Tree)
    requires Layout(t, shared, source, metadata, output) && Progress(t, disk.tree, shared, temp, map[])
    requires PlainPath(output)
    modifies disk`tree
    ensures WellFormed(disk.tree) && SameBut(t, disk.tree, Scope(shared, temp, output)) && Grows(t, disk.tree)
    ensures shared in disk.tree && Kept(t[shared], disk.tree[shared])
    ensures ok ==> Outside(t, u, shared, temp) && Delivered(u, disk.tree, output, files)
    ensures ok ==> Served(t, source, metadata, sidecar, files, disk.reliable)
    ensures ok ==> Successful(sidecar(Request(files))) && stderr == Printout(sidecar(Request(files)))
    ensures disk.reliable && Ordinary(t, source, metadata) ==> Answered(t, source, metadata, sidecar, files, stderr)
    ensures disk.reliable && Buildable(t, source, metadata, output) ==> (ok <==> Successful(sidecar(Request(files))))
  {
    stderr := "";
    var reply;
    ok, reply, files := StageAndServe(disk, temp, source, metadata, sidecar, t, shared, output);
    u := disk.tree;
    StagingGrows(t, u, shared, temp);
    if !ok { return; }
    ok, stderr := Receive(reply.responses, reply.broken);
    if !ok { return; }
    ok := CopyOut(disk, temp, output, t, shared, files);
  }

  /** The same, and removing the staging directory on every exit. */
  method BuildStaged(
    disk: Disk, temp: Path, source: Path, metadata: Path, output: Path, sidecar: Sidecar, ghost t: Tree,
    ghost shared: Path)
    returns (ok: bool, stderr: string, ghost files: map<string, Content>)
    requires Layout(t, shared, source, metadata, output) && Progress(t, disk.tree, shared, temp, map[])
    modifies disk`tree
    ensures WellFormed(disk.tree) && SameBut(t, disk.tree, Scope(shared, temp, output)) && Grows(t, disk.tree)
    ensures shared in disk.tree && Kept(t[shared], disk.tree[shared])
    ensures disk.reliable ==> forall q | q in disk.tree :: !Under(temp, q)
    ensures ok ==> Built(t, disk.tree, source, metadata, output, sidecar, files, disk.reliable)
    ensures ok ==> stderr == Printout(sidecar(Request(files)))
    ensures disk.reliable && Ordinary(t, source, metadata) ==> Answered(t, source, metadata, sidecar, files, stderr)
    ensures disk.reliable && Buildable(t, source, metadata, output) ==> (ok <==> Successful(sidecar(Request(files))))
  {
    ghost var u;
    ok, stderr, files, u := BuildIn(disk, temp, source, metadata, output, sidecar, t, shared);
    ghost var v := disk.tree;
    var removed := disk.RemoveAll(temp);
    CleanedUp(t, v, disk.tree, shared, temp, output);
    if ok { DeliveredThen(t, u, v, disk.tree, shared, temp, output, files); }
  }

  /**
   * Build.Run for a package that is not external. The staging directory is removed on every exit; on a reliable
   * disk the shared directory then has the entries it had, whatever the sidecar did and however the call ended.
   * Whatever it replied is printed, and its success decides on that of the build.
   */
  method BuildInternal(disk: Disk, shared: Path, source: Path, metadata: Path, output: Path, sidecar: Sidecar)
    returns (ok: bool, stderr: string, ghost files: map<string, Content>, ghost temp: Path)
    requires Layout(disk.tree, shared, source, metadata, output)
    modifies disk`tree
    ensures WellFormed(disk.tree) && SameBut(old(disk.tree), disk.tree, Scope(shared, temp, output))
    ensures Grows(old(disk.tree), disk.tree)
    ensures shared in disk.tree && Kept(old(disk.tree)[shared], disk.tree[shared])
    ensures temp !in old(disk.tree) && temp != [] && Parent(temp) == shared
    ensures disk.reliable ==> forall q | q in disk.tree :: !Under(temp, q)
    ensures ok ==> Built(old(disk.tree), disk.tree, source, metadata, output, sidecar, files, disk.reliable)
    ensures ok ==> stderr == Printout(sidecar(Request(files)))
    ensures disk.reliable && Ordinary(old(disk.tree), source, metadata) ==>
              Answered(old(disk.tree), source, metadata, sidecar, files, stderr)
    ensures disk.reliable && Buildable(old(disk.tree), source, metadata, output) ==>
              (ok <==> Successful(sidecar(Request(files))))
  {
    ghost var t := disk.tree;
    var dir;
    ok, dir := disk.TempDir(shared, "build");
    temp, files, stderr := dir, map[], "";
    if !ok {
      ghost var name := FreshName(t, shared, "build");
      temp := shared + [name];
      NothingUnderMissing(t, temp);
      return;
    }
    NothingUnderMissing(t, temp);
    assert Progress(t, disk.tree, shared, temp, map[]);
    ok, stderr, files := BuildStaged(disk, dir, source, metadata, output, sidecar, t, shared);
  }
}
