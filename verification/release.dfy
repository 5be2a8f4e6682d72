/** The release command: server files of an external package, then the META-INF archive. */
module ReleaseCommand {
  import opened Common
  import opened FileSystem
  import opened Extract
  import opened Copy
  import opened Staging
  import opened BuildCommand

  const ConnectionJson: string := "connection.json"

  /** Where the peer looks for the files of an external chaincode server. */
  function ServerDir(release: Path): Path { release + ["chaincode"] + ["server"] }

  /** The entries the tar reader yields, and whether it fails after them. An empty file is an empty archive. */
  function ReadTar(c: Content): (seq<Entry>, bool) {
    match c
    case Tar(es) => (es, false)
    case Raw(bytes) => ([], bytes != [])
  }

  /** There is no META-INF archive in output, or one that can be extracted into release. */
  ghost predicate Presentable(t: Tree, output: Path, release: Path, umask: Mode) {
    var p := output + [MetaInfTar];
    p in t ==> t[p].File? && !ReadTar(t[p].content).1 && AllFit(t, ReadTar(t[p].content).0, release, umask)
  }

  /** u is t with the META-INF archive in output extracted into release, if there is one. */
  ghost predicate Presented(t: Tree, u: Tree, output: Path, release: Path, umask: Mode) {
    var p := output + [MetaInfTar];
    if p in t then t[p].File? && Extracted(t, u, ReadTar(t[p].content).0, release, umask) else u == t
  }

  /** If there is an archive in output, all its entries land in release. */
  ghost predicate LandsInside(t: Tree, output: Path, release: Path) {
    var p := output + [MetaInfTar];
    p in t && t[p].File? ==> Contained(ReadTar(t[p].content).0, release)
  }

  /** The second half of Release.Run. */
  method Present(disk: Disk, output: Path, release: Path) returns (ok: bool)
    requires WellFormed(disk.tree) && PlainPath(release)
    modifies disk`tree
    ensures WellFormed(disk.tree)
    ensures LandsInside(old(disk.tree), output, release) ==> Confined(old(disk.tree), disk.tree, release)
    ensures ok ==> Presentable(old(disk.tree), output, release, disk.umask)
    ensures ok ==> Presented(old(disk.tree), disk.tree, output, release, disk.umask)
    ensures ok && output + [MetaInfTar] in old(disk.tree) ==>
              match old(disk.tree)[output + [MetaInfTar]].content
              case Raw(bytes) => bytes == []
              case Tar(es) => Extracted(old(disk.tree), disk.tree, es, release, disk.umask)
    ensures disk.reliable && Presentable(old(disk.tree), output, release, disk.umask) ==> ok
  {
    var p := output + [MetaInfTar];
    if p !in disk.tree { return true; }
    ok := disk.tree[p].File?;
    if ok && !disk.reliable { ok := *; }
    if !ok { return; }
    var archive := ReadTar(disk.tree[p].content);
    ok := ExtractTar(disk, archive.0, archive.1, release);
  }

  /** The files an external chaincode server needs have been copied, and only release was touched. */
  ghost predicate ServerFiles(t: Tree, u: Tree, output: Path, release: Path) {
    var d := ServerDir(release);
    && CopiedFile(t, u, output + [ConnectionJson], d + [ConnectionJson])
    && CopiedFile(t, u, output + [MetadataJson], d + [MetadataJson])
    && OnlyUnder(t, u, release)
    && (forall q | q in u && q !in t :: (Under(q, d) && u[q].Dir?) || q in {d + [ConnectionJson], d + [MetadataJson]})
  }

  /** The files are there, and nothing is in the way of their copies. */
  ghost predicate Servable(t: Tree, output: Path, release: Path) {
    Passable(t, ServerDir(release)) && ServableFiles(t, output, release)
  }

  predicate ServableFiles(t: Tree, output: Path, release: Path) {
    var d := ServerDir(release);
    ServableFile(t, output, d, ConnectionJson) && ServableFile(t, output, d, MetadataJson)
  }

  predicate ServableFile(t: Tree, output: Path, d: Path, n: string) {
    output + [n] in t && t[output + [n]].File? && (d + [n] in t ==> t[d + [n]].File?)
  }

  predicate CopiedFile(t: Tree, u: Tree, src: Path, dest: Path) {
    && src in t && t[src].File? && dest in u && u[dest].File?
    && u[dest].content == t[src].content && u[dest].mtime == t[src].mtime
  }

  lemma {:induction false} FileNamesDiffer()
    ensures ConnectionJson != MetadataJson && MetaInfTar !in {ConnectionJson, MetadataJson}
  {}

  lemma {:induction false} ServerDirInside(release: Path)
    ensures Under(release, ServerDir(release)) && Parent(ServerDir(release)) == release + ["chaincode"]
  {}

  /** One of the files copied by Release.HandleExternalCC. */
  method CopyServerFile(disk: Disk, output: Path, release: Path, n: string) returns (ok: bool)
    requires WellFormed(disk.tree) && PlainPath(ServerDir(release) + [n]) && Apart(output, release)
    modifies disk`tree
    ensures WellFormed(disk.tree)
    ensures SameBut(old(disk.tree), disk.tree, iset{ServerDir(release) + [n], ServerDir(release)})
    ensures OnlyUnder(old(disk.tree), disk.tree, release) && (release in old(disk.tree) ==> release in disk.tree)
    ensures ok ==> ServerFileCopied(old(disk.tree), disk.tree, output, release, n)
    ensures ok && IsDirectory(old(disk.tree), ServerDir(release)) ==>
              ServerFileMode(old(disk.tree), disk.tree, output, release, n, disk.umask)
    ensures disk.reliable && ServableFile(old(disk.tree), output, ServerDir(release), n) ==>
              ok || !IsDirectory(old(disk.tree), ServerDir(release))
  {
    var src, dest := output + [n], ServerDir(release) + [n];
    assert Parent(dest) == ServerDir(release);
    ServerDirInside(release);
    assert Under(output, src) && Under(release, dest);
    BothAbove(output, release, src);
    ghost var t := disk.tree;
    ok := CopyFile(disk, src, dest);
    PlacedChanges(t, disk.tree, dest);
    OnlyPutIn(t, disk.tree, ServerDir(release), n);
    OnlyUnderHigher(t, disk.tree, release, ServerDir(release));
  }

  /** The server directory was made in release, and nothing else. */
  ghost predicate ServerDirMade(t: Tree, u: Tree, release: Path) {
    && OnlyUnder(t, u, release) && IsDirectory(u, ServerDir(release))
    && (forall q | q in u && q !in t :: Under(q, ServerDir(release)) && u[q].Dir?)
  }

  /** n was copied into the server directory, and nothing else. */
  ghost predicate ServerFileCopied(t: Tree, u: Tree, output: Path, release: Path, n: string) {
    && CopiedFile(t, u, output + [n], ServerDir(release) + [n]) && IsDirectory(u, ServerDir(release))
    && SameBut(t, u, iset{ServerDir(release) + [n], ServerDir(release)})
  }

  lemma {:induction false} ServerPaths(release: Path)
    ensures var d := ServerDir(release);
      && Under(release, d) && Under(release, d + [MetadataJson]) && Under(release, d + [ConnectionJson])
      && d + [MetadataJson] != d + [ConnectionJson] && Under(d, d)
  {
    var d := ServerDir(release);
    FileNamesDiffer();
    ServerDirInside(release);
    assert (d + [MetadataJson])[|d|] == MetadataJson && (d + [ConnectionJson])[|d|] == ConnectionJson;
  }

  lemma {:induction false} Separate(t: Tree, u: Tree, v: Tree, w: Tree, output: Path, release: Path)
    requires Apart(output, release) && ServerDirMade(t, u, release)
    requires ServerFileCopied(u, v, output, release, ConnectionJson)
    requires ServerFileCopied(v, w, output, release, MetadataJson)
    ensures ServerFiles(t, w, output, release)
  {
    ServerPaths(release);
    OutputOutside(output, release, ConnectionJson);
    OutputOutside(output, release, MetadataJson);
  }

  /** Making the directory leaves the files to be copied, and their places, as they were. */
  lemma {:induction false} StillServable(t: Tree, u: Tree, output: Path, release: Path, n: string)
    requires Apart(output, release) && ServerDirMade(t, u, release) && Grows(t, u)
    requires ServableFile(t, output, ServerDir(release), n)
    ensures ServableFile(u, output, ServerDir(release), n)
  {
    OutputOutside(output, release, n);
  }

  lemma {:induction false} StillServableToo(u: Tree, v: Tree, output: Path, release: Path)
    requires Apart(output, release) && ServerFileCopied(u, v, output, release, ConnectionJson)
    requires ServableFile(u, output, ServerDir(release), MetadataJson)
    ensures ServableFile(v, output, ServerDir(release), MetadataJson)
  {
    ServerPaths(release);
    OutputOutside(output, release, MetadataJson);
  }

  lemma {:induction false} OutputOutside(output: Path, release: Path, n: string)
    requires Apart(output, release)
    ensures !Under(release, output + [n])
  {}

  /** The modes of what is new: 0750 for the directories and those of the sources for the files, under the umask. */
  ghost predicate ServerModes(t: Tree, u: Tree, output: Path, release: Path, umask: Mode) {
    forall q | q in u && q !in t ::
      if Under(q, ServerDir(release)) then u[q].Dir? && u[q].mode == Masked(0x1E8, umask)
      else exists n :: q == ServerDir(release) + [n] && CopiedMode(t, u, output, release, n, umask)
  }

  predicate CopiedMode(t: Tree, u: Tree, output: Path, release: Path, n: string, umask: Mode) {
    var p, q := output + [n], ServerDir(release) + [n];
    p in t && t[p].File? && q in u && u[q].File? && u[q].mode == Masked(t[p].mode, umask)
  }

  ghost predicate NewMode(t: Tree, u: Tree, mode: Mode) {
    forall q | q in u && q !in t :: u[q].Dir? && u[q].mode == mode
  }

  /** The server directory keeps its mode, and the file has that of its source if it is new. */
  ghost predicate ServerFileMode(t: Tree, u: Tree, output: Path, release: Path, n: string, umask: Mode) {
    var d := ServerDir(release);
    && Grows(t, u) && IsDirectory(t, d) && IsDirectory(u, d) && u[d].mode == t[d].mode
    && (d + [n] !in t ==> CopiedMode(t, u, output, release, n, umask))
  }

  lemma {:induction false} ModesOfBoth(
    t: Tree, u: Tree, v: Tree, w: Tree, output: Path, release: Path, umask: Mode)
    requires Apart(output, release) && ServerDirMade(t, u, release)
    requires NewMode(t, u, Masked(0x1E8, umask))
    requires ServerFileCopied(u, v, output, release, ConnectionJson)
    requires ServerFileCopied(v, w, output, release, MetadataJson)
    requires ServerFileMode(u, v, output, release, ConnectionJson, umask)
    requires ServerFileMode(v, w, output, release, MetadataJson, umask)
    ensures ServerModes(t, w, output, release, umask)
  {
    ServerPaths(release);
    OutputOutside(output, release, ConnectionJson);
    OutputOutside(output, release, MetadataJson);
    forall q | q in w && q !in t && !Under(q, ServerDir(release))
      ensures exists n :: q == ServerDir(release) + [n] && CopiedMode(t, w, output, release, n, umask)
    {
      if q == ServerDir(release) + [ConnectionJson] {
        assert CopiedMode(t, w, output, release, ConnectionJson, umask);
      } else {
        assert q == ServerDir(release) + [MetadataJson];
        assert CopiedMode(t, w, output, release, MetadataJson, umask);
      }
    }
  }

  /** The directory for the server files. */
  method MakeServerDir(disk: Disk, release: Path) returns (ok: bool)
    requires WellFormed(disk.tree) && release in disk.tree
    modifies disk`tree
    ensures WellFormed(disk.tree) && OnlyUnder(old(disk.tree), disk.tree, release) && Grows(old(disk.tree), disk.tree)
    ensures ok ==> ServerDirMade(old(disk.tree), disk.tree, release)
    ensures NewMode(old(disk.tree), disk.tree, Masked(0x1E8, disk.umask))
    ensures disk.reliable && Passable(old(disk.tree), ServerDir(release)) ==> ok
  {
    ghost var t := disk.tree;
    ServerDirInside(release);
    ok := disk.MkdirAll(ServerDir(release), 0x1E8);
    DirsConfined(t, disk.tree, release, ServerDir(release), Masked(0x1E8, disk.umask));
  }

  /** Both files. */
  method CopyServerFiles(disk: Disk, output: Path, release: Path, ghost t: Tree) returns (ok: bool)
    requires WellFormed(disk.tree) && WellFormed(t) && Apart(output, release) && ServerDirMade(t, disk.tree, release)
    requires release in disk.tree && NewMode(t, disk.tree, Masked(0x1E8, disk.umask))
    modifies disk`tree
    ensures WellFormed(disk.tree) && OnlyUnder(old(disk.tree), disk.tree, release) && release in disk.tree
    ensures ok ==> ServerFiles(t, disk.tree, output, release)
    ensures ok ==> ServerModes(t, disk.tree, output, release, disk.umask)
    ensures disk.reliable && ServableFiles(old(disk.tree), output, release) ==> ok
  {
    ghost var u := disk.tree;
    ServerPaths(release);
    ok := CopyServerFile(disk, output, release, ConnectionJson);
    if !ok { return; }
    ghost var v := disk.tree;
    if ServableFiles(u, output, release) { StillServableToo(u, v, output, release); }
    ok := CopyServerFile(disk, output, release, MetadataJson);
    OnlyUnderTwice(u, v, disk.tree, release);
    if ok {
      Separate(t, u, v, disk.tree, output, release);
      ModesOfBoth(t, u, v, disk.tree, output, release, disk.umask);
    }
  }

  /** Release.HandleExternalCC. */
  method ReleaseExternal(disk: Disk, output: Path, release: Path) returns (ok: bool)
    requires WellFormed(disk.tree) && release in disk.tree && Apart(output, release)
    modifies disk`tree
    ensures WellFormed(disk.tree) && OnlyUnder(old(disk.tree), disk.tree, release) && release in disk.tree
    ensures ok ==> ServerFiles(old(disk.tree), disk.tree, output, release)
    ensures ok ==> ServerModes(old(disk.tree), disk.tree, output, release, disk.umask)
    ensures disk.reliable && Servable(old(disk.tree), output, release) ==> ok
  {
    ghost var t := disk.tree;
    if output + [ConnectionJson] !in disk.tree { return false; }
    ok := MakeServerDir(disk, release);
    if !ok { return; }
    ghost var u := disk.tree;
    if Servable(t, output, release) {
      StillServable(t, u, output, release, ConnectionJson);
      StillServable(t, u, output, release, MetadataJson);
    }
    ok := CopyServerFiles(disk, output, release, t);
    OnlyUnderTwice(t, u, disk.tree, release);
  }

  /** The server files do not change what the archive holds, so neither half changes anything outside release. */
  lemma {:induction false} StaysIn(t: Tree, mid: Tree, u: Tree, output: Path, release: Path)
    requires release in mid && Apart(output, release) && OnlyUnder(t, mid, release)
    requires LandsInside(mid, output, release) ==> Confined(mid, u, release)
    ensures LandsInside(t, output, release) ==> OnlyUnder(t, u, release)
  {
    OutputOutside(output, release, MetaInfTar);
    if LandsInside(t, output, release) { OnlyUnderTwice(t, mid, u, release); }
  }

  /** Release.Run. mid is the tree between its two halves. */
  method Release(disk: Disk, output: Path, release: Path, typeOf: Content -> Option<string>)
    returns (ok: bool, verdict: Verdict, ghost mid: Tree)
    requires WellFormed(disk.tree) && release in disk.tree && Apart(output, release)
    modifies disk`tree
    ensures WellFormed(disk.tree) && WellFormed(mid)
    ensures LandsInside(old(disk.tree), output, release) ==> OnlyUnder(old(disk.tree), disk.tree, release)
    ensures verdict == VerdictOn(old(disk.tree), output, typeOf) || (verdict == Internal && !disk.reliable)
    ensures ok ==> verdict != Unreadable && Presented(mid, disk.tree, output, release, disk.umask)
    ensures ok && verdict == Internal ==> mid == old(disk.tree)
    ensures verdict == External && (ok || (disk.reliable && Servable(old(disk.tree), output, release))) ==>
              ServerFiles(old(disk.tree), mid, output, release)
    ensures disk.reliable && verdict == Internal && Presentable(old(disk.tree), output, release, disk.umask) ==> ok
    ensures disk.reliable && verdict == External && Servable(old(disk.tree), output, release) ==>
              (Presentable(mid, output, release, disk.umask) ==> ok)
  {
    ghost var t := disk.tree;
    verdict := IsExternalCC(disk, output, typeOf);
    mid := disk.tree;
    match verdict {
      case Unreadable => return false, verdict, mid;
      case External =>
        ok := ReleaseExternal(disk, output, release);
        mid := disk.tree;
        if !ok { return; }
      case Internal =>
    }
    ok := Present(disk, output, release);
    StaysIn(t, mid, disk.tree, output, release);
  }
}
