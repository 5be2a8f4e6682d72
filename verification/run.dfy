/** The run command: stage what was built with what the peer provides, call, and clean up. */
module RunCommand {
  import opened Common
  import opened FileSystem
  import opened Copy
  import opened Staging
  import opened Client
  import opened BuildCommand

  const ChaincodeJson: string := "chaincode.json"

  /** The existing directories and the shared volume, which lies in none of the former. */
  ghost predicate RunLayout(t: Tree, shared: Path, output: Path, artifacts: Path) {
    && WellFormed(t) && IsDirectory(t, shared) && output in t && artifacts in t
    && !Under(output, shared) && !Under(artifacts, shared)
  }

  /** files holds the contents of the file n in dir. */
  ghost predicate StagedFrom(t: Tree, dir: Path, files: map<string, Content>, n: string) {
    dir + [n] in t && t[dir + [n]].File? && n in files && files[n] == t[dir + [n]].content
  }

  /** What the sidecar gets to see: the output and metadata of the build, and the artifacts of the peer, unaltered. */
  ghost predicate Staged(t: Tree, output: Path, artifacts: Path, files: map<string, Content>) {
    && StagedFrom(t, output, files, OutputTar) && StagedFrom(t, output, files, PackageTar)
    && StagedFrom(t, artifacts, files, ChaincodeJson)
    && files.Keys == {OutputTar, PackageTar, ChaincodeJson}
  }

  lemma {:induction false} RunNamesDiffer()
    ensures OutputTar != PackageTar && ChaincodeJson !in {OutputTar, PackageTar}
  {}

  /** One more file in the staging directory. */
  method StageFile(
    disk: Disk, temp: Path, n: string, dir: Path, ghost t: Tree, ghost shared: Path,
    ghost files: map<string, Content>)
    returns (ok: bool, ghost files': map<string, Content>)
    requires Progress(t, disk.tree, shared, temp, files) && n !in files && Plain(n) && dir in t && !Under(dir, shared)
    modifies disk`tree
    ensures WellFormed(disk.tree) && Outside(t, disk.tree, shared, temp)
    ensures ok ==> Progress(t, disk.tree, shared, temp, files')
    ensures ok ==> StagedFrom(t, dir, files', n) && files' == files[n := files'[n]]
    ensures disk.reliable && dir + [n] in t && t[dir + [n]].File? ==> ok
  {
    ghost var u := disk.tree;
    var src, target := dir + [n], temp + [n];
    assert Parent(target) == temp && Under(dir, src);
    Untouched(t, u, shared, temp, dir);
    assert Under(temp, target);
    BothAbove(dir, temp, src);
    assert target !in u && src != target;
    ok := CopyFile(disk, src, target);
    PlacedChanges(u, disk.tree, target);
    OutsideMore(t, u, disk.tree, shared, temp, n);
    files' := files;
    if ok {
      HoldsMore(u, disk.tree, temp, files, n);
      files' := files[n := disk.tree[target].content];
    }
  }

  /** The two copies of what was built. */
  method StageOutput(disk: Disk, temp: Path, output: Path, ghost t: Tree, ghost shared: Path)
    returns (ok: bool, ghost files: map<string, Content>)
    requires Progress(t, disk.tree, shared, temp, map[]) && output in t && !Under(output, shared)
    modifies disk`tree
    ensures WellFormed(disk.tree) && Outside(t, disk.tree, shared, temp)
    ensures ok ==> Progress(t, disk.tree, shared, temp, files) && files.Keys == {OutputTar, PackageTar}
    ensures ok ==> StagedFrom(t, output, files, OutputTar) && StagedFrom(t, output, files, PackageTar)
    ensures disk.reliable && FileIn(t, output, OutputTar) && FileIn(t, output, PackageTar) ==> ok
  {
    RunNamesDiffer();
    files := map[];
    ok, files := StageFile(disk, temp, OutputTar, output, t, shared, files);
    if !ok { return; }
    ok, files := StageFile(disk, temp, PackageTar, output, t, shared, files);
  }

  /** The three copies. */
  method StageRun(disk: Disk, temp: Path, output: Path, artifacts: Path, ghost t: Tree, ghost shared: Path)
    returns (ok: bool, ghost files: map<string, Content>)
    requires RunLayout(t, shared, output, artifacts) && Progress(t, disk.tree, shared, temp, map[])
    modifies disk`tree
    ensures WellFormed(disk.tree) && Outside(t, disk.tree, shared, temp)
    ensures ok ==> Progress(t, disk.tree, shared, temp, files) && Staged(t, output, artifacts, files)
    ensures disk.reliable && Runnable(t, output, artifacts) ==> ok
  {
    RunNamesDiffer();
    ok, files := StageOutput(disk, temp, output, t, shared);
    if !ok { return; }
    ok, files := StageFile(disk, temp, ChaincodeJson, artifacts, t, shared, files);
  }

  /** The files the command copies are all there. */
  predicate Runnable(t: Tree, output: Path, artifacts: Path) {
    FileIn(t, output, OutputTar) && FileIn(t, output, PackageTar) && FileIn(t, artifacts, ChaincodeJson)
  }

  predicate FileIn(t: Tree, dir: Path, n: string) { dir + [n] in t && t[dir + [n]].File? }

  /** The three files under the names the sidecar finds them by. */
  function RunInput(output: Content, package: Content, chaincode: Content): map<string, Content> {
    map[OutputTar := output, PackageTar := package, ChaincodeJson := chaincode]
  }

  /** The contents of the files the command copies. */
  function ToRun(t: Tree, output: Path, artifacts: Path): map<string, Content>
    requires Runnable(t, output, artifacts)
  {
    RunInput(
      t[output + [OutputTar]].content, t[output + [PackageTar]].content, t[artifacts + [ChaincodeJson]].content)
  }

  /** The staging directory holds exactly those. */
  lemma {:induction false} StagedIs(t: Tree, output: Path, artifacts: Path, files: map<string, Content>)
    requires Staged(t, output, artifacts, files)
    ensures Runnable(t, output, artifacts) && files == ToRun(t, output, artifacts)
  {
    RunNamesDiffer();
  }

  /** The copies and the call, in a staging directory that is there. */
  method RunIn(
    disk: Disk, temp: Path, output: Path, artifacts: Path, sidecar: Sidecar, ghost t: Tree, ghost shared: Path)
    returns (ok: bool, stderr: string)
    requires RunLayout(t, shared, output, artifacts) && Progress(t, disk.tree, shared, temp, map[])
    modifies disk`tree
    ensures WellFormed(disk.tree) && Outside(t, disk.tree, shared, temp)
    ensures ok ==> Runnable(t, output, artifacts)
    ensures ok || (disk.reliable && Runnable(t, output, artifacts)) ==>
              && stderr == Printout(sidecar(ToRun(t, output, artifacts)))
              && (ok <==> Successful(sidecar(ToRun(t, output, artifacts))))
  {
    stderr := "";
    ghost var files;
    ok, files := StageRun(disk, temp, output, artifacts, t, shared);
    if !ok { return; }
    StagedIs(t, output, artifacts, files);
    ShownIs(disk.tree, temp, files);
    var reply := sidecar(Shown(disk.tree, temp));
    if !reply.taken { return false, stderr; }
    ok, stderr := Receive(reply.responses, reply.broken);
  }

  /** The staging directory is gone again: only the time of the shared directory can differ. */
  lemma {:induction false} NothingLeft(t: Tree, u: Tree, shared: Path, temp: Path)
    requires WellFormed(t) && temp !in t && Outside(t, u, shared, temp) && forall q | q in u :: !Under(temp, q)
    ensures SameBut(t, u, iset{shared})
  {
    NothingUnderMissing(t, temp);
  }

  /** The same, and removing the staging directory on every exit. */
  method RunStaged(
    disk: Disk, temp: Path, output: Path, artifacts: Path, sidecar: Sidecar, ghost t: Tree, ghost shared: Path)
    returns (ok: bool, stderr: string)
    requires RunLayout(t, shared, output, artifacts) && Progress(t, disk.tree, shared, temp, map[])
    modifies disk`tree
    ensures WellFormed(disk.tree) && Outside(t, disk.tree, shared, temp)
    ensures disk.reliable ==> SameBut(t, disk.tree, iset{shared})
    ensures ok ==> Runnable(t, output, artifacts)
    ensures ok || (disk.reliable && Runnable(t, output, artifacts)) ==>
              && stderr == Printout(sidecar(ToRun(t, output, artifacts)))
              && (ok <==> Successful(sidecar(ToRun(t, output, artifacts))))
  {
    ok, stderr := RunIn(disk, temp, output, artifacts, sidecar, t, shared);
    var removed := disk.RemoveAll(temp);
    assert Outside(t, disk.tree, shared, temp);
    if disk.reliable { NothingLeft(t, disk.tree, shared, temp); }
  }

  /** All of it for a package that is not external. */
  method RunInternal(disk: Disk, shared: Path, output: Path, artifacts: Path, sidecar: Sidecar)
    returns (ok: bool, stderr: string, ghost temp: Path)
    requires RunLayout(disk.tree, shared, output, artifacts)
    modifies disk`tree
    ensures WellFormed(disk.tree) && Outside(old(disk.tree), disk.tree, shared, temp)
    ensures temp !in old(disk.tree) && temp != [] && Parent(temp) == shared
    ensures disk.reliable ==> SameBut(old(disk.tree), disk.tree, iset{shared})
    ensures ok ==> Runnable(old(disk.tree), output, artifacts)
    ensures ok || (disk.reliable && Runnable(old(disk.tree), output, artifacts)) ==>
              && stderr == Printout(sidecar(ToRun(old(disk.tree), output, artifacts)))
              && (ok <==> Successful(sidecar(ToRun(old(disk.tree), output, artifacts))))
  {
    ghost var t := disk.tree;
    ghost var name := FreshName(t, shared, "run");
    stderr, temp := "", shared + [name];
    NothingUnderMissing(t, temp);
    var dir;
    ok, dir := disk.TempDir(shared, "run");
    if !ok { return; }
    temp := dir;
    NothingUnderMissing(t, temp);
    ok, stderr := RunStaged(disk, dir, output, artifacts, sidecar, t, shared);
  }

  /**
   * Run.Run. The sidecar is asked with exactly the three files in the staging directory: its reply to them is what is
   * printed, and the command succeeds exactly if the package is not external, the files are there and that reply is a
   * success. On a reliable disk nothing but the time of the shared directory has changed afterwards, on every exit.
   */
  method Run(
    disk: Disk, shared: Path, output: Path, artifacts: Path, sidecar: Sidecar, typeOf: Content -> Option<string>)
    returns (ok: bool, stderr: string, ghost temp: Path)
    requires RunLayout(disk.tree, shared, output, artifacts)
    modifies disk`tree
    ensures WellFormed(disk.tree) && Outside(old(disk.tree), disk.tree, shared, temp)
    ensures temp !in old(disk.tree) && temp != [] && Parent(temp) == shared
    ensures disk.reliable ==> SameBut(old(disk.tree), disk.tree, iset{shared})
    ensures ok ==> Runnable(old(disk.tree), output, artifacts)
    ensures ok ==> Successful(sidecar(ToRun(old(disk.tree), output, artifacts)))
    ensures ok ==> stderr == Printout(sidecar(ToRun(old(disk.tree), output, artifacts)))
    ensures disk.reliable && VerdictOn(old(disk.tree), output, typeOf) != Internal ==> !ok && stderr == ""
    ensures disk.reliable && VerdictOn(old(disk.tree), output, typeOf) == Internal
            && Runnable(old(disk.tree), output, artifacts) ==>
              && stderr == Printout(sidecar(ToRun(old(disk.tree), output, artifacts)))
              && (ok <==> Successful(sidecar(ToRun(old(disk.tree), output, artifacts))))
  {
    ghost var t := disk.tree;
    ghost var name := FreshName(t, shared, "run");
    stderr, temp := "", shared + [name];
    NothingUnderMissing(t, temp);
    var verdict := IsExternalCC(disk, output, typeOf);
    if verdict != Internal { return false, stderr, temp; }
    ok, stderr, temp := RunInternal(disk, shared, output, artifacts, sidecar);
  }
}
