/** Build, then release, then run: what holds from end to end. */
module Pipeline {
  import opened Common
  import opened FileSystem
  import opened Extract
  import opened Archive
  import opened Copy
  import opened RoundTrip
  import opened Staging
  import opened BuildCommand
  import opened ReleaseCommand
  import opened ExternalBuild
  import opened RunCommand
  import PS = PodSession

  /** The directories of a build and the release that follows; output and release start out empty. */
  ghost predicate Prepared(t: Tree, shared: Path, source: Path, metadata: Path, output: Path, release: Path) {
    && Layout(t, shared, source, metadata, output)
    && IsDirectory(t, release) && !Under(release, shared) && Apart(output, release)
    && Vacant(t, output) && Vacant(t, release)
  }

  /** Build leaves nothing named metadata.json in an empty output: it is classified like a package without one. */
  lemma {:induction false} BuiltIsInternal(
    t: Tree, u: Tree, source: Path, metadata: Path, output: Path, sidecar: Sidecar, files: map<string, Content>,
    reliable: bool,
    typeOf: Content -> Option<string>)
    requires Built(t, u, source, metadata, output, sidecar, files, reliable) && Vacant(t, output)
    ensures VerdictOn(u, output, typeOf) == Internal
  {
    NamesDiffer();
    ServedFiles(t, source, metadata, sidecar, files, reliable);
    var p := output + [MetadataJson];
    assert Under(output, p);
    assert DeliveredAt(t, u, output, files, p);
    assert p[|output|] == MetadataJson;
  }

  /**
   * The sidecar finds in the staged archive the metadata that the command classified the package by, and nothing
   * else.
   */
  lemma {:induction false} SidecarSeesMetadata(
    t: Tree, u: Tree, source: Path, metadata: Path, output: Path, sidecar: Sidecar, files: map<string, Content>,
    reliable: bool,
    typeOf: Content -> Option<string>)
    requires Built(t, u, source, metadata, output, sidecar, files, reliable)
    ensures PackageTar in Request(files) && files[PackageTar].Tar?
    ensures FirstNamed(files[PackageTar].entries, [MetadataJson]) ==
      if FileAt(t, metadata + [MetadataJson]) then Some(t[metadata + [MetadataJson]].content) else None
    ensures VerdictOn(t, metadata, typeOf) ==
      match FirstNamed(files[PackageTar].entries, [MetadataJson])
      case None => Internal
      case Some(json) =>
        match typeOf(json)
        case None => Unreadable
        case Some(ccType) => if Spells(ccType, "external") then External else Internal
  {
    VerdictByType(t, metadata, typeOf);
    ServedFiles(t, source, metadata, sidecar, files, reliable);
    FoundIsFile(t, metadata, files[PackageTar], MetadataJson);
  }

  /**
   * The commands and the sidecar read the type differently, one regardless of case, the other exactly; but what
   * the commands take for external is never built, and what the sidecar takes for external never reaches it.
   */
  lemma {:induction false} ClassesAgree(ccType: string)
    ensures PS.Classify(ccType).External? ==> Spells(ccType, "external")
    ensures PS.Classify(ccType).Buildable? ==> !Spells(ccType, "external")
  {
    assert Lower("external") == "external";
    LowerSpells(ccType, "external");
    assert Lower(ccType) == "external" ==> Lower(ccType)[1] == 'x';
  }

  // ----- what is not touched -----

  ghost function In(dir: Path): iset<Path> { iset q | Under(dir, q) }

  /** Only what lies in s differs, and the time of the shared directory, which has the entries it had. */
  ghost predicate Tidy(t: Tree, u: Tree, shared: Path, s: iset<Path>) {
    && SameBut(t, u, s + iset{shared})
    && shared in t && shared in u && Kept(t[shared], u[shared])
    && (forall n :: shared + [n] in u <==> shared + [n] in t)
  }

  lemma {:induction false} TidyAfterStaging(t: Tree, u: Tree, shared: Path, temp: Path, output: Path)
    requires WellFormed(t) && temp !in t && temp != [] && Parent(temp) == shared
    requires SameBut(t, u, Scope(shared, temp, output)) && forall q | q in u :: !Under(temp, q)
    requires output in t && output in u && !Under(output, shared)
    requires shared in t && shared in u && Kept(t[shared], u[shared])
    ensures Tidy(t, u, shared, In(output))
  {
    NothingUnderMissing(t, temp);
    SharedEntries(t, u, shared, temp, output);
  }

  /** Nor does a change inside a directory touch the shared one. */
  lemma {:induction false} TidyInside(t: Tree, u: Tree, shared: Path, dir: Path)
    requires OnlyUnder(t, u, dir) && dir in t && dir in u && !Under(dir, shared) && IsDirectory(t, shared)
    ensures Tidy(t, u, shared, In(dir))
  {
    forall n: string ensures shared + [n] in u <==> shared + [n] in t { OnlyItself(dir, shared, n); }
  }

  lemma {:induction false} TidyTwice(t: Tree, u: Tree, w: Tree, shared: Path, output: Path, release: Path)
    requires Tidy(t, u, shared, In(output)) && Tidy(u, w, shared, In(release))
    ensures Tidy(t, w, shared, In(output) + In(release))
  {}

  /** What lies apart from output is as it was. */
  lemma {:induction false} TidyApart(t: Tree, u: Tree, shared: Path, output: Path, dir: Path)
    requires SameBut(t, u, In(output) + iset{shared}) && Apart(output, dir) && !Under(dir, shared)
    ensures SameBelow(t, u, dir)
  {
    forall q | Under(dir, q) ensures q !in In(output) + iset{shared} { BothAbove(dir, output, q); }
  }

  /** What was built stays built if output stays as it is. */
  lemma {:induction false} BuiltStill(
    t: Tree, u: Tree, w: Tree, source: Path, metadata: Path, output: Path, sidecar: Sidecar,
    files: map<string, Content>, reliable: bool)
    requires Built(t, u, source, metadata, output, sidecar, files, reliable) && SameBelow(u, w, output)
    ensures Built(t, w, source, metadata, output, sidecar, files, reliable)
  {
    assert Under(output, output);
    forall q | Under(output, q) ensures DeliveredAt(t, w, output, files, q) {
      assert DeliveredAt(t, u, output, files, q);
    }
  }

  /** Building leaves what lies in release alone. */
  lemma {:induction false} ReleaseUntouched(t: Tree, u: Tree, shared: Path, temp: Path, output: Path, release: Path)
    requires WellFormed(t) && IsDirectory(t, release) && !Under(release, shared) && Apart(output, release)
    requires temp !in t && temp != [] && Parent(temp) == shared && SameBut(t, u, Scope(shared, temp, output))
    ensures IsDirectory(u, release) && (Vacant(t, release) ==> Vacant(u, release)) && SameBelow(t, u, release)
  {
    NothingUnderMissing(t, temp);
    if Under(release, temp) { UnderParent(release, temp); }
    forall q | Under(release, q) ensures q !in Scope(shared, temp, output) {
      BothAbove(release, temp, q);
      BothAbove(release, output, q);
    }
    assert Under(release, release);
  }

  /** What a release presents after a build: META-INF of the source, rebuilt. */
  lemma {:induction false} PresentsMetaInf(
    t: Tree, u: Tree, w: Tree, source: Path, output: Path, release: Path, umask: Mode, c: Content)
    requires WellFormed(t) && IsDirectory(u, release) && Vacant(u, release) && WellFormed(u)
    requires ArchiveOf(t, source + [MetaInf], c) && FileWith(u, output + [MetaInfTar], c)
    ensures Presentable(u, output, release, umask)
    ensures Presented(u, w, output, release, umask) ==>
              && Rebuilt(t, source + [MetaInf], w, release, umask) && OnlyInside(u, w, release)
              && (Identical(t, source + [MetaInf], w, release) <==> Unmasked(t, source + [MetaInf], umask))
  {
    var src := source + [MetaInf];
    var ps :| IsArchive(t, src, c.entries, ps);
    assert Ready(t, src, c.entries, ps, u, release);
    forall p ensures !(p in u && Imaged(t, src, release, p)) {}
    FitsIffUnobstructed(t, src, c.entries, ps, u, release, umask);
    if Presented(u, w, output, release, umask) { ExtractionRebuilds(t, src, c.entries, ps, u, w, release, umask); }
  }

  /** The META-INF archive that a build delivers, if it delivers one. */
  lemma {:induction false} DeliveredMetaInf(
    t: Tree, u: Tree, source: Path, metadata: Path, output: Path, sidecar: Sidecar, files: map<string, Content>,
    reliable: bool)
    requires Built(t, u, source, metadata, output, sidecar, files, reliable) && Vacant(t, output)
    ensures MetaInfTar in files ==> FileWith(u, output + [MetaInfTar], files[MetaInfTar])
    ensures MetaInfTar in files ==> ArchiveOf(t, source + [MetaInf], files[MetaInfTar])
    ensures MetaInfTar !in files ==> output + [MetaInfTar] !in u
  {
    ServedFiles(t, source, metadata, sidecar, files, reliable);
    var p := output + [MetaInfTar];
    assert Under(output, p) && p[|output|] == MetaInfTar;
    assert DeliveredAt(t, u, output, files, p);
  }

  /**
   * release holds META-INF as it was in the source, or nothing has happened to it if there is no META-INF directory.
   */
  ghost predicate Released(t: Tree, w: Tree, source: Path, release: Path, umask: Mode) {
    if IsDirectory(t, source + [MetaInf]) then
      && Rebuilt(t, source + [MetaInf], w, release, umask)
      && (Identical(t, source + [MetaInf], w, release) <==> Unmasked(t, source + [MetaInf], umask))
      && release in t && release in w && Kept(t[release], w[release])
      && (Vacant(w, release) ==> w[release] == t[release])
    else SameBelow(t, w, release)
  }

  /** The output of a build: META-INF of the source is delivered into it if there is one, and release is still empty. */
  ghost predicate Releasable(t: Tree, u: Tree, source: Path, output: Path, release: Path) {
    && WellFormed(t) && WellFormed(u) && IsDirectory(u, release) && Vacant(u, release) && SameBelow(t, u, release)
    && (IsDirectory(t, source + [MetaInf]) ==>
          && FileAt(u, output + [MetaInfTar])
          && ArchiveOf(t, source + [MetaInf], u[output + [MetaInfTar]].content))
    && (!IsDirectory(t, source + [MetaInf]) ==> output + [MetaInfTar] !in u)
  }

  lemma {:induction false} ReleasableAfterBuild(
    t: Tree, u: Tree, shared: Path, temp: Path, source: Path, metadata: Path, output: Path, release: Path,
    sidecar: Sidecar, files: map<string, Content>)
    requires Prepared(t, shared, source, metadata, output, release) && WellFormed(u)
    requires temp !in t && temp != [] && Parent(temp) == shared && SameBut(t, u, Scope(shared, temp, output))
    requires Built(t, u, source, metadata, output, sidecar, files, true)
    ensures Releasable(t, u, source, output, release)
  {
    ReleaseUntouched(t, u, shared, temp, output, release);
    assert SameBelow(t, u, release);
    DeliveredMetaInf(t, u, source, metadata, output, sidecar, files, true);
  }

  lemma {:induction false} ReleasableMeans(
    t: Tree, u: Tree, w: Tree, source: Path, output: Path, release: Path, umask: Mode)
    requires Releasable(t, u, source, output, release)
    ensures Presentable(u, output, release, umask)
    ensures Presented(u, w, output, release, umask) ==>
              Released(t, w, source, release, umask) && OnlyUnder(u, w, release) && release in w
  {
    assert Under(release, release);
    if IsDirectory(t, source + [MetaInf]) {
      PresentsMetaInf(t, u, w, source, output, release, umask, u[output + [MetaInfTar]].content);
      assert OnlyInside(u, w, release) ==> OnlyUnder(u, w, release);
    }
  }

  lemma {:induction false} SharedEntries(t: Tree, u: Tree, shared: Path, temp: Path, output: Path)
    requires WellFormed(t) && temp !in t && temp != [] && Parent(temp) == shared
    requires SameBut(t, u, Scope(shared, temp, output))
    requires output in t && output in u && !Under(output, shared) && forall q | q in u :: !Under(temp, q)
    ensures forall n :: shared + [n] in u <==> shared + [n] in t
  {
    NothingUnderMissing(t, temp);
    forall n: string ensures Under(output, shared + [n]) ==> shared + [n] == output { OnlyItself(output, shared, n); }
  }

  lemma {:induction false} OnlyItself(output: Path, shared: Path, n: string)
    requires !Under(output, shared)
    ensures Under(output, shared + [n]) ==> shared + [n] == output
  {}

  // ----- build, then run -----

  lemma {:induction false} DeliveredFile(t: Tree, u: Tree, dir: Path, files: map<string, Content>, n: string)
    requires Delivered(t, u, dir, files) && n in files
    ensures FileWith(u, dir + [n], files[n])
  {
    assert Under(dir, dir + [n]) && (dir + [n])[|dir|] == n;
    assert DeliveredAt(t, u, dir, files, dir + [n]);
  }

  /** Looking for metadata.json in the archive finds that of the package's metadata directory. */
  ghost predicate SeesMetadata(t: Tree, metadata: Path, archive: Content) {
    archive.Tar? && FirstNamed(archive.entries, [MetadataJson]) ==
      if FileAt(t, metadata + [MetadataJson]) then Some(t[metadata + [MetadataJson]].content) else None
  }

  /**
   * What a build leaves in output is classified as not external and has what a run needs, exactly if the sidecar left
   * its output.
   */
  lemma {:induction false} OutputForRun(
    t: Tree, u: Tree, source: Path, metadata: Path, output: Path, sidecar: Sidecar, files: map<string, Content>)
    requires Built(t, u, source, metadata, output, sidecar, files, true) && Vacant(t, output)
    ensures output in u && PackageTar in files && FileWith(u, output + [PackageTar], files[PackageTar])
    ensures SeesMetadata(t, metadata, files[PackageTar])
    ensures OutputTar in files <==> sidecar(Request(files)).upload.Some?
    ensures OutputTar in files ==> FileWith(u, output + [OutputTar], files[OutputTar])
    ensures OutputTar in files ==> files[OutputTar] == sidecar(Request(files)).upload.value.content
    ensures FileAt(u, output + [OutputTar]) <==> OutputTar in files
  {
    ServedFiles(t, source, metadata, sidecar, files, true);
    FoundIsFile(t, metadata, files[PackageTar], MetadataJson);
    DeliveredFile(t, u, output, files, PackageTar);
    if OutputTar in files {
      DeliveredFile(t, u, output, files, OutputTar);
    } else {
      assert Under(output, output + [OutputTar]) && (output + [OutputTar])[|output|] == OutputTar;
      assert DeliveredAt(t, u, output, files, output + [OutputTar]);
    }
  }

  /** What the sidecar is given to run: what it left in reply to a build, the same metadata, and the peer's file. */
  predicate RunsThrough(
    t: Tree, artifacts: Path, request: map<string, Content>, build: Sidecar, run: Sidecar)
  {
    && build(request).upload.Some? && PackageTar in request && FileAt(t, artifacts + [ChaincodeJson])
    && Successful(run(RunInput(
         build(request).upload.value.content, request[PackageTar], t[artifacts + [ChaincodeJson]].content)))
  }

  /** What a run after that build stages is just that. */
  lemma {:induction false} RunsWhatWasBuilt(
    t: Tree, u: Tree, source: Path, metadata: Path, output: Path, artifacts: Path, build: Sidecar, run: Sidecar,
    files: map<string, Content>)
    requires Built(t, u, source, metadata, output, build, files, true) && Vacant(t, output)
    requires SameBelow(t, u, artifacts)
    ensures Runnable(u, output, artifacts) <==> OutputTar in files && FileAt(t, artifacts + [ChaincodeJson])
    ensures Runnable(u, output, artifacts) ==>
              && PackageTar in files
              && ToRun(u, output, artifacts)
                == RunInput(files[OutputTar], files[PackageTar], t[artifacts + [ChaincodeJson]].content)
    ensures Runnable(u, output, artifacts) && Successful(run(ToRun(u, output, artifacts)))
            <==> RunsThrough(t, artifacts, Request(files), build, run)
  {
    NamesDiffer();
    OutputForRun(t, u, source, metadata, output, build, files);
    assert Under(artifacts, artifacts + [ChaincodeJson]);
  }

  /**
   * Build followed by Run, on a reliable disk, for any package. A run succeeds only for a package that is not external.
   * Then output holds the archives that the sidecar was shown and what it left in reply, and the run showed it exactly
   * the latter, the very metadata archive it built from, in which it finds the package's own metadata.json, and the
   * chaincode.json of the peer; its replies are what was printed. Into an empty output both succeed exactly if the
   * sidecar does both times. On any exit only output differs, and the time of the shared directory.
   */
  method BuildAndRun(
    disk: Disk, shared: Path, source: Path, metadata: Path, output: Path, artifacts: Path,
    build: Sidecar, run: Sidecar, inject: Content -> Option<Content>, typeOf: Content -> Option<string>)
    returns (ok: bool, built: string, printed: string, ghost files: map<string, Content>)
    requires disk.reliable && Vacant(disk.tree, output)
    requires Layout(disk.tree, shared, source, metadata, output) && ExternalLayout(disk.tree, source, metadata, output)
    requires IsDirectory(disk.tree, artifacts) && !Under(artifacts, shared) && Apart(output, artifacts)
    modifies disk`tree
    ensures WellFormed(disk.tree) && Tidy(old(disk.tree), disk.tree, shared, In(output))
    ensures ok ==> VerdictOn(old(disk.tree), metadata, typeOf) == Internal
    ensures ok ==> Built(old(disk.tree), disk.tree, source, metadata, output, build, files, true)
    ensures ok ==> PackageTar in files && SeesMetadata(old(disk.tree), metadata, files[PackageTar])
    ensures ok ==> built == Printout(build(Request(files)))
    ensures ok ==>
              && OutputTar in files && files[OutputTar] == build(Request(files)).upload.value.content
              && FileAt(old(disk.tree), artifacts + [ChaincodeJson])
              && var input := RunInput(
                files[OutputTar], files[PackageTar], old(disk.tree)[artifacts + [ChaincodeJson]].content);
              Successful(run(input)) && printed == Printout(run(input))
    ensures VerdictOn(old(disk.tree), metadata, typeOf) == Internal && Ordinary(old(disk.tree), source, metadata) ==>
              && StagedFor(old(disk.tree), source, metadata, Request(files), true)
              && (ok <==> Successful(build(Request(files)))
                          && RunsThrough(old(disk.tree), artifacts, Request(files), build, run))
  {
    ghost var t := disk.tree;
    ghost var temp;
    var verdict;
    printed := "";
    ok, built, verdict, files, temp := Build(disk, shared, source, metadata, output, build, inject, typeOf);
    if !ok { return; }
    ghost var u := disk.tree;
    TidyApart(t, u, shared, output, artifacts);
    assert Under(artifacts, artifacts) && Under(artifacts, artifacts + [ChaincodeJson]);
    if verdict == Internal {
      BuiltIsInternal(t, u, source, metadata, output, build, files, true, typeOf);
      RunsWhatWasBuilt(t, u, source, metadata, output, artifacts, build, run, files);
      OutputForRun(t, u, source, metadata, output, build, files);
    } else {
      ExternalStays(t, u, source, metadata, output, inject, typeOf);
    }
    ghost var away;
    ok, printed, away := Run(disk, shared, output, artifacts, run, typeOf);
    AfterRun(t, u, disk.tree, shared, output);
    if ok { BuiltStill(t, u, disk.tree, source, metadata, output, build, files, true); }
  }

  /** A run touches neither output nor the entries of the shared directory. */
  lemma {:induction false} AfterRun(t: Tree, u: Tree, w: Tree, shared: Path, output: Path)
    requires Tidy(t, u, shared, In(output)) && !Under(output, shared)
    requires SameBut(u, w, iset{shared}) && shared in w && Kept(u[shared], w[shared])
    ensures Tidy(t, w, shared, In(output)) && SameBelow(u, w, output)
  {}

  // ----- external packages -----

  /** Extraction over mid: images of what is archived, with the modes of what was there, and all else as before. */
  ghost predicate Overlaid(t: Tree, mid: Tree, w: Tree, src: Path, dest: Path, umask: Mode) {
    forall p ::
      if Imaged(t, src, dest, p) then p in w && w[p] == CopyOf(mid, t[Source(src, dest, p)], p, umask)
      else if p in mid then p in w && Kept(mid[p], w[p])
      else p !in w
  }

  /** The server files of the package are in place: its connection file as rewritten, and its metadata. */
  ghost predicate ServerReady(
    t: Tree, mid: Tree, source: Path, metadata: Path, release: Path, inject: Content -> Option<Content>)
  {
    var d := ServerDir(release);
    && FileAt(mid, d + [ConnectionJson])
    && Some(mid[d + [ConnectionJson]].content) == ConnectionFor(t, source, metadata, inject)
    && FileAt(t, metadata + [MetadataJson]) && FileWith(mid, d + [MetadataJson], t[metadata + [MetadataJson]].content)
  }

  lemma {:induction false} ExternalStays(
    t: Tree, u: Tree, source: Path, metadata: Path, output: Path, inject: Content -> Option<Content>,
    typeOf: Content -> Option<string>)
    requires BuiltExternal(t, u, source, metadata, output, inject, true) && VerdictOn(t, metadata, typeOf) == External
    ensures VerdictOn(u, output, typeOf) == External
  {}

  lemma {:induction false} ServerReadyAfter(
    t: Tree, u: Tree, mid: Tree, source: Path, metadata: Path, output: Path, release: Path,
    inject: Content -> Option<Content>)
    requires BuiltExternal(t, u, source, metadata, output, inject, true) && FileAt(t, metadata + [MetadataJson])
    requires ServerFiles(u, mid, output, release) && WellFormed(mid)
    ensures ServerReady(t, mid, source, metadata, release, inject) && IsDirectory(mid, release)
  {}

  lemma {:induction false} OverlaidAfter(
    t: Tree, u: Tree, mid: Tree, w: Tree, source: Path, metadata: Path, output: Path, release: Path, umask: Mode,
    inject: Content -> Option<Content>)
    requires WellFormed(t) && WellFormed(mid) && Apart(output, release)
    requires BuiltExternal(t, u, source, metadata, output, inject, true) && IsDirectory(t, source + [MetaInf])
    requires ServerFiles(u, mid, output, release) && IsDirectory(mid, release)
    requires Presented(mid, w, output, release, umask)
    ensures Overlaid(t, mid, w, source + [MetaInf], release, umask) && OnlyUnder(mid, w, release)
  {
    OutputOutside(output, release, MetaInfTar);
    var c := u[output + [MetaInfTar]].content;
    assert mid[output + [MetaInfTar]].content == c;
    var ps :| IsArchive(t, source + [MetaInf], c.entries, ps);
    forall p
      ensures if Imaged(t, source + [MetaInf], release, p) then
          p in w && w[p] == CopyOf(mid, t[Source(source + [MetaInf], release, p)], p, umask)
        else if p in mid then p in w && Kept(mid[p], w[p])
        else p !in w
    {
      ExtractedAt(t, source + [MetaInf], c.entries, ps, mid, w, release, umask, p);
    }
    OnlyInsideExtracted(t, source + [MetaInf], c.entries, ps, mid, w, release, umask);
  }

  lemma {:induction false} ReleaseStays(t: Tree, u: Tree, output: Path, release: Path)
    requires OnlyUnder(t, u, output) && IsDirectory(t, release) && Apart(output, release)
    ensures IsDirectory(u, release) && (Vacant(t, release) ==> Vacant(u, release))
  {
    forall q | Under(release, q) ensures !Under(output, q) { BothAbove(release, output, q); }
    assert Under(release, release);
  }

  lemma {:induction false} NoArchive(
    t: Tree, u: Tree, mid: Tree, source: Path, metadata: Path, output: Path, release: Path,
    inject: Content -> Option<Content>)
    requires BuiltExternal(t, u, source, metadata, output, inject, true) && Vacant(t, output) && Apart(output, release)
    requires !IsDirectory(t, source + [MetaInf]) && metadata + [MetaInfTar] !in t
    requires OnlyUnder(u, mid, release)
    ensures output + [MetaInfTar] !in mid
  {}

  /** Nothing in META-INF is of another kind than the server files of the release and the directories around them. */
  ghost predicate NoClash(t: Tree, metaInf: Path) {
    forall rel: Path | rel != [] && metaInf + rel in t ::
      && (Under(rel, ["chaincode", "server"]) ==> t[metaInf + rel].Dir?)
      && (rel in {ServerDir([]) + [ConnectionJson], ServerDir([]) + [MetadataJson]} ==> t[metaInf + rel].File?)
  }

  /** If there is no META-INF directory, the metadata has no archive of one either. */
  predicate OneArchive(t: Tree, source: Path, metadata: Path) {
    IsDirectory(t, source + [MetaInf]) || metadata + [MetaInfTar] !in t
  }

  lemma {:induction false} ServableAfter(
    t: Tree, u: Tree, source: Path, metadata: Path, output: Path, release: Path, inject: Content -> Option<Content>)
    requires BuiltExternal(t, u, source, metadata, output, inject, true) && FileAt(t, metadata + [MetadataJson])
    requires WellFormed(u) && IsDirectory(u, release) && Vacant(u, release)
    ensures Servable(u, output, release)
  {
    var d := ServerDir(release);
    ServerPaths(release);
    forall q | q in u && Under(q, d) ensures u[q].Dir? {
      BothAbove(release, q, d);
      PrefixesAreDirs(u, release);
    }
  }

  /** What the release has made itself is where META-INF does not clash with it. */
  lemma {:induction false} MadeByRelease(
    t: Tree, u: Tree, mid: Tree, metaInf: Path, output: Path, release: Path, p: Path)
    requires ServerFiles(u, mid, output, release) && Vacant(u, release) && NoClash(t, metaInf)
    requires p in mid && Imaged(t, metaInf, release, p)
    ensures SameKind(mid[p], t[Source(metaInf, release, p)])
  {
    var rel := p[|release|..];
    var d := ServerDir(release);
    assert p == release + rel && rel != [];
    assert d[|release|..] == ["chaincode", "server"];
    assert Under(p, d) ==> rel == d[|release|..][..|rel|];
    assert (d + [ConnectionJson])[|release|..] == ServerDir([]) + [ConnectionJson];
    assert (d + [MetadataJson])[|release|..] == ServerDir([]) + [MetadataJson];
  }

  lemma {:induction false} NothingInTheWay(
    t: Tree, u: Tree, mid: Tree, metaInf: Path, output: Path, release: Path)
    requires ServerFiles(u, mid, output, release) && Vacant(u, release) && NoClash(t, metaInf)
    ensures Unobstructed(t, metaInf, mid, release)
  {
    forall p | p in mid && Imaged(t, metaInf, release, p) ensures SameKind(mid[p], t[Source(metaInf, release, p)]) {
      MadeByRelease(t, u, mid, metaInf, output, release, p);
    }
  }

  lemma {:induction false} PresentableArchive(
    t: Tree, mid: Tree, metaInf: Path, output: Path, release: Path, umask: Mode)
    requires WellFormed(t) && WellFormed(mid) && IsDirectory(mid, release) && Unobstructed(t, metaInf, mid, release)
    requires FileAt(mid, output + [MetaInfTar]) && ArchiveOf(t, metaInf, mid[output + [MetaInfTar]].content)
    ensures Presentable(mid, output, release, umask)
  {
    var c := mid[output + [MetaInfTar]].content;
    var ps :| IsArchive(t, metaInf, c.entries, ps);
    FitsIffUnobstructed(t, metaInf, c.entries, ps, mid, release, umask);
  }

  lemma {:induction false} PresentableAfter(
    t: Tree, u: Tree, mid: Tree, source: Path, metadata: Path, output: Path, release: Path, umask: Mode,
    inject: Content -> Option<Content>)
    requires WellFormed(t) && WellFormed(mid) && Apart(output, release) && Vacant(t, output) && Vacant(u, release)
    requires BuiltExternal(t, u, source, metadata, output, inject, true) && OneArchive(t, source, metadata)
    requires ServerFiles(u, mid, output, release) && IsDirectory(mid, release)
    requires NoClash(t, source + [MetaInf])
    ensures Presentable(mid, output, release, umask)
  {
    var metaInf := source + [MetaInf];
    if IsDirectory(t, metaInf) {
      OutputOutside(output, release, MetaInfTar);
      NothingInTheWay(t, u, mid, metaInf, output, release);
      PresentableArchive(t, mid, metaInf, output, release, umask);
    } else {
      NoArchive(t, u, mid, source, metadata, output, release, inject);
    }
  }

  /** A server file or a directory around them, or the image of something in META-INF. */
  predicate Held(t: Tree, source: Path, release: Path, p: Path) {
    var d := ServerDir(release);
    Under(p, d) || p in {d + [ConnectionJson], d + [MetadataJson]} || Imaged(t, source + [MetaInf], release, p)
  }

  /** Only output and release differ; release holds those and nothing else, and the shared directory its entries. */
  ghost predicate HeldExactly(t: Tree, w: Tree, shared: Path, source: Path, output: Path, release: Path) {
    && SameBut(t, w, iset q | Under(output, q) || Under(release, q))
    && (forall p | Under(release, p) :: p in w <==> Held(t, source, release, p))
    && (forall n :: shared + [n] in w <==> shared + [n] in t)
  }

  /** What is in release between the two halves. */
  lemma {:induction false} HeldBetween(u: Tree, mid: Tree, output: Path, release: Path, p: Path)
    requires WellFormed(mid) && ServerFiles(u, mid, output, release) && Vacant(u, release) && Under(release, p)
    ensures var d := ServerDir(release);
      p in mid <==> Under(p, d) || p in {d + [ConnectionJson], d + [MetadataJson]}
  {
    ServerDirInside(release);
    PrefixesAreDirs(mid, ServerDir(release) + [ConnectionJson]);
    assert Under(p, ServerDir(release)) ==> Under(p, ServerDir(release) + [ConnectionJson]);
  }

  /** What META-INF makes of that: it is laid over it, if there is one. */
  ghost predicate LaidOver(t: Tree, mid: Tree, w: Tree, source: Path, release: Path, umask: Mode) {
    if IsDirectory(t, source + [MetaInf])
    then OnlyUnder(mid, w, release) && Overlaid(t, mid, w, source + [MetaInf], release, umask)
    else w == mid
  }

  lemma {:induction false} HeldAfter(
    t: Tree, u: Tree, mid: Tree, w: Tree, source: Path, output: Path, release: Path, umask: Mode, p: Path)
    requires WellFormed(t) && WellFormed(mid) && ServerFiles(u, mid, output, release) && Vacant(u, release)
    requires LaidOver(t, mid, w, source, release, umask) && Under(release, p)
    ensures p in w <==> Held(t, source, release, p)
  {
    HeldBetween(u, mid, output, release, p);
    ServerDirInside(release);
    if p == release {
      assert Under(p, ServerDir(release));
    } else if Imaged(t, source + [MetaInf], release, p) {
      var s := Source(source + [MetaInf], release, p);
      assert Under(source + [MetaInf], s) && s != source + [MetaInf];
      PrefixesAreDirs(t, s);
    }
  }

  lemma {:induction false} FrameOfBoth(t: Tree, u: Tree, mid: Tree, w: Tree, output: Path, release: Path)
    requires OnlyUnder(t, u, output) && OnlyUnder(u, mid, release) && OnlyUnder(mid, w, release)
    ensures SameBut(t, w, iset q | Under(output, q) || Under(release, q))
  {}

  lemma {:induction false} StillThere(t: Tree, w: Tree, shared: Path, output: Path, release: Path)
    requires SameBut(t, w, iset q | Under(output, q) || Under(release, q))
    requires output in t && output in w && release in t && release in w
    requires !Under(output, shared) && !Under(release, shared)
    ensures forall n :: shared + [n] in w <==> shared + [n] in t
  {
    forall n: string ensures shared + [n] in w <==> shared + [n] in t {
      OnlyItself(output, shared, n);
      OnlyItself(release, shared, n);
    }
  }

  lemma {:induction false} HeldInTheEnd(
    t: Tree, u: Tree, mid: Tree, w: Tree, shared: Path, source: Path, metadata: Path, output: Path, release: Path,
    umask: Mode, inject: Content -> Option<Content>)
    requires Prepared(t, shared, source, metadata, output, release) && WellFormed(u) && WellFormed(mid)
    requires BuiltExternal(t, u, source, metadata, output, inject, true) && Vacant(u, release)
    requires ServerFiles(u, mid, output, release) && LaidOver(t, mid, w, source, release, umask)
    ensures HeldExactly(t, w, shared, source, output, release)
  {
    FrameOfBoth(t, u, mid, w, output, release);
    forall p | Under(release, p) ensures p in w <==> Held(t, source, release, p) {
      HeldAfter(t, u, mid, w, source, output, release, umask, p);
    }
    OutputStays(u, mid, w, output, release);
    StillThere(t, w, shared, output, release);
  }

  lemma {:induction false} OutputStays(u: Tree, mid: Tree, w: Tree, output: Path, release: Path)
    requires WellFormed(u) && output + [ConnectionJson] in u && Apart(output, release)
    requires OnlyUnder(u, mid, release) && OnlyUnder(mid, w, release)
    ensures output in w
  {
    assert Parent(output + [ConnectionJson]) == output;
  }

  // ----- the commands decide -----

  /** The directories of any build and the release that follows. */
  ghost predicate AllPrepared(t: Tree, shared: Path, source: Path, metadata: Path, output: Path, release: Path) {
    Prepared(t, shared, source, metadata, output, release) && ExternalLayout(t, source, metadata, output)
  }

  /**
   * Build.Run: IsExternalCC decides between the two kinds of packages, and a package it cannot decide on is not
   * touched. On a reliable disk only output differs afterwards, and the time of the shared directory.
   */
  method Build(
    disk: Disk, shared: Path, source: Path, metadata: Path, output: Path, sidecar: Sidecar,
    inject: Content -> Option<Content>, typeOf: Content -> Option<string>)
    returns (ok: bool, stderr: string, verdict: Verdict, ghost files: map<string, Content>, ghost temp: Path)
    requires Layout(disk.tree, shared, source, metadata, output) && ExternalLayout(disk.tree, source, metadata, output)
    modifies disk`tree
    ensures WellFormed(disk.tree)
    ensures verdict == VerdictOn(old(disk.tree), metadata, typeOf) || (verdict == Internal && !disk.reliable)
    ensures verdict == Unreadable ==> !ok && disk.tree == old(disk.tree)
    ensures verdict == Internal ==>
              && SameBut(old(disk.tree), disk.tree, Scope(shared, temp, output))
              && temp !in old(disk.tree) && temp != [] && Parent(temp) == shared
              && (ok ==> Built(old(disk.tree), disk.tree, source, metadata, output, sidecar, files, disk.reliable))
              && (ok ==> stderr == Printout(sidecar(Request(files))))
    ensures disk.reliable && verdict == Internal && Ordinary(old(disk.tree), source, metadata) ==>
              Answered(old(disk.tree), source, metadata, sidecar, files, stderr)
    ensures disk.reliable && verdict == Internal && Buildable(old(disk.tree), source, metadata, output) ==>
              (ok <==> Successful(sidecar(Request(files))))
    ensures disk.reliable ==> Tidy(old(disk.tree), disk.tree, shared, In(output))
    ensures verdict == External ==> OnlyUnder(old(disk.tree), disk.tree, output)
    ensures verdict == External && ok ==>
              BuiltExternal(old(disk.tree), disk.tree, source, metadata, output, inject, disk.reliable)
    ensures verdict == External && disk.reliable && Handable(old(disk.tree), source, metadata, output, inject) ==> ok
  {
    ghost var t := disk.tree;
    stderr, files, temp := "", map[], [];
    verdict := IsExternalCC(disk, metadata, typeOf);
    match verdict {
      case Unreadable => ok := false;
      case External =>
        ok := BuildExternal(disk, source, metadata, output, inject);
        TidyInside(t, disk.tree, shared, output);
      case Internal =>
        ok, stderr, files, temp := BuildInternal(disk, shared, source, metadata, output, sidecar);
        if disk.reliable { TidyAfterStaging(t, disk.tree, shared, temp, output); }
    }
  }

  /** What was delivered to output is what the sidecar was shown and left in reply, and stderr what it had to say. */
  ghost predicate BuiltBy(
    t: Tree, u: Tree, source: Path, metadata: Path, output: Path, sidecar: Sidecar, stderr: string)
  {
    exists files: map<string, Content> ::
      Built(t, u, source, metadata, output, sidecar, files, true) && stderr == Printout(sidecar(Request(files)))
  }

  /** What a build of either kind on a reliable disk leaves for the release. */
  ghost predicate LeftForRelease(
    t: Tree, u: Tree, source: Path, metadata: Path, output: Path, release: Path,
    inject: Content -> Option<Content>, verdict: Verdict)
  {
    match verdict
    case Unreadable => false
    case Internal => Releasable(t, u, source, output, release)
    case External =>
      BuiltExternal(t, u, source, metadata, output, inject, true) && IsDirectory(u, release) && Vacant(u, release)
  }

  /** Whatever the archives are like in which the package is staged, the sidecar succeeds. */
  ghost predicate AlwaysServed(t: Tree, source: Path, metadata: Path, sidecar: Sidecar) {
    forall request | StagedFor(t, source, metadata, request, true) :: Successful(sidecar(request))
  }

  /** The first half. */
  method BuildFor(
    disk: Disk, shared: Path, source: Path, metadata: Path, output: Path, ghost release: Path, sidecar: Sidecar,
    inject: Content -> Option<Content>, typeOf: Content -> Option<string>)
    returns (ok: bool, stderr: string, verdict: Verdict)
    requires disk.reliable && AllPrepared(disk.tree, shared, source, metadata, output, release)
    modifies disk`tree
    ensures WellFormed(disk.tree) && verdict == VerdictOn(old(disk.tree), metadata, typeOf)
    ensures Tidy(old(disk.tree), disk.tree, shared, In(output))
    ensures ok ==> VerdictOn(disk.tree, output, typeOf) == verdict
    ensures ok ==> LeftForRelease(old(disk.tree), disk.tree, source, metadata, output, release, inject, verdict)
    ensures ok && verdict == Internal ==>
              BuiltBy(old(disk.tree), disk.tree, source, metadata, output, sidecar, stderr)
    ensures verdict == Internal && Ordinary(old(disk.tree), source, metadata) ==>
              ok || !AlwaysServed(old(disk.tree), source, metadata, sidecar)
    ensures verdict == External && Handable(old(disk.tree), source, metadata, output, inject) ==> ok
  {
    ghost var t := disk.tree;
    ghost var files, temp;
    ok, stderr, verdict, files, temp := Build(disk, shared, source, metadata, output, sidecar, inject, typeOf);
    if !ok { return; }
    if verdict == Internal {
      InternalLeft(t, disk.tree, shared, temp, source, metadata, output, release, sidecar, files, inject, typeOf);
    } else {
      ExternalStays(t, disk.tree, source, metadata, output, inject, typeOf);
      ReleaseStays(t, disk.tree, output, release);
    }
  }

  lemma {:induction false} InternalLeft(
    t: Tree, u: Tree, shared: Path, temp: Path, source: Path, metadata: Path, output: Path, release: Path,
    sidecar: Sidecar, files: map<string, Content>, inject: Content -> Option<Content>,
    typeOf: Content -> Option<string>)
    requires Prepared(t, shared, source, metadata, output, release) && WellFormed(u)
    requires temp !in t && temp != [] && Parent(temp) == shared && SameBut(t, u, Scope(shared, temp, output))
    requires Built(t, u, source, metadata, output, sidecar, files, true)
    ensures LeftForRelease(t, u, source, metadata, output, release, inject, Internal)
    ensures VerdictOn(u, output, typeOf) == Internal
  {
    BuiltIsInternal(t, u, source, metadata, output, sidecar, files, true, typeOf);
    ReleasableAfterBuild(t, u, shared, temp, source, metadata, output, release, sidecar, files);
  }

  /**
   * The stages of an external package: u is the tree after the build, mid that with the server files in release, and
   * w that with the archive in output laid over it.
   */
  ghost predicate HandedThrough(
    t: Tree, u: Tree, mid: Tree, w: Tree, source: Path, metadata: Path, output: Path, release: Path, umask: Mode,
    inject: Content -> Option<Content>)
  {
    && BuiltExternal(t, u, source, metadata, output, inject, true)
    && ServerFiles(u, mid, output, release) && ServerReady(t, mid, source, metadata, release, inject)
    && Presented(mid, w, output, release, umask)
    && (OneArchive(t, source, metadata) ==> LaidOver(t, mid, w, source, release, umask))
  }

  /** What release achieves after a build. */
  ghost predicate Achieved(
    t: Tree, w: Tree, shared: Path, source: Path, metadata: Path, output: Path, release: Path, umask: Mode,
    inject: Content -> Option<Content>, verdict: Verdict)
  {
    match verdict
    case Unreadable => false
    case Internal => Released(t, w, source, release, umask) && Tidy(t, w, shared, In(output) + In(release))
    case External =>
      && (exists u, mid :: HandedThrough(t, u, mid, w, source, metadata, output, release, umask, inject))
      && (OneArchive(t, source, metadata) ==> HeldExactly(t, w, shared, source, output, release))
  }

  lemma {:induction false} LaidOverAfter(
    t: Tree, u: Tree, mid: Tree, w: Tree, source: Path, metadata: Path, output: Path, release: Path, umask: Mode,
    inject: Content -> Option<Content>)
    requires WellFormed(t) && WellFormed(mid) && Apart(output, release) && Vacant(t, output)
    requires BuiltExternal(t, u, source, metadata, output, inject, true) && OneArchive(t, source, metadata)
    requires ServerFiles(u, mid, output, release) && IsDirectory(mid, release)
    requires Presented(mid, w, output, release, umask)
    ensures LaidOver(t, mid, w, source, release, umask)
  {
    if IsDirectory(t, source + [MetaInf]) {
      OverlaidAfter(t, u, mid, w, source, metadata, output, release, umask, inject);
    } else {
      NoArchive(t, u, mid, source, metadata, output, release, inject);
    }
  }

  lemma {:induction false} AchievedExternal(
    t: Tree, u: Tree, mid: Tree, w: Tree, shared: Path, source: Path, metadata: Path, output: Path, release: Path,
    umask: Mode, inject: Content -> Option<Content>)
    requires Prepared(t, shared, source, metadata, output, release) && WellFormed(u) && WellFormed(mid)
    requires BuiltExternal(t, u, source, metadata, output, inject, true) && FileAt(t, metadata + [MetadataJson])
    requires Vacant(u, release) && ServerFiles(u, mid, output, release) && Presented(mid, w, output, release, umask)
    ensures Achieved(t, w, shared, source, metadata, output, release, umask, inject, External)
  {
    ServerReadyAfter(t, u, mid, source, metadata, output, release, inject);
    if OneArchive(t, source, metadata) {
      LaidOverAfter(t, u, mid, w, source, metadata, output, release, umask, inject);
      HeldInTheEnd(t, u, mid, w, shared, source, metadata, output, release, umask, inject);
    }
    assert HandedThrough(t, u, mid, w, source, metadata, output, release, umask, inject);
  }

  lemma {:induction false} AchievedInternal(
    t: Tree, u: Tree, w: Tree, shared: Path, source: Path, metadata: Path, output: Path, release: Path,
    umask: Mode, inject: Content -> Option<Content>)
    requires Releasable(t, u, source, output, release) && Tidy(t, u, shared, In(output))
    requires !Under(release, shared) && IsDirectory(t, shared) && Presented(u, w, output, release, umask)
    ensures Achieved(t, w, shared, source, metadata, output, release, umask, inject, Internal)
  {
    ReleasableMeans(t, u, w, source, output, release, umask);
    TidyInside(u, w, shared, release);
    TidyTwice(t, u, w, shared, output, release);
  }

  /** The second half. */
  method ReleaseAfter(
    disk: Disk, ghost shared: Path, ghost source: Path, ghost metadata: Path, output: Path, release: Path,
    ghost inject: Content -> Option<Content>, typeOf: Content -> Option<string>, ghost t: Tree)
    returns (ok: bool, verdict: Verdict)
    requires disk.reliable && AllPrepared(t, shared, source, metadata, output, release) && WellFormed(disk.tree)
    requires VerdictOn(t, metadata, typeOf) == VerdictOn(disk.tree, output, typeOf)
    requires Tidy(t, disk.tree, shared, In(output))
    requires LeftForRelease(
               t, disk.tree, source, metadata, output, release, inject, VerdictOn(t, metadata, typeOf))
    modifies disk`tree
    ensures WellFormed(disk.tree) && verdict == VerdictOn(t, metadata, typeOf)
    ensures ok ==> Achieved(t, disk.tree, shared, source, metadata, output, release, disk.umask, inject, verdict)
    ensures OneArchive(t, source, metadata) || verdict == Internal ==> OnlyUnder(old(disk.tree), disk.tree, release)
    ensures verdict == Internal ==> ok
    ensures verdict == External && OneArchive(t, source, metadata) && NoClash(t, source + [MetaInf]) ==> ok
  {
    ghost var u, mid := disk.tree, disk.tree;
    ArchiveLandsInside(t, u, source, metadata, output, release, inject, VerdictOn(t, metadata, typeOf));
    if VerdictOn(t, metadata, typeOf) == Internal {
      ReleasableMeans(t, u, u, source, output, release, disk.umask);
    } else {
      ServableAfter(t, u, source, metadata, output, release, inject);
    }
    ok, verdict, mid := Release(disk, output, release, typeOf);
    if verdict == Internal {
      if ok { AchievedInternal(t, u, disk.tree, shared, source, metadata, output, release, disk.umask, inject); }
    } else {
      ServerReadyAfter(t, u, mid, source, metadata, output, release, inject);
      if ok {
        AchievedExternal(t, u, mid, disk.tree, shared, source, metadata, output, release, disk.umask, inject);
      } else if OneArchive(t, source, metadata) && NoClash(t, source + [MetaInf]) {
        PresentableAfter(t, u, mid, source, metadata, output, release, disk.umask, inject);
      }
    }
  }

  /** The entries of an archive of a directory land where it is extracted. */
  lemma {:induction false} ArchiveContained(a: Tree, src: Path, c: Content, t: Tree, dest: Path)
    requires WellFormed(a) && ArchiveOf(a, src, c) && WellFormed(t) && IsDirectory(t, dest)
    ensures Contained(c.entries, dest)
  {
    var es := c.entries;
    var ps :| IsArchive(a, src, es, ps);
    forall i | 0 <= i < |es| ensures Under(dest, Target(dest, es[i].name)) { TargetOf(a, src, es, ps, t, dest, i); }
  }

  lemma {:induction false} ArchiveLandsInside(
    t: Tree, u: Tree, source: Path, metadata: Path, output: Path, release: Path, inject: Content -> Option<Content>,
    verdict: Verdict)
    requires WellFormed(t) && WellFormed(u) && IsDirectory(u, release) && Vacant(t, output)
    requires LeftForRelease(t, u, source, metadata, output, release, inject, verdict)
    ensures OneArchive(t, source, metadata) || verdict == Internal ==> LandsInside(u, output, release)
  {
    if IsDirectory(t, source + [MetaInf]) {
      ArchiveContained(t, source + [MetaInf], u[output + [MetaInfTar]].content, u, release);
    }
  }

  lemma {:induction false} BothHalves(t: Tree, u: Tree, w: Tree, shared: Path, output: Path, release: Path)
    requires Tidy(t, u, shared, In(output)) && OnlyUnder(u, w, release)
    ensures SameBut(t, w, In(output) + In(release) + iset{shared})
  {}

  /**
   * Build followed by Release, on a reliable disk, for any package; each command decides for itself what kind of
   * package it is, and they decide alike. A package the sidecar builds leaves release as META-INF of the source, or as
   * it was if there is none, and in output what the sidecar was shown and left; it succeeds whenever the sidecar does
   * and the package has only directories and regular files. For an external package release ends up with the server
   * files and the archive in output laid over them, and if that archive is the one of META-INF it holds nothing else;
   * it succeeds if nothing is in the way. Only output and release differ, and the time of the shared directory. A
   * package with unreadable metadata never succeeds.
   */
  method BuildAndRelease(
    disk: Disk, shared: Path, source: Path, metadata: Path, output: Path, release: Path, sidecar: Sidecar,
    inject: Content -> Option<Content>, typeOf: Content -> Option<string>)
    returns (ok: bool, stderr: string)
    requires disk.reliable && AllPrepared(disk.tree, shared, source, metadata, output, release)
    modifies disk`tree
    ensures WellFormed(disk.tree)
    ensures ok ==>
              Achieved(old(disk.tree), disk.tree, shared, source, metadata, output, release, disk.umask, inject,
                       VerdictOn(old(disk.tree), metadata, typeOf))
    ensures ok && VerdictOn(old(disk.tree), metadata, typeOf) == Internal ==>
              BuiltBy(old(disk.tree), disk.tree, source, metadata, output, sidecar, stderr)
    ensures VerdictOn(old(disk.tree), metadata, typeOf) != External || OneArchive(old(disk.tree), source, metadata) ==>
              SameBut(old(disk.tree), disk.tree, In(output) + In(release) + iset{shared})
    ensures VerdictOn(old(disk.tree), metadata, typeOf) == Internal && Ordinary(old(disk.tree), source, metadata) ==>
              ok || !AlwaysServed(old(disk.tree), source, metadata, sidecar)
    ensures VerdictOn(old(disk.tree), metadata, typeOf) == External
            && Handable(old(disk.tree), source, metadata, output, inject) ==>
              ok || !OneArchive(old(disk.tree), source, metadata) || !NoClash(old(disk.tree), source + [MetaInf])
  {
    ghost var t := disk.tree;
    var verdict;
    ok, stderr, verdict := BuildFor(disk, shared, source, metadata, output, release, sidecar, inject, typeOf);
    if !ok { return; }
    ghost var u := disk.tree;
    ok, verdict := ReleaseAfter(disk, shared, source, metadata, output, release, inject, typeOf, t);
    if OnlyUnder(u, disk.tree, release) { BothHalves(t, u, disk.tree, shared, output, release); }
    if ok && verdict == Internal {
      StillBuilt(t, u, disk.tree, source, metadata, output, release, sidecar, stderr);
    }
  }

  /** The release leaves in output what was built. */
  lemma {:induction false} StillBuilt(
    t: Tree, u: Tree, w: Tree, source: Path, metadata: Path, output: Path, release: Path, sidecar: Sidecar,
    stderr: string)
    requires BuiltBy(t, u, source, metadata, output, sidecar, stderr)
    requires OnlyUnder(u, w, release) && Apart(output, release)
    ensures BuiltBy(t, w, source, metadata, output, sidecar, stderr)
  {
    var files :| Built(t, u, source, metadata, output, sidecar, files, true)
      && stderr == Printout(sidecar(Request(files)));
    forall q | Under(output, q) ensures !Under(release, q) { BothAbove(output, release, q); }
    BuiltStill(t, u, w, source, metadata, output, sidecar, files, true);
  }
}
