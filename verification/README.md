# Verified model of the chaincode builder

The builder has two halves. A sidecar runs Kubernetes pods for the Build and Run calls it receives: it watches a pod
it creates, streams the logs of its containers back to the caller, and for Run hands a secret with keys over to that
pod. A set of commands (build, release, run) moves directories between the peer and the sidecar, as archives or as
copies. This project models both halves and proves what each step keeps, what holds over whole runs under every
interleaving, and what comes out at the end of the pipeline. `dafny verify dfyconfig.toml` checks all of it.

## What is modelled

**Sessions.** `PodSession` is one Build or Run call as a state machine: the handler goroutine (with `executePod` and
its deferred calls) and one goroutine per log stream take steps in any order, sharing a WaitGroup counter and the
mutex of the serialized response stream. Every API call is a step labelled with what the cluster did and what the
caller was told; a change whose reply is lost is included. `PodSessionInvariant` is the inductive invariant,
`PodSessionRuns` the theorems about runs, and `PodSessionOutcome` what a call returns and which streams it opens, told
from its steps. `Custody` puts any number of sessions with distinct UUIDs into one namespace
(`Kube`), with garbage collection, with pods being deleted or applied from outside, and with containers changing
status, at any moment. `SessionRuns` shows that each of those sessions is a run of the single-call machine, so its
theorems hold among any number of concurrent calls. `PodSessionLiveness` shows that a call cannot get stuck. `Sweep`
is the cleanup at startup, `Leftovers` what finished calls leave for it. `Client` is the receive loop of the commands,
`Printed` what a reader of its output can tell.

**Files.** `FileSystem` is a disk as a mutable map from paths to directories and files with modes, times and contents.
The clock is adversarial: every operation stamps arbitrary times, and creating an entry changes the time of its
directory. A disk may be unreliable, in which case any operation may also fail for reasons of its own. `Extract`,
`Archive` and `Copy` are the three algorithms as methods over such a disk. Extraction is proved against `Want`, which
says path by path what an archive means over what was there; copying against `Copied`; `RoundTrip` relates the three.
`Staging`, `DetectCommand`, `BuildCommand`, `ExternalBuild`, `ReleaseCommand` and `RunCommand` are the commands, and
`Pipeline` composes them.

**Names.** `Paths` (with `Strings` and `CleanRules`) has cleaning and joining of slash-separated paths on strings and the
agreement of client, sidecar and file server; `FileServer` answers its requests; `Address` the rewriting of server addresses; `Uuid` the
setting of bits and printing.

## Where a promise fails, and exactly when

- An unowned secret stays behind after Run returned if and only if the reply to its creation was lost, or no owner was
  stored and the last Get failed on a secret that was there or the last Delete failed (`LeakedIffFault`). Only the failed
  Get goes unreported (`SilentLeakIsMissedGet`), because every error of Get is taken to mean that the secret is gone.
- A round trip through an archive restores modes if and only if the umask of the extracting process clears none of them
  (`ExtractionRebuilds`); paths, kinds, contents and times are restored in any case.
- Rejoining a parsed address gives the address back if and only if its host contains a dot (`RejoinParsed`); injection
  into the domain and into the hostname re-parse as intended under the conditions of `DomainInjected` and
  `HostnameInjected`, which are exact.
- The file server and the sidecar agree on where a path without a step up is if and only if the path of the base URL
  has no components (`ServerAgrees`). Their checks for steps up differ, and neither is stricter: the sidecar looks for a
  component before cleaning, the server for two dots in a row after it. `ChecksDisagree` says exactly when only one of
  them refuses, with a path for each case (`OnlyServerRefuses`, `OnlySidecarRefuses`).
- The sweep is documented as removing completed execution pods. The code selects by label and container state, so a
  completed build pod of the same peer goes too (`BuildPodIsSwept`). The pod of a finished Build is there to be taken if
  and only if the reply to its creation was lost or its deletion was not applied (`PodLeftIffFault`, `SweptIffFault`);
  that of a call cut off anywhere, if and only if it was made, not deleted and has completed (`SweptAnytime`).
- Copying a directory succeeds only if the destination is not inside a directory of the source. In that case every call
  makes another such call (`NestsAgain`), until the file system or the stack gives out; in every other case the
  recursion ends after as many levels as the source is deep (`CopyDirFrom`).
- Copying a file onto itself empties it (`CopyFile`): the target is truncated before the source is read. So copying a
  directory onto itself succeeds and empties exactly the regular files below it (`CopyDir`).
- A name in an archive can climb out of the directory it is extracted into: a rooted name cannot, nor can one without a
  step up (`StaysInside`), but a file called `../x` lands next to the directory (`Escapes`). An archive that can be
  extracted changes nothing outside exactly if every entry that lands there finds what it would make anyway
  (`ConfinedIffHarmless`).
- The type "External" is external for the commands, which disregard case, and unknown to the sidecar, which compares
  exactly (`TypesInCapitals`); as the commands never send it, nothing is lost (`ClassesAgree`, `DetectedIsHandled`).
- The connection file of an external package is rewritten first and the metadata directory copied afterwards, so a
  `connection.json` among the metadata wins over the rewritten one (`ConnectionFor`).

## Assumptions

- UUIDs of concurrent sessions are distinct, and nobody else uses the names derived from them. The names of pods and
  secrets are modelled on the strings themselves.
- Every log stream ends: its script is finite. A followed stream that never ended would keep its goroutine, and so the
  barrier, waiting for ever.
- A controller of the peer pod that is not a pod does not appear: a peer pod counts as unowned.
- JSON decoding and the environment (peer name, pod name and UID) are parameters. So is the sidecar as the commands see
  it: any function from the files in the staging directory to a reply, which is whether the call is taken, the response
  stream, and the file left behind.
- The commands are given existing directories that do not contain the shared volume, and an output directory apart from
  the others. End-to-end theorems start from empty output and release directories.

## Model

| member | source | states |
|---|---|---|
| PodSessionInvariant.StepKeepsInv | pkg/k8sbuilder/server.go:85-200 | every step of every goroutine of a Build or Run call keeps mutex ownership, log positions, WaitGroup count, defer stack, stream map, coverage and secret progress |
| PodSessionInvariant.DeferUnwind | pkg/k8sbuilder/server.go:218-234 | deferred calls run last registered first, none twice and none left out |
| PodSessionInvariant.ActiveLoop | pkg/k8sbuilder/server.go:262-291 | the map of active streams and the opened streams stay in one-to-one correspondence |
| PodSessionRuns.WaitGroupCounts | pkg/k8sbuilder/server.go:241-291 | in every reachable state the counter is the number of opened minus finished streams, and never negative |
| PodSessionRuns.SendsExclusive | pkg/k8sbuilder/server.go:185-200 | no two goroutines are inside Send of the response stream at once |
| PodSessionRuns.LogsComplete | pkg/k8sbuilder/server.go:241-302 | when the phase of the pod is reported, what each opened stream handed to Send is exactly its whole script, in order |
| PodSessionRuns.LogsInOrder | pkg/k8sbuilder/server.go:316-326 | at any time, on every path, what a stream handed to Send is a prefix of its script |
| PodSessionRuns.NothingAfterReport | pkg/k8sbuilder/server.go:293-299 | once the phase is reported no goroutine of the call can take another step |
| PodSessionRuns.EverythingReleased | pkg/k8sbuilder/server.go:219-285 | on every exit the deferred calls are, in order: each opened stream closed once, newest first, one Delete of a confirmed build pod and none of a run pod, one Stop of the watch |
| PodSessionRuns.NothingReleasedEarly | pkg/k8sbuilder/server.go:219-285 | no deferred call runs before executePod is returning |
| PodSessionRuns.WatchedBeforeCreated | pkg/k8sbuilder/server.go:215-233 | a pod exists only with the watch in place, and a run pod is watched only after its secret got its owner |
| PodSessionRuns.OneStreamEach | pkg/k8sbuilder/server.go:267-287 | across any sequence of events a container name has at most one stream |
| PodSessionRuns.StreamsOnlyGrow | pkg/k8sbuilder/server.go:242-287 | a container that has a stream keeps that very stream |
| PodSessionLiveness.NeverStuck | pkg/k8sbuilder/server.go:244-302 | mutex, barrier and watch loop cannot block one another: in every reachable state that is not over, some step is enabled |
| PodSessionLiveness.CallCompletes | pkg/k8sbuilder/server.go:293-302 | from the barrier, or any other exit from the loop, a call takes at most a bounded number of steps, in any order |
| PodSessionOutcome.UpdateCovered | pkg/k8sbuilder/server.go:262-291 | after an update is processed each container of it, init or not, that is running or terminated has a stream, or its failed request in that update is reported exactly once |
| PodSessionOutcome.RequestsInTurn | pkg/k8sbuilder/server.go:263-276 | logs are requested for the containers of the last update in turn, init containers first, only if running or terminated, and never for one that has a stream |
| PodSessionOutcome.StreamsAsOpened | pkg/k8sbuilder/server.go:275-290 | the goroutine for a container reads the very stream that the request for its logs was answered with |
| PodSessionOutcome.PhaseIsLastSeen | pkg/k8sbuilder/server.go:293-298 | what is reported is the phase the last update had: success exactly if the pod succeeded, and that it failed exactly if it failed |
| PodSessionOutcome.WaitsIffEnded | pkg/k8sbuilder/server.go:244-302 | the loop waits for events while the last update has the pod unfinished, and for the logs once it has succeeded or failed |
| PodSessionOutcome.FailsBecause | pkg/k8sbuilder/server.go:85-302 | a call returns a failure exactly if that failure showed in one of its steps, unless a failed deletion of the secret afterwards takes its place |
| PodSessionOutcome.SucceedsBecause | pkg/k8sbuilder/server.go:85-302 | a call returns success exactly if it was to run an external chaincode, or the logs were waited for, the last update had the pod succeeded, and no deletion of the secret failed |
| PodSessionOutcome.FailuresAreSaid | pkg/k8sbuilder/server.go:226-286 | a failed log request, deferred call or hand-over of the secret is said on the response stream, with its error |
| PodSessionOutcome.KindByType | pkg/k8sbuilder/server.go:571-588 | the sidecar builds exactly the types that are one of four words, in letters of either case, and takes for external just the one spelling |
| PodSessionOutcome.TypesInCapitals | pkg/k8sbuilder/server.go:446-458 | GOLANG and JAVA are built; External is not, and is not what Run takes for external |
| Custody.StepKeepsInv | pkg/k8sbuilder/server.go:152-183 | every step of every session, of garbage collection and of outsiders keeps that pods and secrets under a session's names are its own, with the owners it stored |
| Custody.NamesDistinct | pkg/k8sbuilder/server.go:716-724 | distinct UUIDs give distinct pod and secret names, whatever the stages |
| Custody.LeakedIffFault | pkg/k8sbuilder/server.go:152-160 | when Run has returned, its secret is there without an owner exactly if one of the listed API faults happened |
| Custody.SilentLeakIsMissedGet | pkg/k8sbuilder/server.go:730-747 | if Run returned no error about the secret and it leaked, the last Get failed although the secret was there |
| Custody.LeakHappens | pkg/k8sbuilder/server.go:730-736 | a concrete run that ends with a leaked secret and an error that does not mention it |
| Custody.SecretHandedOver | pkg/k8sbuilder/server.go:758-781 | otherwise the secret is gone or has exactly one owner, the name and UID of the pod this call created |
| Custody.GoneUnlessStored | pkg/k8sbuilder/server.go:730-747 | on every exit before the owner is stored, no secret is left, unless one of those faults happened |
| Custody.OthersLeftAlone | pkg/k8sbuilder/server.go:715-781 | a step of one session changes neither the secret nor the pod of another |
| Custody.OwnerChains | pkg/k8sbuilder/server.go:470-477 | whatever a finished session has in the cluster is owned by its peer pod, directly or through its pod, or leaked |
| Custody.PodsCascade | pkg/k8sbuilder/server.go:341-348 | once the peer pod is gone, garbage collection run to its end leaves none of the session's pods |
| Custody.SecretsCascade | pkg/k8sbuilder/server.go:738-776 | and its secret exactly if one of the hand-off faults happened |
| Custody.SessionRuns | pkg/k8sbuilder/server.go:135-183 | what a session does among any number of others is a run of the single-call machine |
| Custody.LogsCompleteAmongOthers | pkg/k8sbuilder/server.go:241-302 | complete, ordered logs for every call that reports its phase, under any number of concurrent calls |
| Kube.CollectionOrderIrrelevant | pkg/k8sbuilder/server.go:341-348 | garbage collection over the owner references settles in the same cluster in whatever order it works |
| Kube.CollectionStops | pkg/k8sbuilder/server.go:341-348 | no run of collection is longer than the number of resources |
| Kube.CollectionSettles | pkg/k8sbuilder/server.go:341-348 | collection can always be run to its end |
| Kube.SupportedSurvive | pkg/k8sbuilder/server.go:765-776 | resources that are unowned or owned by one another are never collected |
| Kube.SurvivesIffAnchored | pkg/k8sbuilder/server.go:765-776 | what is left when collection has settled is exactly what is anchored by owners that are there under the recorded name and UID |
| Client.Receive | pkg/command/build.go:91-110 | prints the texts before the first unknown message, in order, and succeeds exactly if there is none and the stream ends in EOF |
| Client.LogsReachClient | pkg/command/run.go:83-102 | with accepted sends and a reported phase, the printed text is the messages sent, rendered and joined, and the messages of each stream are its whole script |
| Printed.PrintedLines | pkg/command/build.go:91-110 | of the printed text alone: the lines that start with the name of a container are exactly that container's lines, in order, and the report if reading them failed; for names without colon or blank and lines without newline |
| Sweep.Handler.ListCompleted | pkg/pod/handler.go:41-74 | on the fields of the pods: each pod of this peer whose first container terminated with reason Completed, once, and no other |
| Sweep.Handler.DeletePods | pkg/pod/handler.go:76-84 | on a failure exactly a prefix of the list is gone, up to a deletion whose reply was lost; on success all of it |
| Sweep.Handler.Sweep | cmd/ibp-builder/main.go:125-134 | only this peer's completed pods go, and all of them if nothing failed; a pod without containers, or whose first one is running or ended for another reason, is untouched |
| Sweep.SecretsFollowPods | pkg/pod/handler.go:41-88 | after a full sweep and garbage collection, a secret is gone exactly if the pod owning it was swept |
| Sweep.UnsweptPodsStay | pkg/pod/handler.go:54-71 | pods of other peers and pods that have not completed outlive sweep and collection, as long as a pod that owns them still stands |
| Leftovers.PodLeftIffFault | pkg/k8sbuilder/server.go:237-239 | when Build has returned and nobody else removed its pod, it is still there exactly if the reply to its creation was lost or its deletion was not applied; a run pod exactly if it was made |
| Leftovers.DeletedIsGone | pkg/k8sbuilder/server.go:305-310 | a build pod whose deletion was applied is gone for good, whatever else happens |
| Leftovers.SweptIffFault | pkg/pod/handler.go:54-71 | the sweep takes the pod of a finished Build exactly if such a fault left it and its first container completed |
| Leftovers.SweptAnytime | pkg/pod/handler.go:54-71 | at any moment of any call, also one that is then cut off, the session's pod is there exactly if it was made and not deleted, and the sweep takes it exactly if its first container has completed too |
| Leftovers.BuildPodIsSwept | pkg/pod/handler.go:62-70 | a concrete run that ends with a completed build pod for the sweep to take |
| FileSystem.Disk.MkdirAll | pkg/fs/tar.go:121-126 | adds only missing directories on the way down, changes only times of directories that got an entry, succeeds exactly if nothing else is in the way |
| FileSystem.Disk.OpenTruncated | pkg/fs/tar.go:128-132 | an empty file that keeps the mode of one that was there; only its directory's time changes, and only if it is new |
| FileSystem.Disk.Chtimes | pkg/fs/tar.go:139-142 | sets one time and nothing else |
| FileSystem.Disk.ReadDir | pkg/fs/copy_linux.go:31-34 | the names in a directory, each exactly once |
| FileSystem.Disk.TempDir | pkg/command/build.go:56-60 | a new directory of mode 0700 under the umask and a new name, nothing else changed but the time of its parent |
| FileSystem.Disk.RemoveAll | pkg/command/build.go:60 | nothing outside the removed directory changes but the time of its parent |
| FileSystem.ResolvePlain | pkg/fs/tar.go:119 | joining a plain relative name, with or without its final slash, appends its components |
| Extract.WantSnoc | pkg/fs/tar.go:109-147 | what one more entry changes in the meaning of an archive |
| Extract.ExtractDirectory | pkg/fs/tar.go:121-126 | a directory entry: succeeds exactly where it fits, and advances the first pass |
| Extract.ExtractFile | pkg/fs/tar.go:128-142 | a file entry, likewise |
| Extract.PlaceFile | pkg/fs/tar.go:128-142 | opening, writing and stamping puts exactly this file there, keeping an old mode, and changes nothing else but its directory's time |
| Extract.SetDirectoryTimes | pkg/fs/tar.go:149-156 | the second pass gives the same tree for every order of the header map, a function of the tree and the headers |
| Extract.SecondPass | pkg/fs/tar.go:149-156 | the times set last are final: after both passes every headed directory has its archived time although creating entries changed it |
| Extract.ExtractTar | pkg/fs/tar.go:105-159 | for any archive, destination and clock the result is what the archive means; it has only directories and regular files if it succeeds; on a reliable disk it succeeds exactly when every entry fits and the archive is intact; on any exit, an archive whose entries all land in the destination changes nothing outside it |
| Extract.ConfinedIffHarmless | pkg/fs/tar.go:119-132 | what was extracted changed nothing outside the destination exactly if each entry that lands outside found there what it makes; in particular if none does |
| Extract.StaysInside | pkg/fs/tar.go:119 | a rooted name, or one without a step up, lands in the destination |
| Extract.Escapes | pkg/fs/tar.go:119-132 | an archive of one file called ../x can be extracted and makes that file outside the destination |
| Extract.KindsKept | pkg/fs/tar.go:120-146 | where everything fits, an entry has the kind of what was at its path |
| Extract.Overlay | pkg/fs/tar.go:108-156 | over whatever was there: contents and time of the last entry, kind and mode of what was there, other paths untouched |
| Archive.CreateTar | pkg/fs/tar.go:27-71 | an archive lists everything below the source exactly once, containers before contents, and succeeds exactly if there are only directories and regular files |
| Archive.Walk | pkg/fs/tar.go:31-70 | the walk below a directory lists exactly what is below it, for every order of names |
| Archive.NothingBelowFile | pkg/fs/tar.go:41-44 | a source that is no directory gives an empty archive |
| Copy.CopyFile | pkg/fs/copy_linux.go:67-99 | the target becomes a copy that keeps an old mode; copied onto itself it is emptied, and nothing else changes |
| Copy.CopyDirStep | pkg/fs/copy_linux.go:40-54 | making, filling and then stamping a subdirectory extends the copy by exactly that child |
| Copy.CopyFileStep | pkg/fs/copy_linux.go:56-59 | so does copying a file |
| Copy.NestsAgain | pkg/fs/copy_linux.go:40-45 | with the destination inside a directory that is copied, the call for that directory is again such a call, so no call can be the last |
| Copy.IntoItself | pkg/fs/copy_linux.go:30-63 | a directory copied into a directory of its own is such a case |
| Copy.CopyDirFrom | pkg/fs/copy_linux.go:30-63 | in that case it never succeeds, whatever room there is for longer paths; in every other case room for the depth of the source suffices, so the recursion ends; what it leaves is the copy, or the emptied files where the two are one |
| Copy.CopyDir | pkg/fs/copy_linux.go:30-63 | for any two paths: success only if the destination is not inside a directory of the source, and then, if they are apart, exactly the copy; onto itself it empties every regular file below and changes nothing else; whatever happens, nothing outside an existing destination changes; on a reliable disk it succeeds where no kind conflicts |
| RoundTrip.ArchiveMeaning | pkg/fs/tar.go:27-84 | the meaning of an archive of a directory in closed form, independent of the order of its entries |
| RoundTrip.FitsIffUnobstructed | pkg/fs/tar.go:108-147 | such an archive can be extracted exactly where no path would have to change its kind |
| RoundTrip.ExtractionRebuilds | pkg/fs/tar.go:105-159 | into an empty directory, extraction rebuilds paths, kinds, contents, times; modes exactly if the umask clears nothing; nothing else changes |
| RoundTrip.UmaskMatters | pkg/fs/tar.go:129 | a file of mode 0666 under umask 022 is not restored as it was |
| RoundTrip.CopyIsExtraction | pkg/fs/copy_linux.go:30-99 | over any destination, copying and extracting an archive leave the same tree up to the time of the destination itself |
| RoundTrip.SameDemand | pkg/fs/copy_linux.go:30-63 | and both succeed on a reliable disk under the same condition |
| RoundTrip.Transfer | pkg/fs/tar.go:27-159 | archive on one disk, extract on another: the composition rebuilds the source |
| Staging.IsExternalCC | pkg/command/common.go:25-44 | external exactly if the type is that word in letters of either case, an error exactly if the file has no type; an unreadable file counts as not external |
| Staging.ExternalInCapitals | pkg/command/common.go:39 | External and EXTERNAL are external |
| DetectCommand.Detect | pkg/command/detect.go:30-62 | a package is accepted exactly if its type is one of five words, in letters of either case; a file that cannot be read or has no type is an error |
| DetectCommand.DetectedIsHandled | pkg/command/detect.go:44-62 | what is accepted is exactly what the commands take for external or the sidecar can build |
| Staging.CreateTarFile | pkg/command/build.go:151-175 | the target becomes an archive of the source as it was, with mode 0666 under the umask if it is new, and only the target and its directory's time change |
| Staging.FindMetadata | pkg/k8sbuilder/server.go:673-686 | the loop over the headers finds the first entry named metadata.json |
| Staging.FoundIsFile | pkg/k8sbuilder/server.go:673-686 | in an archive of any depth that is the file of that name at the top of the directory, and nothing else |
| BuildCommand.Stage | pkg/command/build.go:66-79 | three archives, the one of META-INF exactly if it is a directory; nothing outside the staging directory changes |
| BuildCommand.CopyDelivers | pkg/command/build.go:112-115 | copying the staging directory delivers its files and leaves everything else in place |
| BuildCommand.BuildInternal | pkg/command/build.go:44-118 | on every exit only staging, output and the shared directory's time are touched, nothing that was there is gone, and staging is removed; the sidecar is shown exactly the archives of the package, its reply is what is printed and decides on success, and then the archives and what it left are in the output directory |
| ExternalBuild.UpdateFile | pkg/fs/update.go:26-43 | the target holds the updated contents, with the mode of the source under the umask if it is new; nothing else changes but its directory's time; it succeeds if the file can be updated and the target opened |
| ExternalBuild.BuildExternal | pkg/command/build.go:120-149 | output gets the rewritten connection file, a copy of the metadata over it, and the archive of META-INF if there is one, and otherwise keeps what it had; on any exit nothing outside output changes; it succeeds if nothing is in the way |
| ReleaseCommand.ReleaseExternal | pkg/command/release.go:72-105 | both server files reach the release directory, new directories with mode 0750 and new files with that of their source, under the umask; on any exit nothing outside it changes; it succeeds if they are there and nothing is in the way |
| ReleaseCommand.Present | pkg/command/release.go:49-69 | the META-INF archive is extracted if it exists, a file that is neither empty nor an archive is an error; otherwise nothing happens; on any exit nothing outside release changes if its entries land inside |
| ReleaseCommand.Release | pkg/command/release.go:31-70 | both halves in order; for either kind of package, success exactly where the server files and the archive allow; on any exit nothing outside release changes if the entries of the archive land inside |
| RunCommand.Run | pkg/command/run.go:38-105 | the sidecar is shown exactly the three files, its reply is what is printed, and the command succeeds exactly if the package is not external, the files are there and that reply is a success; on every exit only the time of the shared directory differs |
| Pipeline.Build | pkg/command/build.go:44-54 | the command decides between the two kinds, touches nothing if it cannot, and otherwise achieves what that kind of build promises; on any exit only output differs, and the time of the shared directory |
| Pipeline.BuildAndRelease | pkg/command/release.go:31-70 | for any package, from empty directories: release ends as META-INF of the source or as it was before the build if there is none, output has what the sidecar was shown and left, and only these two differ and the time of the shared directory; for an external package release gets the server files with the archive in output over them, and, unless its metadata brings that archive where the source has no META-INF, holds exactly the server files and META-INF; and when it succeeds |
| Pipeline.PresentableAfter | pkg/command/release.go:64-67 | META-INF can be laid over the server files unless a path of it has another kind |
| Pipeline.BuiltIsInternal | pkg/command/common.go:25-44 | after a non-external build the output is classified as not external |
| Pipeline.SidecarSeesMetadata | pkg/k8sbuilder/server.go:656-690 | the sidecar reads the bytes the command classified the package by, so the two decide alike |
| Pipeline.ClassesAgree | pkg/k8sbuilder/server.go:571-588 | what the commands take for external, whatever the case of its letters, is never built by the sidecar, and what it takes for external they never send |
| Pipeline.BuildAndRun | pkg/command/run.go:38-105 | the sidecar is shown for the run just what it left in reply to the archives of the package, the very metadata archive it was shown then, with the package's own metadata.json in it, and the peer's chaincode.json; both replies are printed; the run succeeds exactly if the package is not external, both replies are successes and there was something to run |
| Paths.CleanEqual | pkg/filetransfer/handler.go:38 | two paths are cleaned to the same exactly if they have the same components from the same start |
| Paths.CleanKeeps | pkg/filetransfer/handler.go:38 | cleaning keeps the components and is idempotent |
| CleanRules.SlashesMerge | pkg/filetransfer/handler.go:38 | in any path two slashes in a row are cleaned like one |
| CleanRules.DotsGo | pkg/filetransfer/handler.go:38 | a single dot between slashes goes |
| CleanRules.StepsUpCancel | pkg/filetransfer/handler.go:38 | a step up goes together with the name before it |
| CleanRules.RootStays | pkg/filetransfer/handler.go:38 | a step up at the root goes |
| CleanRules.LastSlashGoes | pkg/filetransfer/handler.go:38 | so does a slash at the end |
| CleanRules.CleanedStays | pkg/filetransfer/handler.go:38 | what none of these applies to is left as it is |
| Paths.ContainsDotDot | pkg/k8sbuilder/server.go:590-601 | the substring shortcut changes nothing: it finds exactly ".." as a whole component |
| Paths.ResolveRequest | pkg/filetransfer/handler.go:38-64 | which requests are health checks, refused, or served from where |
| Paths.ServerAgrees | pkg/k8sbuilder/server.go:795-802 | for a relative path without a step up, server and sidecar agree exactly if the base URL's path has no components |
| Paths.BaseMatters | pkg/k8sbuilder/server.go:795-802 | with the base path /files the two look in different places for every such path |
| Paths.JoinAssociates | pkg/command/build.go:62-86 | joining step by step or at once is the same for paths without a step up |
| Paths.RelOfChild | pkg/command/build.go:62-65 | the relative path of a staging directory is its name |
| Paths.AllAgree | pkg/command/build.go:82-86 | client, sidecar and file server name the same file |
| Paths.RequestShown | pkg/k8sbuilder/server.go:795-802 | the requested path is the two names between slashes |
| Paths.ServerRefusal | pkg/filetransfer/handler.go:38-62 | for every relative path and every base, the server refuses exactly if two dots in a row or a NUL are in a component left after following the path from the base |
| Paths.ForwardRefusal | pkg/filetransfer/handler.go:59-62 | without a step up that is a component of the base or of the path |
| Paths.ChecksDisagree | pkg/k8sbuilder/server.go:590-601 | the sidecar alone refuses exactly if there is a step up and nothing suspect is left; the server alone exactly if there is none and something suspect is |
| Paths.OnlyServerRefuses | pkg/filetransfer/handler.go:59-62 | the name a..b passes the sidecar and is refused by the server |
| Paths.OnlySidecarRefuses | pkg/k8sbuilder/server.go:590-601 | the path a/../b is refused by the sidecar, and the server looks for b |
| FileServer.Upload | pkg/filetransfer/handler.go:76-96 | an upload creates its file or fails; a conflict exactly if something is there, which is never touched |
| FileServer.ServeHTTP | pkg/filetransfer/handler.go:37-103 | the answer to every request: healthy exactly for the health check, refused if the path is suspect, and on a reliable disk a Get serves the file exactly if there is one, and a Put creates it exactly if the place is free and in a directory, with the error that fits otherwise; nothing that is there changes, and at most the path asked for is added, which lies in the root |
| Strings.SegmentsOccur | pkg/k8sbuilder/server.go:595-599 | the segments of a string are exactly what occurs in it between separators |
| Address.ParsesIffOneColon | pkg/command/build.go:252-260 | an address parses exactly if it is a host and a port around its only colon |
| Address.ParseRejoined | pkg/command/build.go:251-267 | parsing undoes rejoining |
| Address.RejoinParsed | pkg/command/build.go:251-267 | rejoining undoes parsing exactly if the host contains a dot |
| Address.UndottedHost | pkg/command/build.go:262-264 | a host without a dot is taken for hostname and domain both, so rejoining doubles it |
| Address.DomainInjected | pkg/command/build.go:229-236 | the rewritten address has the intended domain exactly if the peer has neither dot nor colon |
| Address.HostnameInjected | pkg/command/build.go:220-227 | the rewritten address has the intended hostname exactly if the host contains a dot and the peer no colon |
| Address.PeerIdAppend | pkg/command/build.go:269-275 | removing blanks works piece by piece, keeping everything else in order |
| Address.Inject | pkg/command/build.go:185-249 | when the file is kept, rewritten or refused; "hostname" changes just the hostname exactly if the host has a dot and the peer no colon, "domain" just the domain exactly if the peer has neither, any other identifier nothing, and no other field changes |
| Uuid.SetBits | pkg/k8sbuilder/server.go:789-790 | in place, the six fixed bits get their values and the 122 free ones stay |
| Uuid.PrintRoundTrip | pkg/k8sbuilder/server.go:792 | reading the printed digits back gives the bytes |
| Uuid.PrintDigits | pkg/k8sbuilder/server.go:792 | 36 characters: dashes at four places, lower-case hexadecimal digits everywhere else |
| Uuid.VersionAndVariant | pkg/k8sbuilder/server.go:789-792 | the version digit is 4 and the variant digit 8, 9, a or b |
| Uuid.SameUuid | pkg/k8sbuilder/server.go:784-793 | two results are equal exactly if the random bytes agree on the 122 free bits |
| Uuid.New | pkg/k8sbuilder/server.go:784-793 | the string is the printed form of the adjusted random bytes |

## Left out

- Copy.CopyDirFrom: says what is left for directories apart from each other and for one copied onto itself; for a source inside the destination, and for a destination that is only made inside the source, only whether it can succeed, that it ends, and what it may touch.
- Staging.CreateTarFile: every failed write is a failure. The code ignores the errors of closing the tar writer and the archive file, so it can also report success with a truncated archive.
- FileSystem.Disk.ReadDir: the order of the names is left open, so the theorems hold for every order and not only the sorted one.
- FileSystem.Disk.RemoveAll: a failure removes one branch at most; its contract allows any part.
- Symbolic links, devices and other special files are one kind `Special`. Archiving refuses them as the code does. Copying refuses them in the model, where the code would follow a link and copy what it leads to, or read a device.
- Permissions of the running process, access times, owners, and mode bits above the nine permission bits.
- FileServer.ServeHTTP: authentication, content types, redirects and directory listings of the library's file serving.
- Delivery of logs after cancellation or a broken watch: the code does not wait there, so only the order is proved.
- Pod deletion is immediate in the model; grace periods and finalizers are not part of it.
- Pod and container definitions, image names, scripts, certificates and passwords: constants or cryptography.
- The Kubernetes client, gRPC, TLS and the tar byte format: calls with outcomes, a sequence of messages that ends in EOF or an error, and a sequence of entries.
- Decoding and encoding of JSON, and URL escaping: parameters or identities. A file that is neither empty nor an archive fails to read as one.
- Command-line flags, environment lookup and logging set-up.
- pkg/fs/copy.go: the same algorithm as pkg/fs/copy_linux.go for other platforms.
