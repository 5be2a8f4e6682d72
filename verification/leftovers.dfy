/** What finished calls leave in the cluster besides secrets, and what of it the sweep at startup takes. */
module Leftovers {
  import opened Common
  import opened Kube
  import PS = PodSession
  import PodSessionInvariant
  import PodSessionRuns
  import opened Custody
  import opened Sweep

  /** No one else has removed a pod of that name, and neither has garbage collection. */
  ghost predicate Undisturbed(steps: seq<Step>, i: nat, name: string)
    requires i <= |steps|
  {
    forall j: nat | j < i :: steps[j] != OutsideDelete(name) && steps[j] != Collect(PodNamed(name))
  }

  /** The pod of x was made and not deleted by x. */
  predicate Left(x: Session) { x.state.custody.podMade && !x.state.ex.deleted }

  lemma {:induction false} NotDeletedYet(cfg: PS.Config, s: PS.State)
    requires PodSessionInvariant.DeferInv(cfg, s) && !PodSessionInvariant.Leaving(s)
    ensures !s.ex.deleted
  {
    var r := PodSessionInvariant.AllDeferred(cfg, s);
    assert r[|r|..] == [];
  }

  predicate AboutPod(a: PS.Action) { (a.Call? && a.call.PodCreated?) || (a.Loop? && a.loop.DeferredCall?) }

  lemma {:induction false} CallKeepsDeleted(cfg: PS.Config, s: PS.State, call: PS.CallStep)
    requires PS.CallEnabled(s, call)
    ensures PS.NextCall(cfg, s, call).ex.deleted == s.ex.deleted
  {}

  lemma {:induction false} LoopKeepsDeleted(cfg: PS.Config, s: PS.State, l: PS.LoopStep)
    requires PS.LoopEnabled(s, l) && !l.DeferredCall?
    ensures PS.NextLoop(cfg, s, l).ex.deleted == s.ex.deleted
  {}

  lemma {:induction false} OutputKeepsDeleted(s: PS.State, i: PS.StreamStep)
    requires PS.StreamEnabled(s, i)
    ensures PS.NextStream(s, i).ex.deleted == s.ex.deleted
  {}

  lemma {:induction false} OtherStepsKeepPod(c: Cluster, x: Session, a: PS.Action)
    requires PS.Enabled(x.state, a) && !AboutPod(a)
    ensures Effect(c, x, a).pods == c.pods
    ensures Left(x.(state := PS.Next(x.cfg, x.state, a))) == Left(x)
  {
    match a
    case Call(call) =>
      CallKeepsPod(x.cfg, x.state, call);
      CallKeepsDeleted(x.cfg, x.state, call);
    case Loop(l) =>
      LoopKeepsPod(x.cfg, x.state, l);
      LoopKeepsDeleted(x.cfg, x.state, l);
    case Output(i) =>
      OutputKeepsSecret(x.state, i);
      OutputKeepsDeleted(x.state, i);
  }

  /** Whether the pod is there and whether the session left it agree after a step if they did before. */
  ghost predicate Follows(c: Cluster, x: Session, d: Cluster, y: Session) {
    && ((x.cfg.podName in c.pods ==> Left(x)) ==> (x.cfg.podName in d.pods ==> Left(y)))
    && ((Left(x) ==> x.cfg.podName in c.pods) ==> (Left(y) ==> x.cfg.podName in d.pods))
  }

  lemma {:induction false} CreationFollows(c: Cluster, x: Session, a: PS.Action)
    requires PodSessionInvariant.ShapeInv(x.cfg, x.state) && PodSessionInvariant.DeferInv(x.cfg, x.state)
    requires PS.Enabled(x.state, a) && Plausible(c, x, a) && a.Call? && a.call.PodCreated?
    ensures Follows(c, x, Effect(c, x, a), x.(state := PS.Next(x.cfg, x.state, a)))
  {
    NotDeletedYet(x.cfg, x.state);
  }

  lemma {:induction false} DeletionLeaves(s: PS.State, stage: PS.Stage, applied: bool, ok: bool, error: string)
    ensures var s', d := PS.NextDeferred(s, stage, applied, ok, error), s.ex.defers;
      && s'.custody.podMade == s.custody.podMade
      && (s'.ex.deleted <==> s.ex.deleted || (d != [] && d[|d| - 1].DeletePod? && applied))
  {}

  lemma {:induction false} DeletionFollows(c: Cluster, x: Session, a: PS.Action)
    requires PS.Enabled(x.state, a) && a.Loop? && a.loop.DeferredCall?
    ensures Follows(c, x, Effect(c, x, a), x.(state := PS.Next(x.cfg, x.state, a)))
  {
    DeletionLeaves(x.state, x.cfg.stage, a.loop.applied, a.loop.ok, a.loop.error);
  }

  lemma {:induction false} OwnStepFollows(c: Cluster, x: Session, a: PS.Action)
    requires PodSessionInvariant.ShapeInv(x.cfg, x.state) && PodSessionInvariant.DeferInv(x.cfg, x.state)
    requires PS.Enabled(x.state, a) && Plausible(c, x, a)
    ensures Follows(c, x, Effect(c, x, a), x.(state := PS.Next(x.cfg, x.state, a)))
  {
    if !AboutPod(a) {
      OtherStepsKeepPod(c, x, a);
    } else if a.Call? {
      CreationFollows(c, x, a);
    } else {
      DeletionFollows(c, x, a);
    }
  }

  /** d has the pod n only if c has, and certainly if c has and the step does not remove just that pod. */
  ghost predicate PodStays(c: Cluster, step: Step, d: Cluster, n: string) {
    && (n in d.pods ==> n in c.pods)
    && (n in c.pods && step != OutsideDelete(n) && step != Collect(PodNamed(n)) ==> n in d.pods)
  }

  lemma {:induction false} SessionsKeepPod(sys: System, id: nat, a: PS.Action, other: nat)
    requires NamesInv(sys) && Enabled(sys, Do(id, a)) && other in sys.sessions && other != id
    ensures PodStays(
      sys.cluster, Do(id, a), Effect(sys.cluster, sys.sessions[id], a), sys.sessions[other].cfg.podName)
  {
    var x, y := sys.sessions[id], sys.sessions[other];
    NamesDistinct(x.uuid, x.cfg, y.uuid, y.cfg);
    OthersUntouched(sys.cluster, x, a, y);
  }

  lemma {:induction false} WorldKeepsPod(sys: System, step: Step, id: nat)
    requires Enabled(sys, step) && !step.Do? && id in sys.sessions
    ensures PodStays(sys.cluster, step, Next(sys, step).cluster, sys.sessions[id].cfg.podName)
  {}

  /** A step that is not the session's own leaves its pod where it is, unless it removes just that pod. */
  lemma {:induction false} OthersKeepPod(sys: System, step: Step, id: nat)
    requires NamesInv(sys) && Enabled(sys, step) && id in sys.sessions && !(step.Do? && step.session == id)
    ensures PodStays(sys.cluster, step, Next(sys, step).cluster, sys.sessions[id].cfg.podName)
  {
    if step.Do? {
      SessionsKeepPod(sys, step.session, step.action, id);
    } else {
      WorldKeepsPod(sys, step, id);
    }
  }

  /** The pod of a session is there only if it made it and did not delete it, and, undisturbed, exactly then. */
  ghost predicate Tracked(sys: System, steps: seq<Step>, i: nat, id: nat)
    requires id in sys.sessions && i <= |steps|
  {
    var x := sys.sessions[id];
    && (x.cfg.podName in sys.cluster.pods ==> Left(x))
    && (Undisturbed(steps, i, x.cfg.podName) && Left(x) ==> x.cfg.podName in sys.cluster.pods)
  }

  lemma {:induction false} UndisturbedBefore(steps: seq<Step>, i: nat, name: string)
    requires i < |steps| && Undisturbed(steps, i + 1, name)
    ensures Undisturbed(steps, i, name) && steps[i] != OutsideDelete(name) && steps[i] != Collect(PodNamed(name))
  {}

  lemma {:induction false} TrackedOwn(sys: System, steps: seq<Step>, i: nat, id: nat)
    requires i < |steps| && Inv(sys) && Enabled(sys, steps[i]) && id in sys.sessions && Tracked(sys, steps, i, id)
    requires steps[i].Do? && steps[i].session == id
    ensures Tracked(Next(sys, steps[i]), steps, i + 1, id)
  {
    var x := sys.sessions[id];
    if Undisturbed(steps, i + 1, x.cfg.podName) { UndisturbedBefore(steps, i, x.cfg.podName); }
    OwnStepFollows(sys.cluster, x, steps[i].action);
  }

  lemma {:induction false} OthersKeepSession(sys: System, step: Step, id: nat)
    requires Enabled(sys, step) && id in sys.sessions && !(step.Do? && step.session == id)
    ensures id in Next(sys, step).sessions && Next(sys, step).sessions[id] == sys.sessions[id]
  {}

  lemma {:induction false} TrackedOther(sys: System, steps: seq<Step>, i: nat, id: nat)
    requires i < |steps| && Inv(sys) && Enabled(sys, steps[i]) && id in sys.sessions && Tracked(sys, steps, i, id)
    requires !(steps[i].Do? && steps[i].session == id)
    ensures id in Next(sys, steps[i]).sessions && Tracked(Next(sys, steps[i]), steps, i + 1, id)
  {
    var n := sys.sessions[id].cfg.podName;
    OthersKeepPod(sys, steps[i], id);
    OthersKeepSession(sys, steps[i], id);
    if Undisturbed(steps, i + 1, n) { UndisturbedBefore(steps, i, n); }
  }

  lemma {:induction false} TrackedStart(sys: System, steps: seq<Step>, i: nat, id: nat)
    requires i < |steps| && Enabled(sys, steps[i]) && id !in sys.sessions && id in Next(sys, steps[i]).sessions
    ensures Tracked(Next(sys, steps[i]), steps, i + 1, id)
  {}

  lemma {:induction false} TrackedNext(sys: System, steps: seq<Step>, i: nat, id: nat)
    requires i < |steps| && Inv(sys) && Enabled(sys, steps[i]) && id in Next(sys, steps[i]).sessions
    requires id in sys.sessions ==> Tracked(sys, steps, i, id)
    ensures Tracked(Next(sys, steps[i]), steps, i + 1, id)
  {
    if id !in sys.sessions {
      TrackedStart(sys, steps, i, id);
    } else if steps[i].Do? && steps[i].session == id {
      TrackedOwn(sys, steps, i, id);
    } else {
      TrackedOther(sys, steps, i, id);
    }
  }

  /** Step k hands the property on. */
  ghost predicate Hands(sys: System, steps: seq<Step>, k: nat, sys': System, id: nat)
    requires k < |steps|
  {
    id in sys'.sessions && (id in sys.sessions ==> Tracked(sys, steps, k, id)) ==> Tracked(sys', steps, k + 1, id)
  }

  lemma {:induction false} TrackedOn(states: seq<System>, steps: seq<Step>, i: nat, id: nat)
    requires |states| == |steps| + 1 && states[0].sessions == map[] && i < |states| && id in states[i].sessions
    requires forall k: nat | k < |steps| :: Hands(states[k], steps, k, states[k + 1], id)
    ensures Tracked(states[i], steps, i, id)
  {
    if i > 0 {
      assert Hands(states[i - 1], steps, i - 1, states[i - 1 + 1], id);
      if id in states[i - 1].sessions { TrackedOn(states, steps, i - 1, id); }
    }
  }

  lemma {:induction false} RunHands(states: seq<System>, steps: seq<Step>, k: nat, id: nat)
    requires IsRun(states, steps) && k < |steps|
    ensures Hands(states[k], steps, k, states[k + 1], id)
  {
    RunKeepsInv(states, steps, k);
    var sys := states[k];
    if id in states[k + 1].sessions && (id in sys.sessions ==> Tracked(sys, steps, k, id)) {
      TrackedNext(sys, steps, k, id);
    }
  }

  lemma {:induction false} PodTracked(states: seq<System>, steps: seq<Step>, i: nat, id: nat)
    requires IsRun(states, steps) && i < |states| && id in states[i].sessions
    ensures Tracked(states[i], steps, i, id)
  {
    forall k: nat | k < |steps| ensures Hands(states[k], steps, k, states[k + 1], id) {
      RunHands(states, steps, k, id);
    }
    TrackedOn(states, steps, i, id);
  }

  /** The faults that leave a build pod behind: the reply to its creation was lost, or its deletion was not applied. */
  predicate CleanUpFault(s: PS.State) {
    || (s.custody.podMade && s.ex.podUid.None?)
    || (s.ex.podUid.Some? && !s.ex.deleted)
  }

  lemma {:induction false} DeletedOnlyIfRegistered(cfg: PS.Config, s: PS.State)
    requires PodSessionInvariant.DeferInv(cfg, s) && s.ex.deleted && s.ex.defers == []
    ensures cfg.stage.BuildStage? && s.ex.podUid.Some?
  {
    var deletes := cfg.stage.BuildStage? && s.ex.podUid.Some?;
    PodSessionRuns.ReversedRegistered(s.ex.watching, deletes, PS.Opened(s));
    var r := PodSessionInvariant.AllDeferred(cfg, s);
    assert r[0..] == r;
  }

  lemma {:induction false} LeftIsFault(cfg: PS.Config, s: PS.State)
    requires PodSessionInvariant.ShapeInv(cfg, s) && PodSessionInvariant.DeferInv(cfg, s) && s.pc.Returned?
    ensures s.custody.podMade && !s.ex.deleted <==> CleanUpFault(s)
    ensures cfg.stage.RunStage? ==> !s.ex.deleted
  {
    if s.ex.deleted { DeletedOnlyIfRegistered(cfg, s); }
  }

  /**
   * When Build has returned and nobody else removed its pod, the pod is still there exactly if one of those faults
   * happened. A run pod is then there exactly if it was made.
   */
  lemma {:induction false} PodLeftIffFault(states: seq<System>, steps: seq<Step>, i: nat, id: nat)
    requires IsRun(states, steps) && i < |states| && id in states[i].sessions
    requires states[i].sessions[id].state.pc.Returned?
    requires Undisturbed(steps, i, states[i].sessions[id].cfg.podName)
    ensures var x := states[i].sessions[id];
      && (x.cfg.stage.BuildStage? ==> (x.cfg.podName in states[i].cluster.pods <==> CleanUpFault(x.state)))
      && (x.cfg.stage.RunStage? ==> (x.cfg.podName in states[i].cluster.pods <==> x.state.custody.podMade))
  {
    PodTracked(states, steps, i, id);
    RunKeepsInv(states, steps, i);
    LeftIsFault(states[i].sessions[id].cfg, states[i].sessions[id].state);
  }

  /** Disturbed or not, a build pod whose deletion was applied is gone, at once and for good. */
  lemma {:induction false} DeletedIsGone(states: seq<System>, steps: seq<Step>, i: nat, id: nat)
    requires IsRun(states, steps) && i < |states| && id in states[i].sessions && states[i].sessions[id].state.ex.deleted
    ensures states[i].sessions[id].cfg.podName !in states[i].cluster.pods
  {
    PodTracked(states, steps, i, id);
  }

  /**
   * In any reachable state, also in the middle of a call that is then cut off: the sweep takes the pod of a session
   * exactly if it was made, has not been deleted, and has completed.
   */
  lemma {:induction false} SweptAnytime(states: seq<System>, steps: seq<Step>, i: nat, id: nat)
    requires IsRun(states, steps) && i < |states| && id in states[i].sessions
    requires Undisturbed(steps, i, states[i].sessions[id].cfg.podName)
    ensures var x, pods := states[i].sessions[id], states[i].cluster.pods;
      && (x.cfg.podName in pods <==> Left(x))
      && (x.cfg.podName in Sweepable(states[i].cluster, x.cfg.peerId)
          <==> Left(x) && |pods[x.cfg.podName].containers| > 0
               && pods[x.cfg.podName].containers[0] == Terminated("Completed"))
  {
    PodTracked(states, steps, i, id);
    RunFacts(states, steps, i, id);
  }

  /** The sweep takes the pod of a finished Build exactly if it was left behind by such a fault and has completed. */
  lemma {:induction false} SweptIffFault(states: seq<System>, steps: seq<Step>, i: nat, id: nat)
    requires IsRun(states, steps) && i < |states| && id in states[i].sessions
    requires states[i].sessions[id].state.pc.Returned? && states[i].sessions[id].cfg.stage.BuildStage?
    requires Undisturbed(steps, i, states[i].sessions[id].cfg.podName)
    ensures var x, pods := states[i].sessions[id], states[i].cluster.pods;
      x.cfg.podName in Sweepable(states[i].cluster, x.cfg.peerId)
      <==> CleanUpFault(x.state) && x.cfg.podName in pods && |pods[x.cfg.podName].containers| > 0
           && pods[x.cfg.podName].containers[0] == Terminated("Completed")
  {
    PodLeftIffFault(states, steps, i, id);
    RunFacts(states, steps, i, id);
  }

  function BuildConfig(uuid: string, peer: OwnerRef): PS.Config {
    PS.Config(PS.BuildStage, "peer", "chaincode-build-" + uuid, "certs-" + uuid, Some(PS.Buildable), true, Some(peer))
  }

  lemma {:induction false} Extended(states: seq<System>, steps: seq<Step>, step: Step)
    returns (states': seq<System>, steps': seq<Step>)
    requires IsRun(states, steps) && Enabled(states[|steps|], step)
    ensures IsRun(states', steps') && states'[|steps'|] == Next(states[|steps|], step)
  {
    states', steps' := states + [Next(states[|steps|], step)], steps + [step];
  }

  function One(c: Cluster, uuid: string, peer: OwnerRef, s: PS.State): System {
    System(c, map[0 := Session(uuid, BuildConfig(uuid, peer), s)])
  }

  /** The state of a Build that has its watch and is about to create its pod. */
  function Watching(): PS.State {
    var s := PS.Initial();
    s.(pc := PS.CreatePod, ex := s.ex.(watching := true, defers := [PS.StopWatcher]))
  }

  lemma {:induction false} WatchStarts(uuid: string, peer: OwnerRef) returns (states: seq<System>, steps: seq<Step>)
    ensures IsRun(states, steps) && states[|steps|] == One(Empty, uuid, peer, Watching())
  {
    var s0 := System(Empty, map[]);
    steps := [Start(0, uuid, BuildConfig(uuid, peer)), Do(0, PS.Call(PS.Begin)), Do(0, PS.Call(PS.WatchStarted(true)))];
    var s1 := Next(s0, steps[0]);
    var s2 := Next(s1, steps[1]);
    var s3 := Next(s2, steps[2]);
    states := [s0, s1, s2, s3];
    assert s3.sessions[0].state.ex.defers == [PS.StopWatcher];
    assert s3.sessions[0].state == Watching();
    assert s3.sessions == map[0 := s3.sessions[0]];
  }

  /** The pod is made, and Build returns without knowing. */
  lemma {:induction false} ReplyLost(sys: System, uuid: string, peer: OwnerRef)
    requires sys == One(Empty, uuid, peer, Watching())
    ensures var steps := [
        Do(0, PS.Call(PS.PodCreated(true, None))), Do(0, PS.Loop(PS.DeferredCall(true, true, ""))),
        Do(0, PS.Loop(PS.DeferredCall(true, true, "")))];
      && Enabled(sys, steps[0])
      && var s1 := Next(sys, steps[0]);
      && Enabled(s1, steps[1])
      && var s2 := Next(s1, steps[1]);
      && Enabled(s2, steps[2])
      && var s3 := Next(s2, steps[2]);
      && 0 in s3.sessions && s3.sessions[0].cfg == BuildConfig(uuid, peer) && s3.sessions[0].state.pc.Returned?
      && s3.cluster.pods == map["chaincode-build-" + uuid := Pod(0, "peer", [peer], [])]
  {}

  /** Such a run: Build gives up on its pod, and the pod runs to completion all the same. */
  lemma {:induction false} BuildPodIsSwept(uuid: string, peer: OwnerRef) returns (states: seq<System>, steps: seq<Step>)
    ensures IsRun(states, steps) && 0 in states[|steps|].sessions
    ensures states[|steps|].sessions[0].cfg.stage.BuildStage? && states[|steps|].sessions[0].state.pc.Returned?
    ensures "chaincode-build-" + uuid in Sweepable(states[|steps|].cluster, "peer")
  {
    states, steps := WatchStarts(uuid, peer);
    ReplyLost(states[|steps|], uuid, peer);
    states, steps := Extended(states, steps, Do(0, PS.Call(PS.PodCreated(true, None))));
    states, steps := Extended(states, steps, Do(0, PS.Loop(PS.DeferredCall(true, true, ""))));
    states, steps := Extended(states, steps, Do(0, PS.Loop(PS.DeferredCall(true, true, ""))));
    var name := "chaincode-build-" + uuid;
    var before := states[|steps|].cluster;
    assert before.pods[name].peerId == "peer";
    states, steps := Extended(states, steps, StatusReported(name, [Terminated("Completed")]));
    assert states[|steps|].cluster.pods[name] == before.pods[name].(containers := [Terminated("Completed")]);
    assert name in Sweepable(states[|steps|].cluster, "peer");
  }
}
