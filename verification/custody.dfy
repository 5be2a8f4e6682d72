/**
 * Any number of Build and Run calls sharing one namespace, interleaved with garbage
 * collection, with pods being deleted or applied from outside, and with the containers of pods changing status.
 */
module Custody {
  import opened Common
  import opened Kube
  import PS = PodSession
  import PodSessionInvariant
  import PodSessionRuns

  datatype Session = Session(uuid: string, cfg: PS.Config, state: PS.State)

  datatype System = System(cluster: Cluster, sessions: map<nat, Session>)

  datatype Step =
    | Start(id: nat, uuid: string, cfg: PS.Config)
    | Do(session: nat, action: PS.Action)
    | Collect(resource: Resource)
    | OutsideDelete(pod: string)
    | OutsideApply(name: string, contents: Pod)
    | StatusReported(name: string, containers: seq<Status>)

  /** The names a call derives from its UUID. */
  predicate NamesFrom(uuid: string, cfg: PS.Config) {
    && cfg.podName == (if cfg.stage.BuildStage? then "chaincode-build-" else "chaincode-execution-") + uuid
    && cfg.secretName == "certs-" + uuid
  }

  /** What the API may answer, and what it may have done, in a given cluster. */
  predicate Plausible(c: Cluster, x: Session, a: PS.Action) {
    match a
    case Call(SecretCreated(applied, _)) => applied ==> x.cfg.secretName !in c.secrets
    case Call(SecretRead(reply, present, _)) =>
      && (present <==> x.cfg.secretName in c.secrets)
      && (reply.Some? ==> present && reply.value == c.secrets[x.cfg.secretName].owners)
    case Call(SecretUpdated(applied, _, _)) => applied ==> x.cfg.secretName in c.secrets
    case Call(SecretDeleted(applied, _)) => applied ==> x.cfg.secretName in c.secrets
    case Call(PodCreated(applied, uid)) =>
      (applied ==> x.cfg.podName !in c.pods) && (uid.Some? ==> uid.value == c.nextUid)
    case _ => true
  }

  predicate DeletesPod(s: PS.State, a: PS.Action) {
    && a.Loop? && a.loop.DeferredCall? && a.loop.applied
    && s.ex.defers != [] && s.ex.defers[|s.ex.defers| - 1].DeletePod?
  }

  /** What a step of a session does to the cluster. */
  function Effect(c: Cluster, x: Session, a: PS.Action): Cluster {
    match a
    case Call(SecretCreated(applied, _)) =>
      if applied then c.(secrets := c.secrets[x.cfg.secretName := Secret([])]) else c
    case Call(SecretUpdated(applied, _, _)) =>
      if applied && x.state.ex.podUid.Some? then
        c.(secrets := c.secrets[x.cfg.secretName := Secret([OwnerRef(x.cfg.podName, x.state.ex.podUid.value)])])
      else c
    case Call(SecretDeleted(applied, _)) =>
      if applied then Remove(c, SecretNamed(x.cfg.secretName)) else c
    case Call(PodCreated(applied, _)) =>
      if applied && x.cfg.peer.Some? then
        var pod := Pod(c.nextUid, x.cfg.peerId, [x.cfg.peer.value], []);
        c.(pods := c.pods[x.cfg.podName := pod], nextUid := c.nextUid + 1)
      else c
    case Loop(_) => if DeletesPod(x.state, a) then Remove(c, PodNamed(x.cfg.podName)) else c
    case _ => c
  }

  predicate Enabled(sys: System, step: Step) {
    match step
    case Start(id, uuid, cfg) =>
      && id !in sys.sessions
      && NamesFrom(uuid, cfg)
      && cfg.podName !in sys.cluster.pods && cfg.secretName !in sys.cluster.secrets
      && (forall j | j in sys.sessions :: sys.sessions[j].uuid != uuid)
    case Do(id, action) =>
      && id in sys.sessions
      && PS.Enabled(sys.sessions[id].state, action)
      && Plausible(sys.cluster, sys.sessions[id], action)
    case Collect(r) => Collectable(sys.cluster, r)
    case OutsideDelete(_) => true
    case OutsideApply(name, _) => forall j | j in sys.sessions :: sys.sessions[j].cfg.podName != name
    case StatusReported(name, _) => name in sys.cluster.pods
  }

  function Next(sys: System, step: Step): System
    requires Enabled(sys, step)
  {
    match step
    case Start(id, uuid, cfg) => sys.(sessions := sys.sessions[id := Session(uuid, cfg, PS.Initial())])
    case Do(id, action) =>
      var x := sys.sessions[id];
      System(Effect(sys.cluster, x, action),
             sys.sessions[id := x.(state := PS.Next(x.cfg, x.state, action))])
    case Collect(r) => sys.(cluster := Remove(sys.cluster, r))
    case OutsideDelete(name) => sys.(cluster := Remove(sys.cluster, PodNamed(name)))
    case OutsideApply(name, pod) =>
      sys.(cluster := sys.cluster.(pods := sys.cluster.pods[name := pod], nextUid := sys.cluster.nextUid + 1))
    case StatusReported(name, containers) =>
      var pod := sys.cluster.pods[name].(containers := containers);
      sys.(cluster := sys.cluster.(pods := sys.cluster.pods[name := pod]))
  }

  // ----- what every step keeps -----

  /** A pod under the session's name is the one it created, owned by the peer pod. */
  ghost predicate PodInv(c: Cluster, x: Session) {
    && (x.state.ex.podUid.Some? ==> x.state.ex.podUid.value < c.nextUid)
    && (x.cfg.podName in c.pods ==>
          && x.state.custody.podMade
          && x.cfg.peer.Some? && c.pods[x.cfg.podName].owners == [x.cfg.peer.value]
          && c.pods[x.cfg.podName].peerId == x.cfg.peerId
          && (x.state.ex.podUid.Some? ==> c.pods[x.cfg.podName].uid == x.state.ex.podUid.value))
  }

  /** The owners that x has stored in its secret. */
  function StoredOwners(x: Session): seq<OwnerRef> {
    if x.state.custody.refStored && x.state.ex.podUid.Some? then [OwnerRef(x.cfg.podName, x.state.ex.podUid.value)]
    else []
  }

  /** A secret under the session's name is the one it created, with the owners it stored. */
  ghost predicate SecretInv(c: Cluster, x: Session) {
    var h := x.state.custody;
    && (x.cfg.secretName in c.secrets ==>
          && h.secretMade && !h.secretGone
          && c.secrets[x.cfg.secretName].owners == StoredOwners(x))
    && (h.secretMade && !h.secretGone && !h.refStored ==> x.cfg.secretName in c.secrets)
    && (h.refStored ==> !h.secretGone && !x.state.pc.FinalDelete?)
    && (x.state.pc.Returned? && h.secretConfirmed && !h.refStored ==> h.secretGone || h.missedGet || h.keptDelete)
  }

  ghost predicate ResourceInv(c: Cluster, x: Session) { PodInv(c, x) && SecretInv(c, x) }

  ghost predicate NamesInv(sys: System) {
    && (forall i | i in sys.sessions :: NamesFrom(sys.sessions[i].uuid, sys.sessions[i].cfg))
    && (forall i, j | i in sys.sessions && j in sys.sessions && i != j :: sys.sessions[i].uuid != sys.sessions[j].uuid)
  }

  ghost predicate SessionsInv(sys: System) {
    forall i | i in sys.sessions :: PodSessionInvariant.Inv(sys.sessions[i].cfg, sys.sessions[i].state)
  }

  ghost predicate ResourcesInv(sys: System) {
    forall i | i in sys.sessions :: ResourceInv(sys.cluster, sys.sessions[i])
  }

  ghost predicate Inv(sys: System) { NamesInv(sys) && SessionsInv(sys) && ResourcesInv(sys) }

  /** Distinct UUIDs give distinct names. */
  lemma {:induction false} NamesDistinct(u: string, c: PS.Config, v: string, d: PS.Config)
    requires NamesFrom(u, c) && NamesFrom(v, d) && u != v
    ensures c.podName != d.podName && c.secretName != d.secretName
  {
    assert c.secretName[6..] == u && d.secretName[6..] == v;
    if c.stage == d.stage {
      var n := if c.stage.BuildStage? then 16 else 20;
      assert c.podName[n..] == u && d.podName[n..] == v;
    } else {
      assert c.podName[10] != d.podName[10];
    }
  }

  /** The same pod, whatever its containers are doing. */
  predicate SameIdentity(a: Pod, b: Pod) { a.uid == b.uid && a.peerId == b.peerId && a.owners == b.owners }

  /**
   * d differs from c neither in x's secret nor in x's pod, except that the pod may be gone or have another status,
   * and the secret may be gone if it was owned.
   */
  predicate Spared(c: Cluster, d: Cluster, x: Session) {
    && d.nextUid >= c.nextUid
    && (x.cfg.podName in d.pods ==>
          x.cfg.podName in c.pods && SameIdentity(d.pods[x.cfg.podName], c.pods[x.cfg.podName]))
    && (x.cfg.secretName in d.secrets ==>
          x.cfg.secretName in c.secrets && d.secrets[x.cfg.secretName] == c.secrets[x.cfg.secretName])
    && (x.cfg.secretName in c.secrets && c.secrets[x.cfg.secretName].owners == [] ==> x.cfg.secretName in d.secrets)
  }

  /** A session's steps touch no pod or secret of another. */
  lemma {:induction false} OthersUntouched(c: Cluster, x: Session, a: PS.Action, y: Session)
    requires y.cfg.podName != x.cfg.podName && y.cfg.secretName != x.cfg.secretName
    ensures var d := Effect(c, x, a);
      && Spared(c, d, y)
      && (y.cfg.podName in c.pods ==> y.cfg.podName in d.pods && d.pods[y.cfg.podName] == c.pods[y.cfg.podName])
      && (y.cfg.secretName in c.secrets ==> y.cfg.secretName in d.secrets)
  {}

  lemma {:induction false} SparedKeeps(c: Cluster, d: Cluster, x: Session)
    requires ResourceInv(c, x) && Spared(c, d, x)
    ensures ResourceInv(d, x)
  {}

  predicate SamePod(s: PS.State, s': PS.State) {
    s'.ex.podUid == s.ex.podUid && s'.custody.podMade == s.custody.podMade
  }

  /** Only creating the pod changes what a session knows of it. */
  lemma {:induction false} CallKeepsPod(cfg: PS.Config, s: PS.State, c: PS.CallStep)
    requires PS.CallEnabled(s, c) && !c.PodCreated?
    ensures SamePod(s, PS.NextCall(cfg, s, c))
  {}

  lemma {:induction false} LoopKeepsPod(cfg: PS.Config, s: PS.State, l: PS.LoopStep)
    requires PS.LoopEnabled(s, l)
    ensures SamePod(s, PS.NextLoop(cfg, s, l))
  {}

  lemma {:induction false} PodByFrame(c: Cluster, d: Cluster, x: Session, s': PS.State)
    requires PodInv(c, x) && SamePod(x.state, s') && d.nextUid >= c.nextUid
    requires x.cfg.podName in d.pods ==> x.cfg.podName in c.pods && d.pods[x.cfg.podName] == c.pods[x.cfg.podName]
    ensures PodInv(d, x.(state := s'))
  {}

  lemma {:induction false} PodCreation(c: Cluster, x: Session, a: PS.Action)
    requires PodSessionInvariant.ShapeInv(x.cfg, x.state) && PodInv(c, x)
    requires PS.Enabled(x.state, a) && Plausible(c, x, a) && a.Call? && a.call.PodCreated?
    ensures PodInv(Effect(c, x, a), x.(state := PS.Next(x.cfg, x.state, a)))
  {}

  lemma {:induction false} OwnPodStep(c: Cluster, x: Session, a: PS.Action)
    requires PodSessionInvariant.ShapeInv(x.cfg, x.state) && PodInv(c, x)
    requires PS.Enabled(x.state, a) && Plausible(c, x, a)
    ensures PodInv(Effect(c, x, a), x.(state := PS.Next(x.cfg, x.state, a)))
  {
    if a.Call? && a.call.PodCreated? {
      PodCreation(c, x, a);
    } else {
      match a {
        case Call(call) => CallKeepsPod(x.cfg, x.state, call);
        case Loop(l) => LoopKeepsPod(x.cfg, x.state, l);
        case Output(_) =>
      }
      PodByFrame(c, Effect(c, x, a), x, PS.Next(x.cfg, x.state, a));
    }
  }

  /** The loop, and sending, leave what is known of the secret alone. */
  lemma {:induction false} LoopKeepsSecret(cfg: PS.Config, s: PS.State, l: PS.LoopStep)
    requires PS.LoopEnabled(s, l)
    ensures var s' := PS.NextLoop(cfg, s, l);
      s'.custody == s.custody && !s'.pc.FinalDelete? && (s'.pc.Returned? ==> cfg.stage.BuildStage?)
  {}

  lemma {:induction false} OutputKeepsSecret(s: PS.State, i: PS.StreamStep)
    requires PS.StreamEnabled(s, i)
    ensures PS.NextStream(s, i).custody == s.custody && PS.NextStream(s, i).pc == s.pc
    ensures SamePod(s, PS.NextStream(s, i))
  {}

  lemma {:induction false} OwnSecretCall(c: Cluster, x: Session, call: PS.CallStep)
    requires PodSessionInvariant.ShapeInv(x.cfg, x.state) && PodSessionInvariant.SecretInv(x.cfg, x.state)
    requires SecretInv(c, x)
    requires PS.CallEnabled(x.state, call) && Plausible(c, x, PS.Call(call))
    ensures SecretInv(Effect(c, x, PS.Call(call)), x.(state := PS.NextCall(x.cfg, x.state, call)))
  {}

  lemma {:induction false} OwnSecretStep(c: Cluster, x: Session, a: PS.Action)
    requires PodSessionInvariant.ShapeInv(x.cfg, x.state) && PodSessionInvariant.SecretInv(x.cfg, x.state)
    requires SecretInv(c, x)
    requires PS.Enabled(x.state, a) && Plausible(c, x, a)
    ensures SecretInv(Effect(c, x, a), x.(state := PS.Next(x.cfg, x.state, a)))
  {
    match a
    case Call(call) => OwnSecretCall(c, x, call);
    case Loop(l) =>
      LoopKeepsSecret(x.cfg, x.state, l);
      LoopKeepsPod(x.cfg, x.state, l);
    case Output(i) => OutputKeepsSecret(x.state, i);
  }

  lemma {:induction false} DoKeepsOthers(sys: System, id: nat, a: PS.Action, i: nat)
    requires NamesInv(sys) && id in sys.sessions && i in sys.sessions && i != id
    requires ResourceInv(sys.cluster, sys.sessions[i])
    ensures ResourceInv(Effect(sys.cluster, sys.sessions[id], a), sys.sessions[i])
  {
    var x, y := sys.sessions[id], sys.sessions[i];
    NamesDistinct(x.uuid, x.cfg, y.uuid, y.cfg);
    OthersUntouched(sys.cluster, x, a, y);
    SparedKeeps(sys.cluster, Effect(sys.cluster, x, a), y);
  }

  lemma {:induction false} SessionReplaced(sys: System, id: nat, y: Session, c: Cluster)
    requires SessionsInv(sys) && PodSessionInvariant.Inv(y.cfg, y.state)
    ensures SessionsInv(System(c, sys.sessions[id := y]))
  {}

  lemma {:induction false} DoKeepsSessions(sys: System, id: nat, a: PS.Action)
    requires SessionsInv(sys) && Enabled(sys, Do(id, a))
    ensures SessionsInv(Next(sys, Do(id, a)))
  {
    var x := sys.sessions[id];
    PodSessionInvariant.StepKeepsInv(x.cfg, x.state, a);
    var y := x.(state := PS.Next(x.cfg, x.state, a));
    SessionReplaced(sys, id, y, Effect(sys.cluster, x, a));
  }

  lemma {:induction false} DoKeepsResources(sys: System, id: nat, a: PS.Action)
    requires NamesInv(sys) && ResourcesInv(sys) && Enabled(sys, Do(id, a))
    requires PodSessionInvariant.ShapeInv(sys.sessions[id].cfg, sys.sessions[id].state)
    requires PodSessionInvariant.SecretInv(sys.sessions[id].cfg, sys.sessions[id].state)
    ensures ResourcesInv(Next(sys, Do(id, a)))
  {
    var x := sys.sessions[id];
    OwnPodStep(sys.cluster, x, a);
    OwnSecretStep(sys.cluster, x, a);
    forall i | i in sys.sessions && i != id
      ensures ResourceInv(Effect(sys.cluster, x, a), sys.sessions[i])
    {
      DoKeepsOthers(sys, id, a, i);
    }
  }

  lemma {:induction false} StartKeepsSessions(sys: System, id: nat, uuid: string, cfg: PS.Config)
    requires SessionsInv(sys) && Enabled(sys, Start(id, uuid, cfg))
    ensures SessionsInv(Next(sys, Start(id, uuid, cfg)))
  {
    PodSessionInvariant.InitialInv(cfg);
  }

  lemma {:induction false} StartKeepsResources(sys: System, id: nat, uuid: string, cfg: PS.Config)
    requires ResourcesInv(sys) && Enabled(sys, Start(id, uuid, cfg))
    ensures ResourcesInv(Next(sys, Start(id, uuid, cfg)))
  {}

  lemma {:induction false} WorldKeepsResources(sys: System, step: Step)
    requires ResourcesInv(sys) && Enabled(sys, step) && !step.Start? && !step.Do?
    ensures ResourcesInv(Next(sys, step))
  {}

  lemma {:induction false} NamesKept(sys: System, step: Step)
    requires NamesInv(sys) && Enabled(sys, step)
    ensures NamesInv(Next(sys, step))
  {}

  /** Every step of every session and of its surroundings keeps the invariant. */
  lemma {:induction false} StepKeepsInv(sys: System, step: Step)
    requires Inv(sys) && Enabled(sys, step)
    ensures Inv(Next(sys, step))
  {
    NamesKept(sys, step);
    match step
    case Start(id, uuid, cfg) =>
      StartKeepsSessions(sys, id, uuid, cfg);
      StartKeepsResources(sys, id, uuid, cfg);
    case Do(id, a) =>
      DoKeepsSessions(sys, id, a);
      DoKeepsResources(sys, id, a);
    case _ =>
      WorldKeepsResources(sys, step);
  }

  // ----- runs -----

  /** A run of the whole system: sessions start, step and interleave in any order. */
  ghost predicate IsRun(states: seq<System>, steps: seq<Step>) {
    && |states| == |steps| + 1
    && states[0].sessions == map[]
    && (forall i: nat | i < |steps| :: Enabled(states[i], steps[i]) && states[i + 1] == Next(states[i], steps[i]))
  }

  lemma {:induction false} RunKeepsInv(states: seq<System>, steps: seq<Step>, i: nat)
    requires IsRun(states, steps) && i < |states|
    ensures Inv(states[i])
  {
    if i > 0 {
      RunKeepsInv(states, steps, i - 1);
      StepKeepsInv(states[i - 1], steps[i - 1]);
    }
  }

  /** A Run call has returned. */
  predicate RunReturned(sys: System, id: nat) {
    id in sys.sessions && sys.sessions[id].state.pc.Returned? && sys.sessions[id].cfg.stage.RunStage?
  }

  /** Its secret is still there and belongs to nobody. */
  predicate Leaked(sys: System, id: nat)
    requires id in sys.sessions
  {
    var n := sys.sessions[id].cfg.secretName;
    n in sys.cluster.secrets && sys.cluster.secrets[n].owners == []
  }

  /**
   * The faults that defeat the hand-off: the reply to the creation was lost, or no owner was stored and then
   * the last Get failed on a secret that was there, or the last Delete failed.
   */
  predicate HandOffFault(h: PS.Custody) {
    || (h.secretMade && !h.secretConfirmed)
    || (h.secretConfirmed && !h.refStored && (h.missedGet || h.keptDelete))
  }

  lemma {:induction false} RunFacts(states: seq<System>, steps: seq<Step>, i: nat, id: nat)
    requires IsRun(states, steps) && i < |states| && id in states[i].sessions
    ensures ResourceInv(states[i].cluster, states[i].sessions[id])
    ensures PodSessionInvariant.SecretInv(states[i].sessions[id].cfg, states[i].sessions[id].state)
  {
    RunKeepsInv(states, steps, i);
  }

  lemma {:induction false} LeakClassified(c: Cluster, x: Session)
    requires SecretInv(c, x) && PodSessionInvariant.SecretInv(x.cfg, x.state) && x.state.pc.Returned?
    ensures x.cfg.secretName in c.secrets && c.secrets[x.cfg.secretName].owners == [] <==> HandOffFault(x.state.custody)
  {}

  /** When Run has returned, its secret is unowned exactly if one of those faults happened. */
  lemma {:induction false} LeakedIffFault(states: seq<System>, steps: seq<Step>, i: nat, id: nat)
    requires IsRun(states, steps) && i < |states| && RunReturned(states[i], id)
    ensures Leaked(states[i], id) <==> HandOffFault(states[i].sessions[id].state.custody)
  {
    RunFacts(states, steps, i, id);
    LeakClassified(states[i].cluster, states[i].sessions[id]);
  }

  /** Of those faults only the failed Get goes unreported: after the others Run returns an error about the secret. */
  lemma {:induction false} SilentLeakIsMissedGet(states: seq<System>, steps: seq<Step>, i: nat, id: nat)
    requires IsRun(states, steps) && i < |states| && RunReturned(states[i], id) && Leaked(states[i], id)
    requires states[i].sessions[id].state.result != PS.Error(PS.SecretNotCreated)
    requires states[i].sessions[id].state.result != PS.Error(PS.SecretNotDeleted)
    ensures states[i].sessions[id].state.custody.missedGet
  {
    LeakedIffFault(states, steps, i, id);
    RunFacts(states, steps, i, id);
  }

  function RunConfig(uuid: string): PS.Config {
    PS.Config(PS.RunStage, "peer", "chaincode-execution-" + uuid, "certs-" + uuid, Some(PS.Buildable), true, None)
  }

  const Empty: Cluster := Cluster(map[], map[], 0)

  /** A run of a single session, from an empty cluster. */
  function Trace(uuid: string, calls: seq<PS.CallStep>): (steps: seq<Step>)
    ensures |steps| == |calls| + 1
  {
    [Start(0, uuid, RunConfig(uuid))] + seq(|calls|, i requires 0 <= i < |calls| => Do(0, PS.Call(calls[i])))
  }

  /** Such a leak does happen: no peer pod is configured, and the Get before the deletion fails. */
  lemma {:induction false} LeakHappens(uuid: string) returns (states: seq<System>, steps: seq<Step>)
    ensures IsRun(states, steps) && RunReturned(states[|steps|], 0) && Leaked(states[|steps|], 0)
    ensures states[|steps|].sessions[0].state.result == PS.Error(PS.NoPeerPod)
  {
    steps := Trace(uuid, [PS.Begin, PS.SecretCreated(true, true), PS.Defined, PS.SecretRead(None, true, "timeout")]);
    var s0 := System(Empty, map[]);
    var s1 := Next(s0, steps[0]);
    var s2 := Next(s1, steps[1]);
    var s3 := Next(s2, steps[2]);
    var s4 := Next(s3, steps[3]);
    var s5 := Next(s4, steps[4]);
    states := [s0, s1, s2, s3, s4, s5];
  }

  /** Otherwise it is gone, or has one owner: the pod, by name and UID, that this very call created. */
  lemma {:induction false} SecretHandedOver(states: seq<System>, steps: seq<Step>, i: nat, id: nat)
    requires IsRun(states, steps) && i < |states| && RunReturned(states[i], id)
    requires !HandOffFault(states[i].sessions[id].state.custody)
    ensures var x := states[i].sessions[id]; var c := states[i].cluster;
      x.cfg.secretName in c.secrets ==>
        && x.state.custody.refStored && x.state.ex.podUid.Some?
        && c.secrets[x.cfg.secretName].owners == [OwnerRef(x.cfg.podName, x.state.ex.podUid.value)]
        && (x.cfg.podName in c.pods ==> c.pods[x.cfg.podName].uid == x.state.ex.podUid.value)
  {
    LeakedIffFault(states, steps, i, id);
    RunFacts(states, steps, i, id);
  }

  /** A call that never got its owner reference stored, and met no fault, leaves no secret behind. */
  lemma {:induction false} GoneUnlessStored(states: seq<System>, steps: seq<Step>, i: nat, id: nat)
    requires IsRun(states, steps) && i < |states| && RunReturned(states[i], id)
    requires !HandOffFault(states[i].sessions[id].state.custody) && !states[i].sessions[id].state.custody.refStored
    ensures states[i].sessions[id].cfg.secretName !in states[i].cluster.secrets
  {
    SecretHandedOver(states, steps, i, id);
  }

  /** A step of one session changes neither the secret nor the pod of another. */
  lemma {:induction false} OthersLeftAlone(states: seq<System>, steps: seq<Step>, i: nat, id: nat)
    requires IsRun(states, steps) && i < |steps| && steps[i].Do? && id in states[i].sessions && id != steps[i].session
    ensures var x := states[i].sessions[id]; var c, d := states[i].cluster, states[i + 1].cluster;
      && (x.cfg.secretName in c.secrets <==> x.cfg.secretName in d.secrets)
      && (x.cfg.secretName in c.secrets ==> d.secrets[x.cfg.secretName] == c.secrets[x.cfg.secretName])
      && (x.cfg.podName in c.pods <==> x.cfg.podName in d.pods)
      && (x.cfg.podName in c.pods ==> d.pods[x.cfg.podName] == c.pods[x.cfg.podName])
  {
    RunKeepsInv(states, steps, i);
    var x, y := states[i].sessions[id], states[i].sessions[steps[i].session];
    NamesDistinct(x.uuid, x.cfg, y.uuid, y.cfg);
    OthersUntouched(states[i].cluster, y, steps[i].action, x);
  }

  /** Whatever a session has in the cluster is owned, directly or through its pod, by its peer pod; or leaked. */
  lemma {:induction false} OwnerChains(states: seq<System>, steps: seq<Step>, i: nat, id: nat)
    requires IsRun(states, steps) && i < |states| && id in states[i].sessions
    requires states[i].sessions[id].state.pc.Returned?
    ensures var x := states[i].sessions[id]; var c := states[i].cluster;
      && (x.cfg.podName in c.pods ==> x.cfg.peer.Some? && c.pods[x.cfg.podName].owners == [x.cfg.peer.value])
      && (x.cfg.secretName in c.secrets && !Leaked(states[i], id) ==>
            exists uid :: c.secrets[x.cfg.secretName].owners == [OwnerRef(x.cfg.podName, uid)])
  {
    RunFacts(states, steps, i, id);
  }

  /**
   * Once the peer pod of a session is gone, garbage collection, in whatever order it works, leaves none of its pods.
   */
  lemma {:induction false} PodsCascade(
    states: seq<System>, steps: seq<Step>, i: nat, removed: seq<Resource>, d: Cluster, id: nat)
    requires IsRun(states, steps) && i < |states| && id in states[i].sessions
    requires states[i].sessions[id].cfg.peer.Some? ==>
               !Resolves(states[i].cluster, states[i].sessions[id].cfg.peer.value)
    requires Collects(states[i].cluster, removed, d) && Settled(d)
    ensures states[i].sessions[id].cfg.podName !in d.pods
  {
    RunFacts(states, steps, i, id);
    CollectsWithin(states[i].cluster, removed, d);
    assert !Collectable(d, PodNamed(states[i].sessions[id].cfg.podName));
  }

  /** And no secret of a call that has returned, except exactly those that the faults above left unowned. */
  lemma {:induction false} SecretsCascade(
    states: seq<System>, steps: seq<Step>, i: nat, removed: seq<Resource>, d: Cluster, id: nat)
    requires IsRun(states, steps) && i < |states| && RunReturned(states[i], id)
    requires states[i].sessions[id].cfg.peer.Some? ==>
               !Resolves(states[i].cluster, states[i].sessions[id].cfg.peer.value)
    requires Collects(states[i].cluster, removed, d) && Settled(d)
    ensures states[i].sessions[id].cfg.secretName in d.secrets <==> HandOffFault(states[i].sessions[id].state.custody)
  {
    var name, c := states[i].sessions[id].cfg.secretName, states[i].cluster;
    PodsCascade(states, steps, i, removed, d, id);
    LeakedIffFault(states, steps, i, id);
    CollectsWithin(c, removed, d);
    assert !Collectable(d, SecretNamed(name));
    if Leaked(states[i], id) {
      SupportedSurvive(c, {SecretNamed(name)}, removed, d);
    } else {
      OwnerChains(states, steps, i, id);
    }
  }

  // ----- single calls inside the system -----

  /**
   * What a session of the system does is a run of a single call, so everything proved about single calls
   * under every interleaving holds of each of any number of concurrent ones.
   */
  lemma {:induction false} SessionRuns(states: seq<System>, steps: seq<Step>, i: nat, id: nat)
    returns (alone: seq<PS.State>, actions: seq<PS.Action>)
    requires IsRun(states, steps) && i < |states| && id in states[i].sessions
    ensures PodSessionRuns.IsRun(states[i].sessions[id].cfg, alone, actions)
    ensures alone[|actions|] == states[i].sessions[id].state
  {
    var step := steps[i - 1];
    assert states[i] == Next(states[i - 1], step);
    if step.Start? && step.id == id {
      alone, actions := [PS.Initial()], [];
    } else {
      alone, actions := SessionRuns(states, steps, i - 1, id);
      if step.Do? && step.session == id {
        alone, actions := alone + [states[i].sessions[id].state], actions + [step.action];
      }
    }
  }

  /**
   * For instance: under any number of concurrent calls, a call that reports its pod's phase has sent every log line.
   */
  lemma {:induction false} LogsCompleteAmongOthers(states: seq<System>, steps: seq<Step>, i: nat, id: nat)
    requires IsRun(states, steps) && i < |states| && id in states[i].sessions
    requires PodSessionRuns.PhaseReported(states[i].sessions[id].state)
    ensures var s := states[i].sessions[id].state;
      forall k: nat :: PodSessionInvariant.Project(s.out.sent, PS.Stream(k)) == PodSessionRuns.WholeScript(s, k)
  {
    var alone, actions := SessionRuns(states, steps, i, id);
    PodSessionRuns.LogsComplete(states[i].sessions[id].cfg, alone, actions, |actions|);
  }
}
