/** What a Build or Run call returns, and which log streams it opens, told from the steps of the run alone. */
module PodSessionOutcome {
  import opened Common
  import opened PodSession
  import opened PodSessionInvariant
  import opened PodSessionRuns

  // ----- the last update -----

  /** An event of type Added or Modified. */
  predicate IsUpdate(a: Action) { a.Loop? && a.loop.EventSeen? && a.loop.event.Changed? }

  /** Of the first i steps, the last update is step k. */
  predicate LastUpdate(steps: seq<Action>, i: nat, k: nat)
    requires i <= |steps|
  {
    k < i && IsUpdate(steps[k]) && forall j: nat | k < j < i :: !IsUpdate(steps[j])
  }

  /** pod is what the last update among the first i steps reported. */
  ghost predicate LastSeen(steps: seq<Action>, i: nat, pod: PodUpdate)
    requires i <= |steps|
  {
    exists k: nat :: LastUpdate(steps, i, k) && steps[k].loop.event.pod == pod
  }

  /** The view follows the updates. */
  predicate Views(s: State, a: Action, t: State) {
    if IsUpdate(a) then t.view.current == a.loop.event.pod && t.view.updates == s.view.updates + 1
    else t.view.current == s.view.current && t.view.updates == s.view.updates
  }

  lemma {:induction false} StepViews(cfg: Config, s: State, a: Action)
    requires Enabled(s, a)
    ensures Views(s, a, Next(cfg, s, a))
  {}

  lemma {:induction false} StillLast(steps: seq<Action>, i: nat, j: nat, pod: PodUpdate)
    requires j == i + 1 <= |steps| && LastSeen(steps, i, pod) && !IsUpdate(steps[i])
    ensures LastSeen(steps, j, pod)
  {
    var k: nat :| LastUpdate(steps, i, k) && steps[k].loop.event.pod == pod;
    assert LastUpdate(steps, j, k);
  }

  lemma {:induction false} ViewIsLast(states: seq<State>, steps: seq<Action>, i: nat)
    requires |states| == |steps| + 1 && states[0].view.updates == 0 && i < |states|
    requires forall k: nat | k < |steps| :: Views(states[k], steps[k], states[k + 1])
    ensures states[i].view.updates > 0 ==> LastSeen(steps, i, states[i].view.current)
    decreases i
  {
    if i > 0 {
      ViewIsLast(states, steps, i - 1);
      assert Views(states[i - 1], steps[i - 1], states[i - 1 + 1]);
      if IsUpdate(steps[i - 1]) {
        assert LastUpdate(steps, i, i - 1);
      } else if states[i].view.updates > 0 {
        StillLast(steps, i - 1, i, states[i].view.current);
      }
    }
  }

  lemma {:induction false} LastIsView(states: seq<State>, steps: seq<Action>, i: nat, k: nat)
    requires |states| == |steps| + 1 && i < |states| && LastUpdate(steps, i, k)
    requires forall j: nat | j < |steps| :: Views(states[j], steps[j], states[j + 1])
    ensures states[i].view.updates > 0 && states[i].view.current == steps[k].loop.event.pod
    decreases i
  {
    assert Views(states[i - 1], steps[i - 1], states[i - 1 + 1]);
    if k < i - 1 { LastIsView(states, steps, i - 1, k); }
  }

  /** The view is of the last update, if there was one. */
  lemma {:induction false} RunViews(cfg: Config, states: seq<State>, steps: seq<Action>, i: nat)
    requires IsRun(cfg, states, steps) && i < |states|
    ensures states[i].view.updates > 0 ==> LastSeen(steps, i, states[i].view.current)
    ensures forall pod | LastSeen(steps, i, pod) :: states[i].view.updates > 0 && states[i].view.current == pod
  {
    forall k: nat | k < |steps| ensures Views(states[k], steps[k], states[k + 1]) {
      StepViews(cfg, states[k], steps[k]);
    }
    ViewIsLast(states, steps, i);
    forall pod | LastSeen(steps, i, pod) ensures states[i].view.updates > 0 && states[i].view.current == pod {
      var k: nat :| LastUpdate(steps, i, k) && steps[k].loop.event.pod == pod;
      LastIsView(states, steps, i, k);
    }
  }

  // ----- the phase that is reported -----

  /** Before the watch loop. */
  predicate Preparing(s: State) {
    s.pc.Entry? || s.pc.CreateSecret? || s.pc.Define? || s.pc.Watch? || s.pc.CreatePod? || s.pc.GetSecret?
    || s.pc.UpdateSecret?
  }

  /** Between two updates the pod has not ended; at the barrier and after it, it has. */
  ghost predicate PhaseInv(s: State) {
    var phase := s.view.current.phase;
    && (Preparing(s) ==> s.view.updates == 0)
    && (Handling(s) || s.pc.Await? || s.waited ==> s.view.updates > 0)
    && (s.pc.Select? && s.view.updates > 0 ==> phase != PhaseSucceeded && phase != PhaseFailed)
    && (s.pc.Await? || s.waited ==> phase == PhaseSucceeded || phase == PhaseFailed)
    && (s.waited ==> Leaving(s))
    && (s.waited ==>
          s.result == Error(SecretNotDeleted)
          || s.result == if phase == PhaseFailed then Error(PodFailed) else Success)
    && (s.result == Error(PodFailed) ==> s.waited)
    && (!Leaving(s) ==> s.result == Success)
  }

  lemma {:induction false} CallKeepsPhase(cfg: Config, s: State, c: CallStep)
    requires PhaseInv(s) && CallEnabled(s, c)
    ensures PhaseInv(NextCall(cfg, s, c))
  {}

  lemma {:induction false} LoopKeepsPhase(cfg: Config, s: State, l: LoopStep)
    requires PhaseInv(s) && LoopEnabled(s, l)
    ensures PhaseInv(NextLoop(cfg, s, l))
  {}

  lemma {:induction false} StreamKeepsPhase(s: State, i: StreamStep)
    requires PhaseInv(s) && StreamEnabled(s, i)
    ensures PhaseInv(NextStream(s, i))
  {}

  lemma {:induction false} RunKeepsPhase(cfg: Config, states: seq<State>, steps: seq<Action>, i: nat)
    requires IsRun(cfg, states, steps) && i < |states|
    ensures PhaseInv(states[i])
  {
    if i > 0 {
      RunKeepsPhase(cfg, states, steps, i - 1);
      match steps[i - 1]
      case Call(c) => CallKeepsPhase(cfg, states[i - 1], c);
      case Loop(l) => LoopKeepsPhase(cfg, states[i - 1], l);
      case Output(o) => StreamKeepsPhase(states[i - 1], o);
    }
  }

  /**
   * The phase that is reported is that of the last update: the pod succeeded or failed, and the call returns success in
   * the one case and that the pod failed in the other.
   */
  lemma {:induction false} PhaseIsLastSeen(cfg: Config, states: seq<State>, steps: seq<Action>, i: nat)
    returns (pod: PodUpdate)
    requires IsRun(cfg, states, steps) && i < |states| && PhaseReported(states[i])
    ensures LastSeen(steps, i, pod) && (pod.phase == PhaseSucceeded || pod.phase == PhaseFailed)
    ensures states[i].result == Success <==> pod.phase == PhaseSucceeded
    ensures states[i].result == Error(PodFailed) <==> pod.phase == PhaseFailed
  {
    RunKeepsInv(cfg, states, steps, i);
    RunKeepsPhase(cfg, states, steps, i);
    RunViews(cfg, states, steps, i);
    pod := states[i].view.current;
  }

  /** The loop goes on exactly as long as the pod has not ended, and waits for the logs exactly when it has. */
  lemma {:induction false} WaitsIffEnded(
    cfg: Config, states: seq<State>, steps: seq<Action>, i: nat, pod: PodUpdate)
    requires IsRun(cfg, states, steps) && i < |states| && LastSeen(steps, i, pod)
    ensures states[i].pc.Select? ==> pod.phase != PhaseSucceeded && pod.phase != PhaseFailed
    ensures states[i].pc.Await? ==> pod.phase == PhaseSucceeded || pod.phase == PhaseFailed
  {
    RunKeepsPhase(cfg, states, steps, i);
    RunViews(cfg, states, steps, i);
  }

  // ----- the type of the chaincode -----

  /** What can be built, by the letters of its type; the type "external" has to be written just so. */
  lemma {:induction false} KindByType(ccType: string)
    ensures Classify(ccType).External? <==> ccType == "external"
    ensures Classify(ccType).Buildable? <==>
      || Spells(ccType, "golang") || Spells(ccType, "java") || Spells(ccType, "node") || Spells(ccType, "executable")
  {
    LowerSpells(ccType, "golang");
    LowerSpells(ccType, "java");
    LowerSpells(ccType, "node");
    LowerSpells(ccType, "executable");
    assert "external"[1] == 'x' && "executable"[2] == 'e' && "external"[2] == 't';
  }

  /** In capitals, as packages have it, and the type that is external for the commands and unknown to the sidecar. */
  lemma {:induction false} TypesInCapitals()
    ensures Classify("GOLANG").Buildable? && Classify("JAVA").Buildable? && Classify("External").Unsupported?
  {
    assert Spells("GOLANG", "golang") && Spells("JAVA", "java");
    assert "External"[0] == 'E' && "external"[0] == 'e';
    KindByType("GOLANG");
    KindByType("JAVA");
    KindByType("External");
  }

  // ----- what a call returns, and why -----

  /** The step asks for the definition of the container, and of the pod that the peer owns. */
  predicate Defines(cfg: Config, a: Action) { a == Call(Defined) || (a == Call(Begin) && cfg.stage.BuildStage?) }

  /** Step a from s is where failure f shows. */
  predicate Causes(cfg: Config, s: State, a: Action, f: Failure) {
    match f
    case BadMetadata => a == Call(Begin) && cfg.metadata.None?
    case BadRunMetadata =>
      a == Call(Begin) && cfg.stage.RunStage? && cfg.metadata.Some? && !cfg.metadata.value.External?
      && !cfg.runMetadataReadable
    case SecretNotCreated => a.Call? && a.call.SecretCreated? && !a.call.ok
    case BadContainer => Defines(cfg, a) && cfg.metadata.Some? && !cfg.metadata.value.Buildable?
    case NoPeerPod => Defines(cfg, a) && cfg.metadata == Some(Buildable) && cfg.peer.None?
    case WatchFailed => a == Call(WatchStarted(false))
    case PodNotCreated => a.Call? && a.call.PodCreated? && a.call.uid.None?
    case NoOwnerReference =>
      a.Call?
      && ((a.call.SecretRead? && s.pc.GetSecret? && a.call.reply.None?) || (a.call.SecretUpdated? && !a.call.ok))
    case Cancelled => a == Loop(CancelSeen)
    case WatchClosed => a == Loop(WatchEnded)
    case WatchErrorEvent => a == Loop(EventSeen(ErrorEvent))
    case PodFailed => a == Loop(WaitReturned) && s.view.current.phase == PhaseFailed
    case SecretNotDeleted => a.Call? && a.call.SecretDeleted? && !a.call.ok
  }

  /** It showed in one of the first i steps. */
  ghost predicate Failed(cfg: Config, states: seq<State>, steps: seq<Action>, i: nat, f: Failure)
    requires i <= |steps| && |states| == |steps| + 1
  {
    exists k: nat :: k < i && Causes(cfg, states[k], steps[k], f)
  }

  /** What kind of chaincode gets how far. */
  ghost predicate KindInv(cfg: Config, s: State) {
    && (s.pc.CreateSecret? || s.pc.Define? ==> cfg.metadata.Some? && !cfg.metadata.value.External?)
    && (s.pc.Watch? || s.ex.watching ==> cfg.metadata == Some(Buildable))
    && (s.pc.CreatePod? || s.pc.GetSecret? || s.pc.UpdateSecret? || s.pc.Select? || Handling(s) || s.pc.Await?
        ==> s.ex.watching)
    && (s.pc.Unwind? || s.pc.FinalGet? || s.pc.FinalDelete? ==> s.waited || s.result != Success)
    && (s.waited ==> s.ex.watching)
    && (s.pc.Returned? && s.result == Success ==>
          s.waited || (cfg.stage.RunStage? && cfg.metadata == Some(External)))
  }

  /** Step a takes s to t and fails, or keeps the result. */
  ghost predicate Results(cfg: Config, s: State, a: Action, t: State) {
    && (forall f | Causes(cfg, s, a, f) :: t.result == Error(f) && Leaving(t))
    && (t.result.Error? ==> s.result == t.result || Causes(cfg, s, a, t.result.failure))
    && (Leaving(s) ==> Leaving(t) && (t.result == s.result || Causes(cfg, s, a, SecretNotDeleted)))
    && (forall f | Leaving(s) && Causes(cfg, s, a, f) :: f == SecretNotDeleted)
    && (t.waited <==> s.waited || a == Loop(WaitReturned))
  }

  lemma {:induction false} CallKinds(cfg: Config, s: State, c: CallStep)
    requires KindInv(cfg, s) && CallEnabled(s, c)
    ensures KindInv(cfg, NextCall(cfg, s, c))
  {}

  lemma {:induction false} LoopKinds(cfg: Config, s: State, l: LoopStep)
    requires KindInv(cfg, s) && LoopEnabled(s, l)
    ensures KindInv(cfg, NextLoop(cfg, s, l))
  {}

  lemma {:induction false} StreamKinds(cfg: Config, s: State, i: StreamStep)
    requires KindInv(cfg, s) && StreamEnabled(s, i)
    ensures KindInv(cfg, NextStream(s, i))
  {}

  lemma {:induction false} CallResults(cfg: Config, s: State, c: CallStep)
    requires KindInv(cfg, s) && CallEnabled(s, c)
    ensures Results(cfg, s, Call(c), NextCall(cfg, s, c))
  {}

  lemma {:induction false} LoopResults(cfg: Config, s: State, l: LoopStep)
    requires LoopEnabled(s, l)
    ensures Results(cfg, s, Loop(l), NextLoop(cfg, s, l))
  {}

  lemma {:induction false} StreamResults(cfg: Config, s: State, i: StreamStep)
    requires StreamEnabled(s, i)
    ensures Results(cfg, s, Output(i), NextStream(s, i))
  {}

  lemma {:induction false} StepResults(cfg: Config, s: State, a: Action)
    requires KindInv(cfg, s) && Enabled(s, a)
    ensures KindInv(cfg, Next(cfg, s, a)) && Results(cfg, s, a, Next(cfg, s, a))
  {
    match a
    case Call(c) =>
      CallKinds(cfg, s, c);
      CallResults(cfg, s, c);
    case Loop(l) =>
      LoopKinds(cfg, s, l);
      LoopResults(cfg, s, l);
    case Output(o) =>
      StreamKinds(cfg, s, o);
      StreamResults(cfg, s, o);
  }

  lemma {:induction false} RunKeepsKinds(cfg: Config, states: seq<State>, steps: seq<Action>, i: nat)
    requires IsRun(cfg, states, steps) && i < |states|
    ensures KindInv(cfg, states[i])
  {
    if i > 0 {
      RunKeepsKinds(cfg, states, steps, i - 1);
      StepResults(cfg, states[i - 1], steps[i - 1]);
    }
  }

  lemma {:induction false} RunResults(cfg: Config, states: seq<State>, steps: seq<Action>, k: nat)
    requires IsRun(cfg, states, steps) && k < |steps|
    ensures Results(cfg, states[k], steps[k], states[k + 1])
  {
    RunKeepsKinds(cfg, states, steps, k);
    StepResults(cfg, states[k], steps[k]);
  }

  /** The result after i steps is the failure that showed in them. */
  ghost predicate Told(cfg: Config, states: seq<State>, steps: seq<Action>, i: nat)
    requires i <= |steps| && |states| == |steps| + 1
  {
    && (forall f | Failed(cfg, states, steps, i, f) :: Leaving(states[i]))
    && (forall f | Failed(cfg, states, steps, i, f) ::
          states[i].result == Error(f)
          || (Failed(cfg, states, steps, i, SecretNotDeleted) && states[i].result == Error(SecretNotDeleted)))
    && (states[i].result.Error? ==> Failed(cfg, states, steps, i, states[i].result.failure))
  }

  lemma {:induction false} FailedMore(cfg: Config, states: seq<State>, steps: seq<Action>, i: nat, j: nat, f: Failure)
    requires j == i + 1 <= |steps| && |states| == |steps| + 1
    ensures Failed(cfg, states, steps, j, f) <==>
      Failed(cfg, states, steps, i, f) || Causes(cfg, states[i], steps[i], f)
  {}

  lemma {:induction false} ToldMore(cfg: Config, states: seq<State>, steps: seq<Action>, i: nat, j: nat)
    requires j == i + 1 <= |steps| && |states| == |steps| + 1
    requires Told(cfg, states, steps, i) && Results(cfg, states[i], steps[i], states[j])
    ensures Told(cfg, states, steps, j)
  {
    forall f ensures Failed(cfg, states, steps, j, f) <==>
        Failed(cfg, states, steps, i, f) || Causes(cfg, states[i], steps[i], f)
    {
      FailedMore(cfg, states, steps, i, j, f);
    }
  }

  lemma {:induction false} ToldOn(cfg: Config, states: seq<State>, steps: seq<Action>, i: nat)
    requires |states| == |steps| + 1 && i <= |steps| && states[0].result == Success
    requires forall k: nat | k < |steps| :: Results(cfg, states[k], steps[k], states[k + 1])
    ensures Told(cfg, states, steps, i)
  {
    if i > 0 {
      ToldOn(cfg, states, steps, i - 1);
      assert Results(cfg, states[i - 1], steps[i - 1], states[i - 1 + 1]);
      ToldMore(cfg, states, steps, i - 1, i);
    }
  }

  /**
   * A call returns a failure exactly if that failure showed in one of its steps, except that a failed deletion of the
   * secret afterwards takes its place; it returns success exactly if none showed.
   */
  lemma {:induction false} FailsBecause(cfg: Config, states: seq<State>, steps: seq<Action>, i: nat, f: Failure)
    requires IsRun(cfg, states, steps) && i < |states|
    ensures states[i].result == Error(f) <==>
      && Failed(cfg, states, steps, i, f)
      && (f == SecretNotDeleted || !Failed(cfg, states, steps, i, SecretNotDeleted))
    ensures states[i].result == Success ==> !Failed(cfg, states, steps, i, f)
  {
    forall k: nat | k < |steps| ensures Results(cfg, states[k], steps[k], states[k + 1]) {
      RunResults(cfg, states, steps, k);
    }
    ToldOn(cfg, states, steps, i);
  }

  lemma {:induction false} WaitedIs(cfg: Config, states: seq<State>, steps: seq<Action>, i: nat)
    requires IsRun(cfg, states, steps) && i < |states|
    ensures states[i].waited <==> Loop(WaitReturned) in steps[..i]
  {
    if i > 0 {
      WaitedIs(cfg, states, steps, i - 1);
      RunResults(cfg, states, steps, i - 1);
      TakeSnoc(steps, i);
    }
  }

  /**
   * A call returns success exactly if it was asked to run an external chaincode, or the logs were waited for, the last
   * update told that the pod succeeded, and the secret needed no deletion that failed.
   */
  lemma {:induction false} SucceedsBecause(cfg: Config, states: seq<State>, steps: seq<Action>, i: nat)
    requires IsRun(cfg, states, steps) && i < |states| && states[i].pc.Returned?
    ensures states[i].result == Success <==>
      || (cfg.stage.RunStage? && cfg.metadata == Some(External))
      || (&& Loop(WaitReturned) in steps[..i]
          && (exists pod :: LastSeen(steps, i, pod) && pod.phase == PhaseSucceeded)
          && !Failed(cfg, states, steps, i, SecretNotDeleted))
  {
    RunKeepsKinds(cfg, states, steps, i);
    RunKeepsPhase(cfg, states, steps, i);
    RunViews(cfg, states, steps, i);
    WaitedIs(cfg, states, steps, i);
    FailsBecause(cfg, states, steps, i, SecretNotDeleted);
    ExternalSucceeds(cfg, states, steps, i);
  }

  /** Nothing goes wrong with an external chaincode, as nothing is tried. */
  ghost predicate Untried(s: State) {
    s.result == Success && (s.pc.Entry? || s.pc.Returned?) && s.out.send.Idle? && s.logs.streamers == []
  }

  lemma {:induction false} ExternalStep(cfg: Config, s: State, a: Action)
    requires cfg.stage.RunStage? && cfg.metadata == Some(External) && Untried(s) && Enabled(s, a)
    ensures Untried(Next(cfg, s, a))
  {}

  lemma {:induction false} ExternalSucceeds(cfg: Config, states: seq<State>, steps: seq<Action>, i: nat)
    requires IsRun(cfg, states, steps) && i < |states|
    ensures cfg.stage.RunStage? && cfg.metadata == Some(External) ==> Untried(states[i])
  {
    if i > 0 {
      ExternalSucceeds(cfg, states, steps, i - 1);
      if cfg.stage.RunStage? && cfg.metadata == Some(External) { ExternalStep(cfg, states[i - 1], steps[i - 1]); }
    }
  }

  // ----- which streams are opened -----

  /** Status j of a pod, the init containers first. */
  function StatusAt(pod: PodUpdate, j: nat): (st: ContainerStatus)
    requires j < |pod.init| + |pod.containers|
  {
    if j < |pod.init| then pod.init[j] else pod.containers[j - |pod.init|]
  }

  /**
   * A request for logs is for the next container in turn, init containers first, of the last update. That container is
   * running or has terminated, and has no stream; those before it have one, or their request in this update failed.
   */
  lemma {:induction false} RequestsInTurn(
    cfg: Config, states: seq<State>, steps: seq<Action>, i: nat, pod: PodUpdate)
    requires IsRun(cfg, states, steps) && i < |steps| && LastSeen(steps, i, pod)
    requires steps[i].Loop? && steps[i].loop.LogsRequested?
    ensures var s := states[i];
      && s.pc.Scan? && s.pc.index < |pod.init| + |pod.containers|
      && var st := StatusAt(pod, s.pc.index);
      && (st.running || st.terminated)
      && (forall k: nat | k < |s.logs.streamers| :: s.logs.streamers[k].name != st.name)
      && forall j: nat | j < s.pc.index && (StatusAt(pod, j).running || StatusAt(pod, j).terminated) ::
           HasStream(s, StatusAt(pod, j).name) || (s.view.updates, j) in s.view.failed
  {
    RunKeepsInv(cfg, states, steps, i);
    RunViews(cfg, states, steps, i);
    var s := states[i];
    assert Enabled(s, steps[i]);
    forall j: nat | j < |pod.init| + |pod.containers| ensures StatusAt(pod, j) == s.view.current.Statuses()[j] {}
    forall k: nat | k < |s.logs.streamers|
      ensures s.logs.streamers[k].name != StatusAt(pod, s.pc.index).name
    {
      assert Names(s)[k] == s.logs.streamers[k].name;
    }
    forall j: nat | j < s.pc.index && (StatusAt(pod, j).running || StatusAt(pod, j).terminated)
      ensures HasStream(s, StatusAt(pod, j).name) || (s.view.updates, j) in s.view.failed
    {
      assert Covered(s.view, s.logs.active, j);
      if StatusAt(pod, j).name in s.logs.active { StreamOf(s, StatusAt(pod, j).name); }
    }
  }

  /** A goroutine reads the logs of that container. */
  predicate HasStream(s: State, name: string) {
    exists k: nat :: k < |s.logs.streamers| && s.logs.streamers[k].name == name
  }

  lemma {:induction false} StreamOf(s: State, name: string)
    requires ActiveInv(s) && !s.pc.WaitAdd? && !s.pc.Spawn? && name in s.logs.active
    ensures HasStream(s, name)
  {
    var k := s.logs.active[name];
    assert Names(s)[k] == name;
  }

  /**
   * When an update has been processed, each of its containers, init containers or not, that is running or has
   * terminated has a stream, or its log request in that very update failed and is reported exactly once.
   */
  lemma {:induction false} UpdateCovered(
    cfg: Config, states: seq<State>, steps: seq<Action>, i: nat, pod: PodUpdate, j: nat)
    requires IsRun(cfg, states, steps) && i < |states| && LastSeen(steps, i, pod) && !Handling(states[i])
    requires j < |pod.init| + |pod.containers| && (StatusAt(pod, j).running || StatusAt(pod, j).terminated)
    ensures var s := states[i];
      || HasStream(s, StatusAt(pod, j).name)
      || |Project(s.out.sent, Attempt(s.view.updates, j))|
         + (if Pending(s.out.send, Attempt(s.view.updates, j)) then 1 else 0) == 1
  {
    RunKeepsInv(cfg, states, steps, i);
    RunViews(cfg, states, steps, i);
    var s := states[i];
    assert StatusAt(pod, j) == s.view.current.Statuses()[j];
    assert Covered(s.view, s.logs.active, j);
    assert Logged(s.out.sent, s.out.send, s.view.failed, s.view.updates, j);
    if StatusAt(pod, j).name in s.logs.active { StreamOf(s, StatusAt(pod, j).name); }
  }

  /** Step a from s got log as the stream of the container of that name. */
  predicate Opens(s: State, a: Action, name: string, log: LogStream) {
    && a.Loop? && a.loop.LogsRequested? && a.loop.log == Some(log)
    && s.pc.Scan? && s.pc.index < |s.view.current.init| + |s.view.current.containers|
    && StatusAt(s.view.current, s.pc.index).name == name
  }

  ghost predicate WasOpened(states: seq<State>, steps: seq<Action>, i: nat, name: string, log: LogStream)
    requires i <= |steps| && |states| == |steps| + 1
  {
    exists m: nat :: m < i && Opens(states[m], steps[m], name, log)
  }

  /** The streams of s, and one just opened, were all opened in the first i steps. */
  ghost predicate AllOpened(states: seq<State>, steps: seq<Action>, i: nat, s: State)
    requires i <= |steps| && |states| == |steps| + 1
  {
    && (forall k: nat | k < |s.logs.streamers| ::
          WasOpened(states, steps, i, s.logs.streamers[k].name, s.logs.streamers[k].log))
    && (s.pc.WaitAdd? || s.pc.Spawn? ==>
          && s.pc.index < |s.view.current.init| + |s.view.current.containers|
          && WasOpened(states, steps, i, StatusAt(s.view.current, s.pc.index).name, s.pc.log))
  }

  /** Where the streams of t come from. */
  ghost predicate Follows(s: State, a: Action, t: State) {
    && (forall k: nat | k < |t.logs.streamers| ::
          || (k < |s.logs.streamers| && t.logs.streamers[k].name == s.logs.streamers[k].name
              && t.logs.streamers[k].log == s.logs.streamers[k].log)
          || (s.pc.Spawn? && s.pc.index < |s.view.current.init| + |s.view.current.containers|
              && t.logs.streamers[k].name == StatusAt(s.view.current, s.pc.index).name
              && t.logs.streamers[k].log == s.pc.log))
    && (t.pc.WaitAdd? || t.pc.Spawn? ==>
          && t.pc.index < |t.view.current.init| + |t.view.current.containers|
          && (((s.pc.WaitAdd? || s.pc.Spawn?) && s.view == t.view && s.pc.index == t.pc.index && s.pc.log == t.pc.log)
              || Opens(s, a, StatusAt(t.view.current, t.pc.index).name, t.pc.log)))
  }

  lemma {:induction false} LoopFollows(cfg: Config, s: State, l: LoopStep)
    requires LoopEnabled(s, l) && (s.pc.WaitAdd? || s.pc.Spawn? ==> s.pc.index < |s.view.current.Statuses()|)
    ensures Follows(s, Loop(l), NextLoop(cfg, s, l))
  {}

  lemma {:induction false} CallFollows(cfg: Config, s: State, c: CallStep)
    requires CallEnabled(s, c)
    ensures Follows(s, Call(c), NextCall(cfg, s, c))
  {}

  lemma {:induction false} OutputFollows(s: State, i: StreamStep)
    requires StreamEnabled(s, i) && (s.pc.WaitAdd? || s.pc.Spawn? ==> s.pc.index < |s.view.current.Statuses()|)
    ensures Follows(s, Output(i), NextStream(s, i))
  {}

  lemma {:induction false} StepFollows(cfg: Config, s: State, a: Action)
    requires Enabled(s, a) && (s.pc.WaitAdd? || s.pc.Spawn? ==> s.pc.index < |s.view.current.Statuses()|)
    ensures Follows(s, a, Next(cfg, s, a))
  {
    match a
    case Call(c) => CallFollows(cfg, s, c);
    case Loop(l) => LoopFollows(cfg, s, l);
    case Output(o) => OutputFollows(s, o);
  }

  lemma {:induction false} OpenedLater(
    states: seq<State>, steps: seq<Action>, i: nat, j: nat, name: string, log: LogStream)
    requires j == i + 1 <= |steps| && |states| == |steps| + 1
    ensures WasOpened(states, steps, i, name, log) || Opens(states[i], steps[i], name, log)
      ==> WasOpened(states, steps, j, name, log)
  {}

  lemma {:induction false} OpenedMore(states: seq<State>, steps: seq<Action>, i: nat, j: nat)
    requires j == i + 1 <= |steps| && |states| == |steps| + 1
    requires AllOpened(states, steps, i, states[i]) && Follows(states[i], steps[i], states[j])
    ensures AllOpened(states, steps, j, states[j])
  {
    forall name, log
      ensures WasOpened(states, steps, i, name, log) || Opens(states[i], steps[i], name, log)
        ==> WasOpened(states, steps, j, name, log)
    {
      OpenedLater(states, steps, i, j, name, log);
    }
  }

  lemma {:induction false} OpenedOn(states: seq<State>, steps: seq<Action>, i: nat)
    requires |states| == |steps| + 1 && i <= |steps| && states[0] == Initial()
    requires forall k: nat | k < |steps| :: Follows(states[k], steps[k], states[k + 1])
    ensures AllOpened(states, steps, i, states[i])
  {
    if i > 0 {
      OpenedOn(states, steps, i - 1);
      assert Follows(states[i - 1], steps[i - 1], states[i - 1 + 1]);
      OpenedMore(states, steps, i - 1, i);
    }
  }

  /** The goroutine for a container reads the stream that a request for the logs of that container was answered with. */
  lemma {:induction false} StreamsAsOpened(cfg: Config, states: seq<State>, steps: seq<Action>, i: nat, k: nat)
    requires IsRun(cfg, states, steps) && i < |states| && k < |states[i].logs.streamers|
    ensures WasOpened(states, steps, i, states[i].logs.streamers[k].name, states[i].logs.streamers[k].log)
  {
    forall m: nat | m < |steps| ensures Follows(states[m], steps[m], states[m + 1]) {
      RunKeepsInv(cfg, states, steps, m);
      StepFollows(cfg, states[m], steps[m]);
    }
    OpenedOn(states, steps, i);
  }

  // ----- what is said about failures -----

  /** The handler is about to say t, as a message of no stream. */
  predicate Says(s: State, t: Text) {
    s.out.send.Blocked? && !s.out.send.message.origin.Stream? && s.out.send.message.text == t
  }

  /** Every failure that does not end the call, or whose error is not passed on, is said on the response stream. */
  lemma {:induction false} FailuresAreSaid(cfg: Config, s: State, a: Action)
    requires Enabled(s, a)
    ensures a.Loop? && a.loop.LogsRequested? && a.loop.log.None? ==>
      Says(Next(cfg, s, a), LogsRefused(cfg.podName, a.loop.error))
    ensures a.Loop? && a.loop.DeferredCall? && !a.loop.ok && s.ex.defers != [] ==>
      match s.ex.defers[|s.ex.defers| - 1]
      case DeletePod => Says(Next(cfg, s, a), DeleteFailed(a.loop.error))
      case CloseStream(_) => Says(Next(cfg, s, a), CloseFailed(a.loop.error))
      case StopWatcher => Next(cfg, s, a).out == s.out
    ensures a.Call? && a.call.SecretUpdated? && !a.call.ok ==> Says(Next(cfg, s, a), NoReferenceText(a.call.error))
    ensures a.Call? && a.call.SecretRead? && s.pc.GetSecret? && a.call.reply.None? ==>
      Says(Next(cfg, s, a), NotFetched(cfg.secretName, a.call.error))
    ensures a.Call? && a.call.SecretRead? && s.pc.FinalGet? && a.call.reply == Some([]) ==>
      Says(Next(cfg, s, a), SecretUnowned)
  {}
}
