/**
 * One Build or Run call of the sidecar server, as a state machine.
 *
 * The handler goroutine (Build, Run, executePod and their deferred calls) and
 * one goroutine per log stream (streamLogs) interleave one step at a time. They
 * share the WaitGroup counter and the mutex of the serialized response stream.
 * Calls to the Kubernetes API are steps labelled with their outcome: `applied`
 * says whether the cluster changed and `ok` (or a reply) what the handler was
 * told, so that a change whose reply is lost is part of the model.
 */
module PodSession {
  import opened Common
  import opened Kube

  datatype Stage = BuildStage | RunStage

  datatype Failure =
    | BadMetadata | BadRunMetadata | SecretNotCreated | BadContainer | NoPeerPod
    | WatchFailed | PodNotCreated | NoOwnerReference
    | Cancelled | WatchClosed | WatchErrorEvent | PodFailed
    | SecretNotDeleted

  datatype Outcome = Success | Error(failure: Failure)

  /** Chaincode types as Run and the container definitions tell them apart. */
  datatype Kind = External | Buildable | Unsupported

  /** Run compares with "external" exactly, the container definitions without regard to case. */
  function Classify(ccType: string): Kind {
    if ccType == "external" then External
    else if Lower(ccType) in {"golang", "java", "node", "executable"} then Buildable
    else Unsupported
  }

  /** What a call is given: its stage, names and inputs. */
  datatype Config = Config(
    stage: Stage,
    peerId: string,
    podName: string,
    secretName: string,
    metadata: Option<Kind>,       // of the chaincode, None when it cannot be read
    runMetadataReadable: bool,
    peer: Option<OwnerRef>)       // PEER_POD_NAME and PEER_POD_UID, None when either is unset

  // ----- what the watch reports -----

  datatype ContainerStatus = ContainerStatus(name: string, running: bool, terminated: bool)
  {
    predicate Started() { running || terminated }
  }

  datatype Phase = PhasePending | PhaseRunning | PhaseSucceeded | PhaseFailed | PhaseUnknown

  datatype PodUpdate = PodUpdate(init: seq<ContainerStatus>, containers: seq<ContainerStatus>, phase: Phase)
  {
    function Statuses(): seq<ContainerStatus> { init + containers }
    predicate Terminal() { phase == PhaseSucceeded || phase == PhaseFailed }
  }

  datatype WatchEvent = Changed(pod: PodUpdate) | ErrorEvent | OtherEvent

  // ----- messages on the response stream -----

  /** Which part of the code produced a message. */
  datatype Origin = Stream(id: nat) | Attempt(event: nat, index: nat) | Handler

  /** What a message says; Render gives its characters. */
  datatype Text =
    | Line(name: string, line: string)
    | ScanFailed(name: string, error: string)
    | LogsRefused(pod: string, error: string)
    | NoReferenceText(error: string)
    | NotFetched(secret: string, error: string)
    | CloseFailed(error: string)
    | DeleteFailed(error: string)
    | SecretUnowned

  /** The label of the messages about the owner reference; in pieces, which the solver takes apart more easily. */
  const Unowned: string := "failed to add " + "controller " + "reference to " + "crypto secret"

  const Deleting: string := "crypto secret " + "does not have " + "owner references, " + "deleting secret"

  function Labelled(who: string, rest: string): string { who + ": " + rest }

  /** Its characters before the final newline. */
  function Head(t: Text): string {
    match t
    case Line(name, line) => Labelled(name, line)
    case ScanFailed(name, error) => Labelled(name, "scanning log lines failed: " + error)
    case LogsRefused(pod, error) => Labelled(pod, "get logs: " + error)
    case NoReferenceText(error) => Labelled(Unowned, error)
    case NotFetched(secret, error) => Labelled(Unowned, "failed to get " + secret + " secret: " + error)
    case CloseFailed(error) => Labelled("Error closing stream", error)
    case DeleteFailed(error) => Labelled("pod delete", error)
    case SecretUnowned => Deleting
  }

  function Render(t: Text): string { Head(t) + "\n" }

  datatype Message = Message(origin: Origin, text: Text)

  /** A completed Send, and whether the transport accepted the message. */
  datatype Sent = Sent(message: Message, accepted: bool)

  /** Progress of one goroutine through serialized Send. */
  datatype SendState = Idle | Blocked(message: Message) | Sending(message: Message)

  datatype LockHolder = Free | HandlerHolds | StreamHolds(id: nat)

  // ----- log streams -----

  /** The contents of a log stream: the lines scanned from it and how scanning ends. */
  datatype LogStream = LogStream(lines: seq<string>, scanError: Option<string>)

  /** A goroutine running streamLogs. */
  datatype Streamer = Streamer(name: string, log: LogStream, pos: nat, send: SendState, finished: bool)

  /** Everything streamLogs has to say about a stream, in order. */
  function Script(id: nat, name: string, log: LogStream): (script: seq<Message>)
    ensures |script| == |log.lines| + (if log.scanError.Some? then 1 else 0)
    ensures forall j :: 0 <= j < |log.lines| ==> script[j] == Message(Stream(id), Line(name, log.lines[j]))
  {
    seq(|log.lines|, j requires 0 <= j < |log.lines| => Message(Stream(id), Line(name, log.lines[j])))
    + (if log.scanError.Some? then [Message(Stream(id), ScanFailed(name, log.scanError.value))] else [])
  }

  // ----- the state -----

  /** A call registered with defer inside executePod. */
  datatype Deferred = StopWatcher | DeletePod | CloseStream(id: nat)

  /** Where the handler goroutine is. */
  datatype Pc =
    | Entry | CreateSecret | Define
    | Watch | CreatePod | GetSecret | UpdateSecret
    | Select | Scan(index: nat) | WaitAdd(index: nat, log: LogStream) | Spawn(index: nat, log: LogStream) | Await
    | Unwind
    | FinalGet | FinalDelete
    | Returned

  /** The serialized response stream: the handler's own Send, the mutex and the completed Sends. */
  datatype Out = Out(send: SendState, lock: LockHolder, sent: seq<Sent>)

  /** What executePod holds on to; deleted says, as history, that the deferred Delete of the pod was applied. */
  datatype Executor = Executor(
    watching: bool, podUid: Option<Uid>, defers: seq<Deferred>, performed: seq<Deferred>, deleted: bool)

  /** The log streams: which container has which, their goroutines and the WaitGroup counter. */
  datatype Logs = Logs(active: map<string, nat>, streamers: seq<Streamer>, wg: int)

  /**
   * The pod update being handled and, as history, how many there were and the log requests that
   * failed, each as the number of its update and the index of its status.
   */
  datatype View = View(current: PodUpdate, updates: nat, failed: set<(nat, nat)>)

  /**
   * History of the pod and the crypto secret: what the API changed (made, stored, gone), what the
   * handler was told (confirmed), and which of its last two calls went wrong.
   */
  datatype Custody = Custody(
    podMade: bool, secretMade: bool, secretConfirmed: bool, refStored: bool,
    secretGone: bool, missedGet: bool, keptDelete: bool)

  datatype State = State(
    pc: Pc,
    result: Outcome,
    waited: bool,                 // history: wg.Wait returned
    out: Out,
    ex: Executor,
    logs: Logs,
    view: View,
    custody: Custody)

  const NoUpdate: PodUpdate := PodUpdate([], [], PhasePending)

  function Initial(): State {
    State(Entry, Success, false,
          Out(Idle, Free, []), Executor(false, None, [], [], false), Logs(map[], [], 0), View(NoUpdate, 0, {}),
          Custody(false, false, false, false, false, false, false))
  }

  /** Streams opened so far: those with a goroutine and the one about to get it. */
  function Opened(s: State): nat {
    |s.logs.streamers| + (if s.pc.WaitAdd? || s.pc.Spawn? then 1 else 0)
  }

  // ----- steps -----

  /** A step of the handler goroutine outside the watch loop. */
  datatype CallStep =
    | Begin
    | SecretCreated(applied: bool, ok: bool)
    | Defined
    | WatchStarted(ok: bool)
    | PodCreated(applied: bool, uid: Option<Uid>)
    | SecretRead(reply: Option<seq<OwnerRef>>, present: bool, error: string)
    | SecretUpdated(applied: bool, ok: bool, error: string)
    | SecretDeleted(applied: bool, ok: bool)

  /** A step of the watch loop of executePod, or one of its deferred calls. */
  datatype LoopStep =
    | CancelSeen
    | WatchEnded
    | EventSeen(event: WatchEvent)
    | StatusSkipped
    | LogsRequested(log: Option<LogStream>, error: string)
    | WaitGroupAdded
    | StreamerStarted
    | EventDone
    | WaitReturned
    | DeferredCall(applied: bool, ok: bool, error: string)

  /** A step inside serialized Send, or of a log goroutine. */
  datatype StreamStep =
    | HandlerLocks
    | HandlerSends(accepted: bool)
    | StreamerLogs(id: nat)
    | StreamerLocks(id: nat)
    | StreamerSends(id: nat, accepted: bool)
    | StreamerEnds(id: nat)

  datatype Action = Call(call: CallStep) | Loop(loop: LoopStep) | Output(step: StreamStep)

  predicate CallEnabled(s: State, c: CallStep) {
    s.out.send.Idle? &&
    match c
    case Begin => s.pc.Entry?
    case SecretCreated(applied, ok) => s.pc.CreateSecret? && (ok ==> applied)
    case Defined => s.pc.Define?
    case WatchStarted(_) => s.pc.Watch?
    case PodCreated(applied, uid) => s.pc.CreatePod? && (uid.Some? ==> applied)
    case SecretRead(reply, present, _) => (s.pc.GetSecret? || s.pc.FinalGet?) && (reply.Some? ==> present)
    case SecretUpdated(applied, ok, _) => s.pc.UpdateSecret? && (ok ==> applied)
    case SecretDeleted(applied, ok) => s.pc.FinalDelete? && (ok ==> applied)
  }

  predicate LoopEnabled(s: State, l: LoopStep) {
    s.out.send.Idle? &&
    match l
    case CancelSeen => s.pc.Select?
    case WatchEnded => s.pc.Select?
    case EventSeen(_) => s.pc.Select?
    case StatusSkipped =>
      s.pc.Scan? && s.pc.index < |s.view.current.Statuses()| &&
      var status := s.view.current.Statuses()[s.pc.index];
      !status.Started() || status.name in s.logs.active
    case LogsRequested(_, _) =>
      s.pc.Scan? && s.pc.index < |s.view.current.Statuses()| &&
      var status := s.view.current.Statuses()[s.pc.index];
      status.Started() && status.name !in s.logs.active
    case WaitGroupAdded => s.pc.WaitAdd?
    case StreamerStarted => s.pc.Spawn? && s.pc.index < |s.view.current.Statuses()|
    case EventDone => s.pc.Scan? && s.pc.index >= |s.view.current.Statuses()|
    case WaitReturned => s.pc.Await? && s.logs.wg == 0
    case DeferredCall(applied, ok, _) => s.pc.Unwind? && (ok ==> applied)
  }

  predicate StreamEnabled(s: State, i: StreamStep) {
    match i
    case HandlerLocks => s.out.send.Blocked? && s.out.lock.Free?
    case HandlerSends(_) => s.out.send.Sending?
    case StreamerLogs(k) =>
      k < |s.logs.streamers| && var t := s.logs.streamers[k];
      t.send.Idle? && !t.finished && t.pos < |Script(k, t.name, t.log)|
    case StreamerLocks(k) => k < |s.logs.streamers| && s.logs.streamers[k].send.Blocked? && s.out.lock.Free?
    case StreamerSends(k, _) => k < |s.logs.streamers| && s.logs.streamers[k].send.Sending?
    case StreamerEnds(k) =>
      k < |s.logs.streamers| && var t := s.logs.streamers[k];
      t.send.Idle? && !t.finished && t.pos == |Script(k, t.name, t.log)|
  }

  predicate Enabled(s: State, a: Action) {
    match a
    case Call(c) => CallEnabled(s, c)
    case Loop(l) => LoopEnabled(s, l)
    case Output(i) => StreamEnabled(s, i)
  }

  /** executePod returns: its deferred calls come next. */
  function Leave(s: State, result: Outcome): State { s.(pc := Unwind, result := result) }

  /** The handler continues at pc once the message has gone through Log. */
  function LogThen(s: State, pc: Pc, origin: Origin, text: Text): State {
    s.(pc := pc, out := s.out.(send := Blocked(Message(origin, text))))
  }

  function SetStreamer(s: State, k: nat, t: Streamer): State
    requires k < |s.logs.streamers|
  {
    s.(logs := s.logs.(streamers := s.logs.streamers[k := t]))
  }

  function NextBegin(cfg: Config, s: State): State {
    if cfg.metadata.None? then s.(pc := Returned, result := Error(BadMetadata))
    else if cfg.stage.BuildStage? then
      if !cfg.metadata.value.Buildable? then s.(pc := Returned, result := Error(BadContainer))
      else if cfg.peer.None? then s.(pc := Returned, result := Error(NoPeerPod))
      else s.(pc := Watch)
    else
      if cfg.metadata.value.External? then s.(pc := Returned)
      else if !cfg.runMetadataReadable then s.(pc := Returned, result := Error(BadRunMetadata))
      else s.(pc := CreateSecret)
  }

  function NextDefined(cfg: Config, s: State): State {
    if cfg.metadata.None? || !cfg.metadata.value.Buildable? then s.(pc := FinalGet, result := Error(BadContainer))
    else if cfg.peer.None? then s.(pc := FinalGet, result := Error(NoPeerPod))
    else s.(pc := Watch)
  }

  function NextPodCreated(cfg: Config, s: State, applied: bool, uid: Option<Uid>): State {
    var s1 := s.(custody := s.custody.(podMade := applied));
    if uid.None? then Leave(s1, Error(PodNotCreated))
    else if cfg.stage.RunStage? then s1.(pc := GetSecret, ex := s.ex.(podUid := uid))
    else s1.(pc := Select, ex := s.ex.(podUid := uid, defers := s.ex.defers + [DeletePod]))
  }

  /** The owner reference could not be stored: log it and leave executePod. */
  function NoReference(s: State, text: Text): State {
    LogThen(Leave(s, Error(NoOwnerReference)), Unwind, Handler, text)
  }

  function NextSecretRead(cfg: Config, s: State, reply: Option<seq<OwnerRef>>, present: bool, error: string): State
    requires s.pc.GetSecret? || s.pc.FinalGet?
  {
    if s.pc.GetSecret? then
      if reply.None? then
        NoReference(s, NotFetched(cfg.secretName, error))
      else s.(pc := UpdateSecret)
    else
      match reply
      case None => s.(pc := Returned, custody := s.custody.(missedGet := present))
      case Some(owners) =>
        if owners != [] then s.(pc := Returned)
        else LogThen(s, FinalDelete, Handler, SecretUnowned)
  }

  function NextEvent(s: State, event: WatchEvent): State {
    match event
    case Changed(pod) => s.(pc := Scan(0), view := s.view.(current := pod, updates := s.view.updates + 1))
    case ErrorEvent => Leave(s, Error(WatchErrorEvent))
    case OtherEvent => s
  }

  function NextLogs(cfg: Config, s: State, log: Option<LogStream>, error: string): State
    requires s.pc.Scan? && s.pc.index < |s.view.current.Statuses()|
  {
    var i := s.pc.index;
    match log
    case None =>
      var attempted := s.(view := s.view.(failed := s.view.failed + {(s.view.updates, i)}));
      LogThen(attempted, Scan(i + 1), Attempt(s.view.updates, i), LogsRefused(cfg.podName, error))
    case Some(stream) =>
      s.(pc := WaitAdd(i, stream),
         ex := s.ex.(defers := s.ex.defers + [CloseStream(|s.logs.streamers|)]),
         logs := s.logs.(active := s.logs.active[s.view.current.Statuses()[i].name := |s.logs.streamers|]))
  }

  function NextDeferred(s: State, stage: Stage, applied: bool, ok: bool, error: string): State {
    if s.ex.defers == [] then s.(pc := if stage.RunStage? then FinalGet else Returned)
    else
      var d := s.ex.defers[|s.ex.defers| - 1];
      var s1 := s.(ex := s.ex.(defers := s.ex.defers[..|s.ex.defers| - 1], performed := s.ex.performed + [d]));
      match d
      case StopWatcher => s1
      case DeletePod =>
        var s2 := s1.(ex := s1.ex.(deleted := s1.ex.deleted || applied));
        if ok then s2 else LogThen(s2, Unwind, Handler, DeleteFailed(error))
      case CloseStream(_) => if ok then s1 else LogThen(s1, Unwind, Handler, CloseFailed(error))
  }

  function NextCall(cfg: Config, s: State, c: CallStep): State
    requires CallEnabled(s, c)
  {
    match c
    case Begin => NextBegin(cfg, s)
    case SecretCreated(applied, ok) =>
      s.(custody := s.custody.(secretMade := applied, secretConfirmed := ok),
         pc := if ok then Define else Returned,
         result := if ok then s.result else Error(SecretNotCreated))
    case Defined => NextDefined(cfg, s)
    case WatchStarted(ok) =>
      if ok then s.(pc := CreatePod, ex := s.ex.(watching := true, defers := s.ex.defers + [StopWatcher]))
      else Leave(s, Error(WatchFailed))
    case PodCreated(applied, uid) => NextPodCreated(cfg, s, applied, uid)
    case SecretRead(reply, present, error) => NextSecretRead(cfg, s, reply, present, error)
    case SecretUpdated(applied, ok, error) =>
      var s1 := s.(custody := s.custody.(refStored := applied));
      if ok then s1.(pc := Select) else NoReference(s1, NoReferenceText(error))
    case SecretDeleted(applied, ok) =>
      s.(pc := Returned, custody := s.custody.(secretGone := applied, keptDelete := !applied),
         result := if ok then s.result else Error(SecretNotDeleted))
  }

  function NextLoop(cfg: Config, s: State, l: LoopStep): State
    requires LoopEnabled(s, l)
  {
    match l
    case CancelSeen => Leave(s, Error(Cancelled))
    case WatchEnded => Leave(s, Error(WatchClosed))
    case EventSeen(event) => NextEvent(s, event)
    case StatusSkipped => s.(pc := Scan(s.pc.index + 1))
    case LogsRequested(log, error) => NextLogs(cfg, s, log, error)
    case WaitGroupAdded => s.(pc := Spawn(s.pc.index, s.pc.log), logs := s.logs.(wg := s.logs.wg + 1))
    case StreamerStarted =>
      s.(pc := Scan(s.pc.index + 1),
         logs := s.logs.(streamers := s.logs.streamers
           + [Streamer(s.view.current.Statuses()[s.pc.index].name, s.pc.log, 0, Idle, false)]))
    case EventDone => s.(pc := if s.view.current.Terminal() then Await else Select)
    case WaitReturned =>
      Leave(s.(waited := true), if s.view.current.phase == PhaseFailed then Error(PodFailed) else Success)
    case DeferredCall(applied, ok, error) => NextDeferred(s, cfg.stage, applied, ok, error)
  }

  function NextStream(s: State, i: StreamStep): State
    requires StreamEnabled(s, i)
  {
    match i
    case HandlerLocks => s.(out := s.out.(send := Sending(s.out.send.message), lock := HandlerHolds))
    case HandlerSends(accepted) => s.(out := Out(Idle, Free, s.out.sent + [Sent(s.out.send.message, accepted)]))
    case StreamerLogs(k) =>
      var t := s.logs.streamers[k];
      SetStreamer(s, k, t.(send := Blocked(Script(k, t.name, t.log)[t.pos])))
    case StreamerLocks(k) =>
      var t := s.logs.streamers[k];
      SetStreamer(s, k, t.(send := Sending(t.send.message))).(out := s.out.(lock := StreamHolds(k)))
    case StreamerSends(k, accepted) =>
      var t := s.logs.streamers[k];
      SetStreamer(s, k, t.(send := Idle, pos := t.pos + 1))
      .(out := s.out.(lock := Free, sent := s.out.sent + [Sent(t.send.message, accepted)]))
    case StreamerEnds(k) =>
      var ended := s.logs.streamers[k].(finished := true);
      s.(logs := s.logs.(streamers := s.logs.streamers[k := ended], wg := s.logs.wg - 1))
  }

  function Next(cfg: Config, s: State, a: Action): State
    requires Enabled(s, a)
  {
    match a
    case Call(c) => NextCall(cfg, s, c)
    case Loop(l) => NextLoop(cfg, s, l)
    case Output(i) => NextStream(s, i)
  }
}
