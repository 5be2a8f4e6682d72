/** What every step of a Build or Run call keeps. */
module PodSessionInvariant {
  import opened Common
  import opened PodSession

  // ----- vocabulary -----

  /** How many log goroutines have not finished. */
  function Live(ts: seq<Streamer>): nat {
    if ts == [] then 0
    else Live(ts[..|ts| - 1]) + (if ts[|ts| - 1].finished then 0 else 1)
  }

  /** The messages of one origin among those handed to Send, in order. */
  function Project(sent: seq<Sent>, o: Origin): seq<Message> {
    if sent == [] then []
    else
      var m := sent[|sent| - 1].message;
      Project(sent[..|sent| - 1], o) + (if m.origin == o then [m] else [])
  }

  function Reversed<T>(s: seq<T>): seq<T> {
    if s == [] then [] else Reversed(s[1..]) + [s[0]]
  }

  function Closes(n: nat): (cs: seq<Deferred>)
    ensures |cs| == n
  {
    seq(n, i requires 0 <= i < n => CloseStream(i))
  }

  /** Everything executePod has registered with defer, oldest first. */
  function Registered(watching: bool, deletes: bool, streams: nat): seq<Deferred> {
    (if watching then [StopWatcher] else []) + (if deletes then [DeletePod] else []) + Closes(streams)
  }

  function AllDeferred(cfg: Config, s: State): seq<Deferred> {
    Registered(s.ex.watching, cfg.stage.BuildStage? && s.ex.podUid.Some?, Opened(s))
  }

  /** What is left on the defer stack is a prefix of what was registered; the rest was performed, last first. */
  predicate Unwinding(registered: seq<Deferred>, ex: Executor) {
    && |ex.defers| <= |registered|
    && ex.defers == registered[..|ex.defers|]
    && ex.performed == Reversed(registered[|ex.defers|..])
  }

  predicate Handling(s: State) { s.pc.Scan? || s.pc.WaitAdd? || s.pc.Spawn? }

  predicate Leaving(s: State) { s.pc.Unwind? || s.pc.FinalGet? || s.pc.FinalDelete? || s.pc.Returned? }

  function StreamerNames(ts: seq<Streamer>): (names: seq<string>)
    ensures |names| == |ts|
  {
    seq(|ts|, k requires 0 <= k < |ts| => ts[k].name)
  }

  /** The containers whose log was opened, by stream id. */
  function Names(s: State): (names: seq<string>)
    requires s.pc.WaitAdd? || s.pc.Spawn? ==> s.pc.index < |s.view.current.Statuses()|
    ensures |names| == Opened(s)
  {
    StreamerNames(s.logs.streamers)
    + (if s.pc.WaitAdd? || s.pc.Spawn? then [s.view.current.Statuses()[s.pc.index].name] else [])
  }

  /** The map and the sequence are inverse to each other, so no container occurs twice. */
  ghost predicate Inverse(active: map<string, nat>, names: seq<string>) {
    && (forall n | n in active :: active[n] < |names| && names[active[n]] == n)
    && (forall k: nat | k < |names| :: names[k] in active && active[names[k]] == k)
  }

  predicate Pending(send: SendState, o: Origin) { !send.Idle? && send.message.origin == o }

  /** A started container of the current update has a stream, or its log request failed. */
  predicate Covered(v: View, active: map<string, nat>, j: nat)
    requires j < |v.current.Statuses()|
  {
    var status := v.current.Statuses()[j];
    status.Started() ==> status.name in active || (v.updates, j) in v.failed
  }

  // ----- the invariant, by concern -----

  /** The mutex is held exactly by the goroutine inside Send, and the handler sends nothing once it has returned. */
  ghost predicate LockInv(s: State) {
    && (s.pc.Returned? ==> s.out.send.Idle?)
    && (s.out.lock.HandlerHolds? <==> s.out.send.Sending?)
    && (forall k: nat | k < |s.logs.streamers| :: s.out.lock == StreamHolds(k) <==> s.logs.streamers[k].send.Sending?)
    && (s.out.lock.StreamHolds? ==> s.out.lock.id < |s.logs.streamers|)
  }

  /** A log goroutine is at a position of its script and offers exactly that message. */
  ghost predicate StreamerInv(s: State) {
    forall k: nat | k < |s.logs.streamers| ::
      var t := s.logs.streamers[k];
      var script := Script(k, t.name, t.log);
      && t.pos <= |script|
      && (t.finished ==> t.pos == |script| && t.send.Idle?)
      && (!t.send.Idle? ==> t.pos < |script| && t.send.message == script[t.pos])
  }

  ghost predicate WaitGroupInv(s: State) {
    s.logs.wg == Live(s.logs.streamers) + (if s.pc.Spawn? then 1 else 0)
  }

  /** What a stream handed to Send so far is the part of its script before its position. */
  ghost predicate LogInv(s: State) {
    && (s.out.send.Idle? || !s.out.send.message.origin.Stream?)
    && (forall k: nat | k < |s.logs.streamers| ::
          s.logs.streamers[k].pos <= |Script(k, s.logs.streamers[k].name, s.logs.streamers[k].log)| &&
          Project(s.out.sent, Stream(k))
          == Script(k, s.logs.streamers[k].name, s.logs.streamers[k].log)[..s.logs.streamers[k].pos])
    && (forall k: nat | k >= |s.logs.streamers| :: Project(s.out.sent, Stream(k)) == [])
  }

  /** The defer stack grows until executePod returns, and is empty when its caller goes on. */
  ghost predicate DeferInv(cfg: Config, s: State) {
    && Unwinding(AllDeferred(cfg, s), s.ex)
    && (!Leaving(s) ==> s.ex.defers == AllDeferred(cfg, s))
    && (s.pc.FinalGet? || s.pc.FinalDelete? || s.pc.Returned? ==> s.ex.defers == [])
    && (s.ex.deleted ==> DeletePod in s.ex.performed)
  }

  /** Which locals are set where. */
  ghost predicate ShapeInv(cfg: Config, s: State) {
    && (s.pc.Entry? || s.pc.CreateSecret? || s.pc.Define? || s.pc.Watch? ==> !s.ex.watching)
    && (!s.ex.watching ==> !s.custody.podMade)
    && (!s.custody.podMade ==> s.ex.podUid.None?)
    && (s.ex.podUid.None? ==> s.logs.streamers == [])
    && (s.pc.CreatePod? ==> s.ex.watching && !s.custody.podMade)
    && (s.pc.GetSecret? || s.pc.UpdateSecret? || s.pc.Select? || Handling(s) || s.pc.Await? ==> s.ex.podUid.Some?)
    && (s.pc.WaitAdd? || s.pc.Spawn? ==> s.pc.index < |s.view.current.Statuses()|)
    && (s.pc.Scan? ==> s.pc.index <= |s.view.current.Statuses()|)
    && (s.ex.watching ==> cfg.peer.Some?)
    && (s.pc.Watch? ==> cfg.peer.Some?)
  }

  /** Streams and the containers they belong to are in one-to-one correspondence. */
  ghost predicate ActiveInv(s: State) {
    && (s.pc.WaitAdd? || s.pc.Spawn? ==> s.pc.index < |s.view.current.Statuses()|)
    && Inverse(s.logs.active, Names(s))
  }

  /** Every status of the current update that was looked at is covered. */
  ghost predicate CoverInv(s: State) {
    forall j: nat | j < |s.view.current.Statuses()| && (Handling(s) ==> j < s.pc.index) ::
      Covered(s.view, s.logs.active, j)
  }

  /** A log request that failed is logged, or being logged, exactly once; no other is. */
  predicate Logged(sent: seq<Sent>, send: SendState, failed: set<(nat, nat)>, u: nat, j: nat) {
    |Project(sent, Attempt(u, j))| + (if Pending(send, Attempt(u, j)) then 1 else 0)
    == if (u, j) in failed then 1 else 0
  }

  ghost predicate AttemptInv(s: State) {
    && (forall u: nat, j: nat :: Logged(s.out.sent, s.out.send, s.view.failed, u, j))
    && (forall f | f in s.view.failed :: f.0 <= s.view.updates)
    && (forall f | f in s.view.failed && f.0 == s.view.updates && Handling(s) :: f.1 < s.pc.index)
  }

  /** The barrier was passed with no goroutine left, and only then is the phase reported. */
  ghost predicate WaitedInv(s: State) {
    && (s.waited ==> Leaving(s) && Live(s.logs.streamers) == 0)
    && (Leaving(s) && s.ex.watching && s.result == Success ==> s.waited)
    && (s.result == Error(PodFailed) ==> s.waited)
  }

  /** How far the crypto secret has come. */
  ghost predicate SecretInv(cfg: Config, s: State) {
    && (s.pc.CreateSecret? || s.pc.Define? || s.pc.GetSecret? || s.pc.UpdateSecret? ==> cfg.stage.RunStage?)
    && (s.pc.FinalGet? || s.pc.FinalDelete? ==> cfg.stage.RunStage?)
    && (s.custody.secretMade ==> cfg.stage.RunStage?)
    && (s.custody.secretConfirmed ==> s.custody.secretMade)
    && (s.pc.Entry? || s.pc.CreateSecret? ==> !s.custody.secretMade)
    && (cfg.stage.RunStage? && !(s.pc.Entry? || s.pc.CreateSecret? || s.pc.Returned?) ==> s.custody.secretConfirmed)
    && (cfg.stage.RunStage? && s.ex.watching ==> s.custody.secretConfirmed)
    && (s.custody.refStored ==> s.ex.podUid.Some? && s.custody.secretConfirmed)
    && (s.pc.GetSecret? || s.pc.UpdateSecret? ==> !s.custody.refStored)
    && (cfg.stage.RunStage? && (s.pc.Select? || Handling(s) || s.pc.Await?) ==> s.custody.refStored)
    && (s.custody.missedGet || s.custody.keptDelete || s.custody.secretGone ==>
          s.custody.secretConfirmed && s.pc.Returned?)
    && (s.custody.secretGone ==> !s.custody.keptDelete && !s.custody.missedGet)
    && (s.custody.secretMade && !s.custody.secretConfirmed ==> s.pc.Returned? && s.result == Error(SecretNotCreated))
    && (s.custody.keptDelete ==> s.result == Error(SecretNotDeleted))
  }

  ghost predicate Inv(cfg: Config, s: State) {
    && LockInv(s) && StreamerInv(s) && WaitGroupInv(s) && LogInv(s)
    && DeferInv(cfg, s) && ShapeInv(cfg, s) && ActiveInv(s)
    && CoverInv(s) && AttemptInv(s) && WaitedInv(s) && SecretInv(cfg, s)
  }

  // ----- lemmas about the vocabulary -----

  lemma {:induction false} LiveUpdate(ts: seq<Streamer>, k: nat, t: Streamer)
    requires k < |ts|
    ensures Live(ts[k := t]) == Live(ts) - (if ts[k].finished then 0 else 1) + (if t.finished then 0 else 1)
  {
    var n := |ts| - 1;
    if k == n {
      assert ts[k := t][..n] == ts[..n];
    } else {
      assert ts[k := t][..n] == ts[..n][k := t];
      LiveUpdate(ts[..n], k, t);
    }
  }

  lemma {:induction false} LiveZero(ts: seq<Streamer>, k: nat)
    requires Live(ts) == 0 && k < |ts|
    ensures ts[k].finished
  {
    if k < |ts| - 1 { LiveZero(ts[..|ts| - 1], k); }
  }

  lemma {:induction false} ProjectSnoc(sent: seq<Sent>, m: Sent, o: Origin)
    ensures Project(sent + [m], o) == Project(sent, o) + (if m.message.origin == o then [m.message] else [])
  {}

  lemma {:induction false} ClosesSnoc(n: nat)
    ensures Closes(n + 1) == Closes(n) + [CloseStream(n)]
  {}

  /** Popping the last deferred call performs the next of the registered ones. */
  lemma {:induction false} UnwindingPop(r: seq<Deferred>, ex: Executor)
    requires Unwinding(r, ex) && ex.defers != []
    ensures var m := |ex.defers| - 1;
      Unwinding(r, ex.(defers := ex.defers[..m], performed := ex.performed + [ex.defers[m]]))
  {}

  lemma {:induction false} UnwindingFull(r: seq<Deferred>, ex: Executor)
    ensures Unwinding(r, ex.(defers := r)) <==> ex.performed == []
  {}

  // ----- the invariant holds at the start and every step keeps it -----

  lemma {:induction false} InitialOutput()
    ensures var s := Initial();
      LockInv(s) && StreamerInv(s) && WaitGroupInv(s) && LogInv(s) && AttemptInv(s) && WaitedInv(s)
  {}

  lemma {:induction false} InitialHandler(cfg: Config)
    ensures var s := Initial();
      DeferInv(cfg, s) && ShapeInv(cfg, s) && ActiveInv(s) && CoverInv(s) && SecretInv(cfg, s)
  {}

  lemma {:induction false} InitialInv(cfg: Config)
    ensures Inv(cfg, Initial())
  {
    InitialOutput();
    InitialHandler(cfg);
  }

  /** What the steps outside the watch loop leave alone. */
  ghost predicate Quiet(s: State, s': State) {
    && s'.logs == s.logs && s'.view == s.view && s'.waited == s.waited
    && s'.out.lock == s.out.lock && s'.out.sent == s.out.sent && s.out.send.Idle?
    && (s'.out.send.Idle? || (s'.out.send.Blocked? && s'.out.send.message.origin == Handler))
    && (s'.pc.Returned? ==> s'.out.send.Idle?)
    && !Handling(s) && !Handling(s')
  }

  lemma {:induction false} CallIsQuiet(cfg: Config, s: State, c: CallStep)
    requires CallEnabled(s, c)
    ensures Quiet(s, NextCall(cfg, s, c))
  {}

  lemma {:induction false} QuietKeeps(s: State, s': State)
    requires LockInv(s) && StreamerInv(s) && WaitGroupInv(s) && LogInv(s) && ActiveInv(s) && CoverInv(s)
    requires Quiet(s, s')
    ensures LockInv(s') && StreamerInv(s') && WaitGroupInv(s') && LogInv(s') && ActiveInv(s') && CoverInv(s')
  {}

  lemma {:induction false} QuietKeepsAttempts(s: State, s': State)
    requires AttemptInv(s) && Quiet(s, s')
    ensures AttemptInv(s')
  {
    forall u: nat, j: nat ensures Logged(s'.out.sent, s'.out.send, s'.view.failed, u, j) {
      assert Logged(s.out.sent, s.out.send, s.view.failed, u, j);
    }
  }

  predicate AboutSecret(c: CallStep) { c.SecretCreated? || c.SecretRead? || c.SecretUpdated? || c.SecretDeleted? }

  lemma {:induction false} ShapeSecret(cfg: Config, s: State, c: CallStep)
    requires ShapeInv(cfg, s) && CallEnabled(s, c) && AboutSecret(c)
    ensures ShapeInv(cfg, NextCall(cfg, s, c))
  {}

  lemma {:induction false} ShapeBegin(cfg: Config, s: State)
    requires ShapeInv(cfg, s) && s.pc.Entry?
    ensures ShapeInv(cfg, NextBegin(cfg, s))
  {}

  lemma {:induction false} ShapeDefined(cfg: Config, s: State)
    requires ShapeInv(cfg, s) && s.pc.Define?
    ensures ShapeInv(cfg, NextDefined(cfg, s))
  {}

  lemma {:induction false} ShapeWatch(cfg: Config, s: State, ok: bool)
    requires ShapeInv(cfg, s) && CallEnabled(s, WatchStarted(ok))
    ensures ShapeInv(cfg, NextCall(cfg, s, WatchStarted(ok)))
  {}

  lemma {:induction false} ShapePod(cfg: Config, s: State, c: CallStep)
    requires ShapeInv(cfg, s) && CallEnabled(s, c) && c.PodCreated?
    ensures ShapeInv(cfg, NextPodCreated(cfg, s, c.applied, c.uid))
  {}

  lemma {:induction false} ShapeCall(cfg: Config, s: State, c: CallStep)
    requires ShapeInv(cfg, s) && CallEnabled(s, c)
    ensures ShapeInv(cfg, NextCall(cfg, s, c))
  {
    match c
    case Begin => ShapeBegin(cfg, s);
    case Defined => ShapeDefined(cfg, s);
    case WatchStarted(ok) => ShapeWatch(cfg, s, ok);
    case PodCreated(_, _) => ShapePod(cfg, s, c);
    case _ => ShapeSecret(cfg, s, c);
  }

  lemma {:induction false} ShapeLoop(cfg: Config, s: State, l: LoopStep)
    requires ShapeInv(cfg, s) && LoopEnabled(s, l)
    ensures ShapeInv(cfg, NextLoop(cfg, s, l))
  {}

  lemma {:induction false} ShapeStream(cfg: Config, s: State, i: StreamStep)
    requires ShapeInv(cfg, s) && StreamEnabled(s, i)
    ensures ShapeInv(cfg, NextStream(s, i))
  {}

  lemma {:induction false} LockLoop(cfg: Config, s: State, l: LoopStep)
    requires LockInv(s) && LoopEnabled(s, l)
    ensures LockInv(NextLoop(cfg, s, l))
  {}

  lemma {:induction false} LockStream(cfg: Config, s: State, i: StreamStep)
    requires LockInv(s) && StreamEnabled(s, i)
    ensures LockInv(NextStream(s, i))
  {}

  lemma {:induction false} StreamerLoop(cfg: Config, s: State, l: LoopStep)
    requires StreamerInv(s) && LoopEnabled(s, l)
    ensures StreamerInv(NextLoop(cfg, s, l))
  {}

  lemma {:induction false} StreamerStream(cfg: Config, s: State, i: StreamStep)
    requires StreamerInv(s) && StreamEnabled(s, i)
    ensures StreamerInv(NextStream(s, i))
  {}

  lemma {:induction false} WaitGroupLoop(cfg: Config, s: State, l: LoopStep)
    requires WaitGroupInv(s) && LoopEnabled(s, l)
    ensures WaitGroupInv(NextLoop(cfg, s, l))
  {}

  lemma {:induction false} WaitGroupStream(cfg: Config, s: State, i: StreamStep)
    requires WaitGroupInv(s) && StreamEnabled(s, i)
    ensures WaitGroupInv(NextStream(s, i))
  {
    if !(i.HandlerLocks? || i.HandlerSends?) {
      LiveUpdate(s.logs.streamers, i.id, NextStream(s, i).logs.streamers[i.id]);
    }
  }

  lemma {:induction false} WaitedCall(cfg: Config, s: State, c: CallStep)
    requires WaitedInv(s) && ShapeInv(cfg, s) && CallEnabled(s, c)
    ensures WaitedInv(NextCall(cfg, s, c))
  {}

  lemma {:induction false} WaitedDeferred(s: State, stage: Stage, applied: bool, ok: bool, error: string)
    requires WaitedInv(s) && s.pc.Unwind?
    ensures WaitedInv(NextDeferred(s, stage, applied, ok, error))
  {}

  lemma {:induction false} WaitedInside(cfg: Config, s: State, l: LoopStep)
    requires WaitedInv(s) && LoopEnabled(s, l) && !l.WaitReturned? && !l.DeferredCall?
    ensures WaitedInv(NextLoop(cfg, s, l))
  {
    assert !s.waited;
  }

  lemma {:induction false} WaitedLoop(cfg: Config, s: State, l: LoopStep)
    requires WaitedInv(s) && WaitGroupInv(s) && LoopEnabled(s, l)
    ensures WaitedInv(NextLoop(cfg, s, l))
  {
    if l.DeferredCall? {
      WaitedDeferred(s, cfg.stage, l.applied, l.ok, l.error);
    } else if !l.WaitReturned? {
      WaitedInside(cfg, s, l);
    }
  }

  lemma {:induction false} WaitedStream(cfg: Config, s: State, i: StreamStep)
    requires WaitedInv(s) && WaitGroupInv(s) && ShapeInv(cfg, s) && StreamerInv(s) && StreamEnabled(s, i)
    ensures WaitedInv(NextStream(s, i))
  {
    if !(i.HandlerLocks? || i.HandlerSends?) {
      LiveUpdate(s.logs.streamers, i.id, NextStream(s, i).logs.streamers[i.id]);
      if s.waited { LiveZero(s.logs.streamers, i.id); }
    }
  }

  lemma {:induction false} LogLoop(cfg: Config, s: State, l: LoopStep)
    requires LogInv(s) && StreamerInv(s) && LoopEnabled(s, l)
    ensures LogInv(NextLoop(cfg, s, l))
  {
    var s' := NextLoop(cfg, s, l);
    assert s'.out.sent == s.out.sent;
    if !l.StreamerStarted? { assert s'.logs.streamers == s.logs.streamers; }
  }

  lemma {:induction false} LogHandlerSent(s: State, accepted: bool)
    requires LogInv(s) && StreamEnabled(s, HandlerSends(accepted))
    ensures LogInv(NextStream(s, HandlerSends(accepted)))
  {
    var s' := NextStream(s, HandlerSends(accepted));
    forall k: nat ensures Project(s'.out.sent, Stream(k)) == Project(s.out.sent, Stream(k)) {
      ProjectSnoc(s.out.sent, Sent(s.out.send.message, accepted), Stream(k));
    }
  }

  lemma {:induction false} TakeOne(script: seq<Message>, pos: nat)
    requires pos < |script|
    ensures script[..pos + 1] == script[..pos] + [script[pos]]
  {}

  lemma {:induction false} LogStreamerSent(s: State, id: nat, accepted: bool)
    requires LogInv(s) && StreamerInv(s) && StreamEnabled(s, StreamerSends(id, accepted))
    ensures LogInv(NextStream(s, StreamerSends(id, accepted)))
  {
    var t := s.logs.streamers[id];
    var script := Script(id, t.name, t.log);
    TakeOne(script, t.pos);
    var s' := NextStream(s, StreamerSends(id, accepted));
    forall k: nat
      ensures Project(s'.out.sent, Stream(k))
        == Project(s.out.sent, Stream(k)) + (if k == id then [script[t.pos]] else [])
    {
      ProjectSnoc(s.out.sent, Sent(t.send.message, accepted), Stream(k));
    }
  }

  lemma {:induction false} LogStream(cfg: Config, s: State, i: StreamStep)
    requires LogInv(s) && StreamerInv(s) && StreamEnabled(s, i)
    ensures LogInv(NextStream(s, i))
  {
    if i.HandlerSends? {
      LogHandlerSent(s, i.accepted);
    } else if i.StreamerSends? {
      LogStreamerSent(s, i.id, i.accepted);
    }
  }

  /** Only the watch and the pod are registered outside the loop. */
  lemma {:induction false} CallKeepsDefers(cfg: Config, s: State, c: CallStep)
    requires CallEnabled(s, c) && !c.WatchStarted? && !c.PodCreated?
    ensures NextCall(cfg, s, c).ex == s.ex && NextCall(cfg, s, c).logs == s.logs
    ensures Opened(NextCall(cfg, s, c)) == Opened(s)
    ensures Leaving(NextCall(cfg, s, c)) || !Leaving(s)
    ensures var pc := NextCall(cfg, s, c).pc;
      pc.FinalGet? || pc.FinalDelete? || pc.Returned? ==>
        s.pc.FinalGet? || s.pc.FinalDelete? || s.pc.Entry? || s.pc.CreateSecret? || s.pc.Define?
  {}

  lemma {:induction false} DeferRegister(cfg: Config, s: State, c: CallStep)
    requires DeferInv(cfg, s) && ShapeInv(cfg, s) && CallEnabled(s, c) && (c.WatchStarted? || c.PodCreated?)
    ensures DeferInv(cfg, NextCall(cfg, s, c))
  {
    var s' := NextCall(cfg, s, c);
    UnwindingFull(AllDeferred(cfg, s), s.ex);
    UnwindingFull(AllDeferred(cfg, s'), s'.ex);
    assert Opened(s') == 0;
    assert s'.ex.defers == AllDeferred(cfg, s');
  }

  lemma {:induction false} DeferCall(cfg: Config, s: State, c: CallStep)
    requires DeferInv(cfg, s) && ShapeInv(cfg, s) && CallEnabled(s, c)
    ensures DeferInv(cfg, NextCall(cfg, s, c))
  {
    if c.WatchStarted? || c.PodCreated? {
      DeferRegister(cfg, s, c);
    } else {
      CallKeepsDefers(cfg, s, c);
    }
  }

  /** A deferred call is taken off the stack and performed. */
  lemma {:induction false} DeferredPops(s: State, stage: Stage, applied: bool, ok: bool, error: string)
    requires s.ex.defers != [] && s.pc.Unwind?
    ensures var s' := NextDeferred(s, stage, applied, ok, error);
      Popped(s.ex, s'.ex) && s'.logs == s.logs && s'.pc.Unwind?
  {}

  predicate Popped(ex: Executor, ex': Executor)
    requires ex.defers != []
  {
    var m := |ex.defers| - 1;
    && ex'.watching == ex.watching && ex'.podUid == ex.podUid
    && ex'.defers == ex.defers[..m] && ex'.performed == ex.performed + [ex.defers[m]]
    && (ex'.deleted ==> ex.deleted || ex.defers[m] == DeletePod)
  }

  lemma {:induction false} PoppedKeeps(cfg: Config, s: State, s': State)
    requires DeferInv(cfg, s) && s.pc.Unwind? && s'.pc.Unwind? && s'.logs == s.logs && s.ex.defers != []
    requires Popped(s.ex, s'.ex)
    ensures DeferInv(cfg, s')
  {
    UnwindingPop(AllDeferred(cfg, s), s.ex);
    assert AllDeferred(cfg, s') == AllDeferred(cfg, s);
  }

  lemma {:induction false} DeferUnwind(cfg: Config, s: State, l: LoopStep)
    requires DeferInv(cfg, s) && LoopEnabled(s, l) && l.DeferredCall?
    ensures DeferInv(cfg, NextLoop(cfg, s, l))
  {
    if s.ex.defers != [] {
      DeferredPops(s, cfg.stage, l.applied, l.ok, l.error);
      PoppedKeeps(cfg, s, NextLoop(cfg, s, l));
    } else {
      assert AllDeferred(cfg, NextLoop(cfg, s, l)) == AllDeferred(cfg, s);
    }
  }

  lemma {:induction false} DeferClose(cfg: Config, s: State, l: LoopStep)
    requires DeferInv(cfg, s) && ShapeInv(cfg, s) && LoopEnabled(s, l) && l.LogsRequested?
    ensures DeferInv(cfg, NextLoop(cfg, s, l))
  {
    if l.log.Some? {
      var s' := NextLoop(cfg, s, l);
      UnwindingFull(AllDeferred(cfg, s), s.ex);
      UnwindingFull(AllDeferred(cfg, s'), s'.ex);
      ClosesSnoc(Opened(s));
      assert s'.ex.defers == AllDeferred(cfg, s');
    }
  }

  lemma {:induction false} DeferLoop(cfg: Config, s: State, l: LoopStep)
    requires DeferInv(cfg, s) && ShapeInv(cfg, s) && LoopEnabled(s, l)
    ensures DeferInv(cfg, NextLoop(cfg, s, l))
  {
    if l.DeferredCall? {
      DeferUnwind(cfg, s, l);
    } else if l.LogsRequested? {
      DeferClose(cfg, s, l);
    } else {
      var s' := NextLoop(cfg, s, l);
      assert AllDeferred(cfg, s') == AllDeferred(cfg, s) && s'.ex == s.ex;
    }
  }

  lemma {:induction false} DeferStream(cfg: Config, s: State, i: StreamStep)
    requires DeferInv(cfg, s) && ShapeInv(cfg, s) && StreamEnabled(s, i)
    ensures DeferInv(cfg, NextStream(s, i))
  {}

  lemma {:induction false} InverseMore(active: map<string, nat>, names: seq<string>, n: string)
    requires Inverse(active, names) && n !in active
    ensures Inverse(active[n := |names|], names + [n])
  {}

  /** Only opening a stream changes the names and the map. */
  lemma {:induction false} StreamNamesKept(cfg: Config, s: State, l: LoopStep)
    requires ActiveInv(s) && ShapeInv(cfg, s) && LoopEnabled(s, l) && !(l.LogsRequested? && l.log.Some?)
    ensures var s' := NextLoop(cfg, s, l);
      && s'.logs.active == s.logs.active
      && (s'.pc.WaitAdd? || s'.pc.Spawn? ==> s'.pc.index < |s'.view.current.Statuses()|)
      && Names(s') == Names(s)
  {}

  lemma {:induction false} ActiveLoop(cfg: Config, s: State, l: LoopStep)
    requires ActiveInv(s) && ShapeInv(cfg, s) && LoopEnabled(s, l)
    ensures ActiveInv(NextLoop(cfg, s, l))
  {
    if l.LogsRequested? && l.log.Some? {
      InverseMore(s.logs.active, Names(s), s.view.current.Statuses()[s.pc.index].name);
      assert Names(NextLoop(cfg, s, l)) == Names(s) + [s.view.current.Statuses()[s.pc.index].name];
    } else {
      StreamNamesKept(cfg, s, l);
    }
  }

  lemma {:induction false} ActiveStream(cfg: Config, s: State, i: StreamStep)
    requires ActiveInv(s) && ShapeInv(cfg, s) && StreamEnabled(s, i)
    ensures ActiveInv(NextStream(s, i))
  {
    assert Names(NextStream(s, i)) == Names(s);
  }

  lemma {:induction false} CoverLoop(cfg: Config, s: State, l: LoopStep)
    requires CoverInv(s) && ActiveInv(s) && ShapeInv(cfg, s) && LoopEnabled(s, l)
    ensures CoverInv(NextLoop(cfg, s, l))
  {
    var s' := NextLoop(cfg, s, l);
    forall j: nat | j < |s'.view.current.Statuses()| && (Handling(s') ==> j < s'.pc.index)
      ensures Covered(s'.view, s'.logs.active, j)
    {
      if l.StreamerStarted? && j == s.pc.index { assert Names(s)[|s.logs.streamers|] in s.logs.active; }
      if !l.EventSeen? && (Handling(s) ==> j < s.pc.index) { assert Covered(s.view, s.logs.active, j); }
    }
  }

  lemma {:induction false} CoverStream(cfg: Config, s: State, i: StreamStep)
    requires CoverInv(s) && ActiveInv(s) && ShapeInv(cfg, s) && StreamEnabled(s, i)
    ensures CoverInv(NextStream(s, i))
  {}

  lemma {:induction false} AttemptFails(cfg: Config, s: State, error: string)
    requires AttemptInv(s) && ShapeInv(cfg, s) && LoopEnabled(s, LogsRequested(None, error))
    ensures AttemptInv(NextLogs(cfg, s, None, error))
  {
    var s' := NextLogs(cfg, s, None, error);
    forall u: nat, j: nat ensures Logged(s'.out.sent, s'.out.send, s'.view.failed, u, j) {
      assert Logged(s.out.sent, s.out.send, s.view.failed, u, j);
    }
  }

  lemma {:induction false} AttemptLoop(cfg: Config, s: State, l: LoopStep)
    requires AttemptInv(s) && ShapeInv(cfg, s) && LoopEnabled(s, l)
    ensures AttemptInv(NextLoop(cfg, s, l))
  {
    if l.LogsRequested? && l.log.None? {
      AttemptFails(cfg, s, l.error);
    } else {
      AttemptQuiet(cfg, s, l);
    }
  }

  lemma {:induction false} AttemptQuiet(cfg: Config, s: State, l: LoopStep)
    requires AttemptInv(s) && ShapeInv(cfg, s) && LoopEnabled(s, l) && !(l.LogsRequested? && l.log.None?)
    ensures AttemptInv(NextLoop(cfg, s, l))
  {
    var s' := NextLoop(cfg, s, l);
    assert s'.out.sent == s.out.sent && s'.view.failed == s.view.failed;
    forall u: nat, j: nat ensures Logged(s'.out.sent, s'.out.send, s'.view.failed, u, j) {
      assert Logged(s.out.sent, s.out.send, s.view.failed, u, j);
    }
  }

  lemma {:induction false} AttemptStream(cfg: Config, s: State, i: StreamStep)
    requires AttemptInv(s) && StreamerInv(s) && StreamEnabled(s, i)
    ensures AttemptInv(NextStream(s, i))
  {
    var s' := NextStream(s, i);
    forall u: nat, j: nat ensures Logged(s'.out.sent, s'.out.send, s'.view.failed, u, j) {
      assert Logged(s.out.sent, s.out.send, s.view.failed, u, j);
      if i.HandlerSends? || i.StreamerSends? {
        ProjectSnoc(s.out.sent, s'.out.sent[|s.out.sent|], Attempt(u, j));
      }
    }
  }

  lemma {:induction false} SecretCall(cfg: Config, s: State, c: CallStep)
    requires SecretInv(cfg, s) && ShapeInv(cfg, s) && CallEnabled(s, c)
    ensures SecretInv(cfg, NextCall(cfg, s, c))
  {}

  lemma {:induction false} SecretLoop(cfg: Config, s: State, l: LoopStep)
    requires SecretInv(cfg, s) && ShapeInv(cfg, s) && LoopEnabled(s, l)
    ensures SecretInv(cfg, NextLoop(cfg, s, l))
  {}

  lemma {:induction false} SecretStream(cfg: Config, s: State, i: StreamStep)
    requires SecretInv(cfg, s) && ShapeInv(cfg, s) && StreamEnabled(s, i)
    ensures SecretInv(cfg, NextStream(s, i))
  {}

  lemma {:induction false} CallKeepsInv(cfg: Config, s: State, c: CallStep)
    requires Inv(cfg, s) && CallEnabled(s, c)
    ensures Inv(cfg, NextCall(cfg, s, c))
  {
    CallIsQuiet(cfg, s, c);
    QuietKeeps(s, NextCall(cfg, s, c));
    QuietKeepsAttempts(s, NextCall(cfg, s, c));
    ShapeCall(cfg, s, c); WaitedCall(cfg, s, c); DeferCall(cfg, s, c); SecretCall(cfg, s, c);
  }

  lemma {:induction false} LoopKeepsInv(cfg: Config, s: State, l: LoopStep)
    requires Inv(cfg, s) && LoopEnabled(s, l)
    ensures Inv(cfg, NextLoop(cfg, s, l))
  {
    ShapeLoop(cfg, s, l); LockLoop(cfg, s, l); StreamerLoop(cfg, s, l); WaitGroupLoop(cfg, s, l);
    WaitedLoop(cfg, s, l); LogLoop(cfg, s, l); DeferLoop(cfg, s, l); ActiveLoop(cfg, s, l);
    CoverLoop(cfg, s, l); AttemptLoop(cfg, s, l); SecretLoop(cfg, s, l);
  }

  lemma {:induction false} StreamKeepsInv(cfg: Config, s: State, i: StreamStep)
    requires Inv(cfg, s) && StreamEnabled(s, i)
    ensures Inv(cfg, NextStream(s, i))
  {
    ShapeStream(cfg, s, i); LockStream(cfg, s, i); StreamerStream(cfg, s, i); WaitGroupStream(cfg, s, i);
    WaitedStream(cfg, s, i); LogStream(cfg, s, i); DeferStream(cfg, s, i); ActiveStream(cfg, s, i);
    CoverStream(cfg, s, i); AttemptStream(cfg, s, i); SecretStream(cfg, s, i);
  }

  /** Every step of every goroutine keeps the invariant. */
  lemma {:induction false} StepKeepsInv(cfg: Config, s: State, a: Action)
    requires Inv(cfg, s) && Enabled(s, a)
    ensures Inv(cfg, Next(cfg, s, a))
  {
    match a
    case Call(c) => CallKeepsInv(cfg, s, c);
    case Loop(l) => LoopKeepsInv(cfg, s, l);
    case Output(i) => StreamKeepsInv(cfg, s, i);
  }
}
