/** That a Build or Run call never gets stuck, and that once the phase of its pod is known it soon returns. */
module PodSessionLiveness {
  import opened Common
  import opened PodSession
  import opened PodSessionInvariant
  import opened PodSessionRuns

  /** The handler has returned and every log goroutine has finished. */
  ghost predicate Over(s: State) {
    s.pc.Returned? && forall k: nat | k < |s.logs.streamers| :: s.logs.streamers[k].finished
  }

  // ----- no deadlock -----

  /** What a handler that is not sending does next, if the API answers somehow; it only ever waits at the barrier. */
  function HandlerStep(s: State): Action {
    match s.pc
    case Entry => Call(Begin)
    case CreateSecret => Call(SecretCreated(false, false))
    case Define => Call(Defined)
    case Watch => Call(WatchStarted(false))
    case CreatePod => Call(PodCreated(false, None))
    case GetSecret => Call(SecretRead(None, false, ""))
    case UpdateSecret => Call(SecretUpdated(false, false, ""))
    case Select => Loop(CancelSeen)
    case Scan(i) =>
      if i >= |s.view.current.Statuses()| then Loop(EventDone)
      else if s.view.current.Statuses()[i].Started() && s.view.current.Statuses()[i].name !in s.logs.active
      then Loop(LogsRequested(None, ""))
      else Loop(StatusSkipped)
    case WaitAdd(_, _) => Loop(WaitGroupAdded)
    case Spawn(_, _) => Loop(StreamerStarted)
    case Await => Loop(WaitReturned)
    case Unwind => Loop(DeferredCall(false, false, ""))
    case FinalGet => Call(SecretRead(None, false, ""))
    case FinalDelete => Call(SecretDeleted(false, false))
    case Returned => Loop(CancelSeen)
  }

  lemma {:induction false} HandlerCanStep(cfg: Config, s: State)
    requires ShapeInv(cfg, s) && s.out.send.Idle? && !s.pc.Returned? && (s.pc.Await? ==> s.logs.wg == 0)
    ensures Enabled(s, HandlerStep(s))
  {}

  /** A goroutine that is not finished and not waiting for the mutex can go on. */
  function StreamerStep(s: State, k: nat): Action
    requires k < |s.logs.streamers|
  {
    var t := s.logs.streamers[k];
    match t.send
    case Blocked(_) => Output(StreamerLocks(k))
    case Sending(_) => Output(StreamerSends(k, true))
    case Idle => if t.pos < |Script(k, t.name, t.log)| then Output(StreamerLogs(k)) else Output(StreamerEnds(k))
  }

  lemma {:induction false} StreamerCanStep(s: State, k: nat)
    requires StreamerInv(s) && k < |s.logs.streamers| && !s.logs.streamers[k].finished
    requires s.logs.streamers[k].send.Blocked? ==> s.out.lock.Free?
    ensures Enabled(s, StreamerStep(s, k))
  {}

  lemma {:induction false} AllFinished(ts: seq<Streamer>)
    requires forall k: nat | k < |ts| :: ts[k].finished
    ensures Live(ts) == 0
  {
    if ts != [] { AllFinished(ts[..|ts| - 1]); }
  }

  /**
   * Mutex, barrier and watch loop cannot block one another: in every state that can be reached and is not over,
   * some goroutine can take a step.
   */
  lemma {:induction false} NoDeadlock(cfg: Config, s: State) returns (a: Action)
    requires Inv(cfg, s) && !Over(s)
    ensures Enabled(s, a)
  {
    match s.out.lock
    case HandlerHolds => a := Output(HandlerSends(true));
    case StreamHolds(k) =>
      StreamerCanStep(s, k);
      a := StreamerStep(s, k);
    case Free =>
      if s.out.send.Blocked? {
        a := Output(HandlerLocks);
      } else if k: nat :| k < |s.logs.streamers| && !s.logs.streamers[k].finished {
        StreamerCanStep(s, k);
        a := StreamerStep(s, k);
      } else {
        AllFinished(s.logs.streamers);
        HandlerCanStep(cfg, s);
        a := HandlerStep(s);
      }
  }

  /** So a run that cannot go on is over. */
  lemma {:induction false} NeverStuck(cfg: Config, states: seq<State>, steps: seq<Action>, i: nat) returns (a: Action)
    requires IsRun(cfg, states, steps) && i < |states| && !Over(states[i])
    ensures Enabled(states[i], a)
  {
    RunKeepsInv(cfg, states, steps, i);
    a := NoDeadlock(cfg, states[i]);
  }

  // ----- a bound on what is left -----

  /** Steps that a pending message still takes. */
  function SendLeft(send: SendState): nat {
    match send
    case Idle => 0
    case Blocked(_) => 2
    case Sending(_) => 1
  }

  /** Steps that a log goroutine still takes: three for each message, and one to end. */
  function StreamerLeft(k: nat, t: Streamer): int {
    if t.finished then 0
    else
      var sending := match t.send case Idle => 0 case Blocked(_) => 1 case Sending(_) => 2;
      1 + 3 * (|Script(k, t.name, t.log)| - t.pos) - sending
  }

  function StreamersLeft(ts: seq<Streamer>): int {
    if ts == [] then 0 else StreamersLeft(ts[..|ts| - 1]) + StreamerLeft(|ts| - 1, ts[|ts| - 1])
  }

  /** Steps that the handler still takes once the loop is left: three for each deferred call, and a few around them. */
  function HandlerLeft(s: State): int {
    SendLeft(s.out.send) +
    match s.pc
    case Await => 6 + 3 * |s.ex.defers|
    case Unwind => 5 + 3 * |s.ex.defers|
    case FinalGet => 4
    case FinalDelete => 1
    case _ => 0
  }

  function StepsLeft(s: State): int { HandlerLeft(s) + StreamersLeft(s.logs.streamers) }

  /** The handler waits at the barrier or has left the loop. */
  predicate Closing(s: State) { s.pc.Await? || Leaving(s) }

  lemma {:induction false} LeftUpdate(ts: seq<Streamer>, k: nat, t: Streamer)
    requires k < |ts|
    ensures StreamersLeft(ts[k := t]) == StreamersLeft(ts) - StreamerLeft(k, ts[k]) + StreamerLeft(k, t)
  {
    var us := ts[k := t];
    if k == |ts| - 1 {
      assert us[..|us| - 1] == ts[..|ts| - 1];
    } else {
      LeftUpdate(ts[..|ts| - 1], k, t);
      assert us[..|us| - 1] == ts[..|ts| - 1][k := t];
    }
  }

  lemma {:induction false} LeftNonNegative(s: State, n: nat)
    requires StreamerInv(s) && n <= |s.logs.streamers|
    ensures StreamersLeft(s.logs.streamers[..n]) >= 0
  {
    var ts := s.logs.streamers;
    if n > 0 {
      LeftNonNegative(s, n - 1);
      assert ts[..n][..n - 1] == ts[..n - 1];
      var t := ts[n - 1];
      assert t.pos <= |Script(n - 1, t.name, t.log)|;
    }
  }

  lemma {:induction false} CallCloses(cfg: Config, s: State, c: CallStep)
    requires Closing(s) && CallEnabled(s, c)
    ensures Closing(NextCall(cfg, s, c)) && StepsLeft(NextCall(cfg, s, c)) < StepsLeft(s)
  {}

  lemma {:induction false} LoopCloses(cfg: Config, s: State, l: LoopStep)
    requires Closing(s) && LoopEnabled(s, l)
    ensures Closing(NextLoop(cfg, s, l)) && StepsLeft(NextLoop(cfg, s, l)) < StepsLeft(s)
  {}

  lemma {:induction false} HandlerCloses(s: State, i: StreamStep)
    requires Closing(s) && StreamEnabled(s, i) && (i.HandlerLocks? || i.HandlerSends?)
    ensures Closing(NextStream(s, i)) && StepsLeft(NextStream(s, i)) < StepsLeft(s)
  {}

  lemma {:induction false} StreamerCloses(s: State, i: StreamStep)
    requires Closing(s) && StreamerInv(s) && StreamEnabled(s, i) && !i.HandlerLocks? && !i.HandlerSends?
    ensures Closing(NextStream(s, i)) && StepsLeft(NextStream(s, i)) < StepsLeft(s)
  {
    LeftUpdate(s.logs.streamers, i.id, NextStream(s, i).logs.streamers[i.id]);
  }

  lemma {:induction false} StreamCloses(s: State, i: StreamStep)
    requires Closing(s) && StreamerInv(s) && StreamEnabled(s, i)
    ensures Closing(NextStream(s, i)) && StepsLeft(NextStream(s, i)) < StepsLeft(s)
  {
    if i.HandlerLocks? || i.HandlerSends? { HandlerCloses(s, i); } else { StreamerCloses(s, i); }
  }

  lemma {:induction false} StepCloses(cfg: Config, s: State, a: Action)
    requires Closing(s) && StreamerInv(s) && Enabled(s, a)
    ensures Closing(Next(cfg, s, a)) && StepsLeft(Next(cfg, s, a)) < StepsLeft(s)
  {
    match a
    case Call(c) => CallCloses(cfg, s, c);
    case Loop(l) => LoopCloses(cfg, s, l);
    case Output(o) => StreamCloses(s, o);
  }

  lemma {:induction false} StepsLeftCount(s: State)
    requires StreamerInv(s)
    ensures StepsLeft(s) >= 0
  {
    LeftNonNegative(s, |s.logs.streamers|);
    assert s.logs.streamers[..|s.logs.streamers|] == s.logs.streamers;
  }

  lemma {:induction false} NextCloses(cfg: Config, states: seq<State>, steps: seq<Action>, i: nat)
    requires IsRun(cfg, states, steps) && i < |steps| && Closing(states[i])
    ensures Closing(states[i + 1]) && StepsLeft(states[i + 1]) < StepsLeft(states[i])
  {
    RunKeepsInv(cfg, states, steps, i);
    StepCloses(cfg, states[i], steps[i]);
  }

  ghost predicate Descends(s: State, t: State) {
    Closing(s) ==> Closing(t) && StepsLeft(t) < StepsLeft(s)
  }

  lemma {:induction false} ClosesOn(states: seq<State>, i: nat, j: nat)
    requires i <= j < |states| && Closing(states[i])
    requires forall k: nat | k < |states| - 1 :: Descends(states[k], states[k + 1])
    ensures Closing(states[j]) && StepsLeft(states[j]) <= StepsLeft(states[i]) - (j - i)
    decreases j
  {
    if i < j {
      ClosesOn(states, i, j - 1);
      assert Descends(states[j - 1], states[j - 1 + 1]);
    }
  }

  /**
   * From the moment the handler waits at the barrier, or leaves the loop for any other reason, a call takes no more
   * than this many steps, in any order; and as it cannot get stuck before it is over, it returns.
   */
  lemma {:induction false} CallCompletes(cfg: Config, states: seq<State>, steps: seq<Action>, i: nat, j: nat)
    requires IsRun(cfg, states, steps) && i <= j < |states| && Closing(states[i])
    ensures Closing(states[j]) && j - i <= StepsLeft(states[i])
  {
    forall k: nat | k < |states| - 1 ensures Descends(states[k], states[k + 1]) {
      if Closing(states[k]) { NextCloses(cfg, states, steps, k); }
    }
    ClosesOn(states, i, j);
    RunKeepsInv(cfg, states, steps, j);
    StepsLeftCount(states[j]);
  }
}
