/** What holds over whole runs of one Build or Run call, under every interleaving. */
module PodSessionRuns {
  import opened Common
  import opened PodSession
  import opened PodSessionInvariant

  /** A run: the states passed through and the steps between them, by any goroutine in any order. */
  ghost predicate IsRun(cfg: Config, states: seq<State>, steps: seq<Action>) {
    && |states| == |steps| + 1
    && states[0] == Initial()
    && (forall i: nat | i < |steps| :: Enabled(states[i], steps[i]) && states[i + 1] == Next(cfg, states[i], steps[i]))
  }

  lemma {:induction false} RunKeepsInv(cfg: Config, states: seq<State>, steps: seq<Action>, i: nat)
    requires IsRun(cfg, states, steps) && i < |states|
    ensures Inv(cfg, states[i])
  {
    if i == 0 {
      InitialInv(cfg);
    } else {
      RunKeepsInv(cfg, states, steps, i - 1);
      StepKeepsInv(cfg, states[i - 1], steps[i - 1]);
    }
  }

  /** executePod reported the phase of the pod: success, or "pod status is failed". */
  predicate PhaseReported(s: State) {
    s.pc.Returned? && s.ex.watching && (s.result == Success || s.result == Error(PodFailed))
  }

  /** The script of stream k, empty when there is no such stream. */
  function WholeScript(s: State, k: nat): seq<Message> {
    if k < |s.logs.streamers| then Script(k, s.logs.streamers[k].name, s.logs.streamers[k].log) else []
  }

  /** Goroutine g is inside the Send of the response stream; None is the handler. */
  predicate InSend(s: State, g: Option<nat>) {
    match g
    case None => s.out.send.Sending?
    case Some(k) => k < |s.logs.streamers| && s.logs.streamers[k].send.Sending?
  }

  /** The counter is opened streams minus finished ones, so it never goes negative. */
  lemma {:induction false} WaitGroupCounts(cfg: Config, states: seq<State>, steps: seq<Action>, i: nat)
    requires IsRun(cfg, states, steps) && i < |states|
    ensures var s := states[i];
      s.logs.wg == Live(s.logs.streamers) + (if s.pc.Spawn? then 1 else 0) && s.logs.wg >= 0
  {
    RunKeepsInv(cfg, states, steps, i);
  }

  /** No two Sends overlap. */
  lemma {:induction false} SendsExclusive(
    cfg: Config, states: seq<State>, steps: seq<Action>, i: nat, g: Option<nat>, h: Option<nat>)
    requires IsRun(cfg, states, steps) && i < |states|
    requires InSend(states[i], g) && InSend(states[i], h)
    ensures g == h
  {
    RunKeepsInv(cfg, states, steps, i);
  }

  /**
   * Nothing is lost, duplicated or reordered: when the phase of the pod is reported, what each
   * opened stream handed to Send is exactly its whole script, in order, and no other stream sent anything.
   */
  lemma {:induction false} LogsComplete(cfg: Config, states: seq<State>, steps: seq<Action>, i: nat)
    requires IsRun(cfg, states, steps) && i < |states| && PhaseReported(states[i])
    ensures forall k: nat | k < |states[i].logs.streamers| :: states[i].logs.streamers[k].finished
    ensures forall k: nat :: Project(states[i].out.sent, Stream(k)) == WholeScript(states[i], k)
  {
    RunKeepsInv(cfg, states, steps, i);
    var s := states[i];
    forall k: nat | k < |s.logs.streamers|
      ensures s.logs.streamers[k].finished
      ensures Project(s.out.sent, Stream(k)) == Script(k, s.logs.streamers[k].name, s.logs.streamers[k].log)
    {
      LiveZero(s.logs.streamers, k);
      var script := Script(k, s.logs.streamers[k].name, s.logs.streamers[k].log);
      assert script[..|script|] == script;
    }
  }

  lemma {:induction false} Finished(cfg: Config, s: State, a: Action)
    requires Inv(cfg, s) && PhaseReported(s)
    ensures !Enabled(s, a)
  {
    forall k: nat | k < |s.logs.streamers| ensures s.logs.streamers[k].finished {
      LiveZero(s.logs.streamers, k);
    }
  }

  /** The barrier leaves nothing behind: once the phase is reported, no goroutine of the call takes another step. */
  lemma {:induction false} NothingAfterReport(cfg: Config, states: seq<State>, steps: seq<Action>, i: nat)
    requires IsRun(cfg, states, steps) && i < |states| && PhaseReported(states[i])
    ensures i == |steps|
  {
    RunKeepsInv(cfg, states, steps, i);
    if i < |steps| { Finished(cfg, states[i], steps[i]); }
  }

  /** At any time, what a stream handed to Send is a prefix of its script: order is kept on every exit. */
  lemma {:induction false} LogsInOrder(cfg: Config, states: seq<State>, steps: seq<Action>, i: nat, k: nat)
    requires IsRun(cfg, states, steps) && i < |states| && k < |states[i].logs.streamers|
    ensures var t := states[i].logs.streamers[k];
      Project(states[i].out.sent, Stream(k)) <= Script(k, t.name, t.log)
  {
    RunKeepsInv(cfg, states, steps, i);
  }

  lemma {:induction false} ReversedConcat<T>(s: seq<T>, t: seq<T>)
    ensures Reversed(s + t) == Reversed(t) + Reversed(s)
  {
    if s == [] {
      assert s + t == t;
    } else {
      assert (s + t)[1..] == s[1..] + t;
      ReversedConcat(s[1..], t);
    }
  }

  /** The streams in the order they are closed. */
  function NewestFirst(n: nat): seq<Deferred> {
    seq(n, i requires 0 <= i < n => CloseStream(n - 1 - i))
  }

  lemma {:induction false} ReversedCloses(n: nat)
    ensures Reversed(Closes(n)) == NewestFirst(n)
  {
    if n > 0 {
      ReversedCloses(n - 1);
      ClosesSnoc(n - 1);
      ReversedConcat(Closes(n - 1), [CloseStream(n - 1)]);
      assert NewestFirst(n) == [CloseStream(n - 1)] + NewestFirst(n - 1);
    }
  }

  lemma {:induction false} ReversedRegistered(watching: bool, deletes: bool, n: nat)
    ensures Reversed(Registered(watching, deletes, n)) ==
      NewestFirst(n) + (if deletes then [DeletePod] else []) + (if watching then [StopWatcher] else [])
  {
    var w, d := if watching then [StopWatcher] else [], if deletes then [DeletePod] else [];
    ReversedConcat(w + d, Closes(n));
    ReversedConcat(w, d);
    ReversedCloses(n);
    assert Reversed(w) == w && Reversed(d) == d;
  }

  /**
   * What every exit of executePod releases, in order: each opened stream once, newest first, then the
   * pod if it is a build pod whose creation was confirmed, then the watcher. A run pod is never deleted.
   */
  lemma {:induction false} EverythingReleased(cfg: Config, states: seq<State>, steps: seq<Action>, i: nat)
    requires IsRun(cfg, states, steps) && i < |states| && states[i].pc.Returned?
    ensures var s := states[i]; var n := |s.logs.streamers|;
      s.ex.performed ==
        NewestFirst(n)
        + (if cfg.stage.BuildStage? && s.ex.podUid.Some? then [DeletePod] else [])
        + (if s.ex.watching then [StopWatcher] else [])
  {
    RunKeepsInv(cfg, states, steps, i);
    var s := states[i];
    ReversedRegistered(s.ex.watching, cfg.stage.BuildStage? && s.ex.podUid.Some?, Opened(s));
    assert AllDeferred(cfg, s)[0..] == AllDeferred(cfg, s);
  }

  /** Nothing is released twice or too early: the deferred calls run only once executePod is returning. */
  lemma {:induction false} NothingReleasedEarly(cfg: Config, states: seq<State>, steps: seq<Action>, i: nat)
    requires IsRun(cfg, states, steps) && i < |states| && states[i].ex.performed != []
    ensures Leaving(states[i])
  {
    RunKeepsInv(cfg, states, steps, i);
    assert AllDeferred(cfg, states[i])[|AllDeferred(cfg, states[i])|..] == [];
  }

  /** The pod is created with the watch already in place, and a run pod is watched only with its secret owned. */
  lemma {:induction false} WatchedBeforeCreated(cfg: Config, states: seq<State>, steps: seq<Action>, i: nat)
    requires IsRun(cfg, states, steps) && i < |states|
    ensures states[i].custody.podMade ==> states[i].ex.watching
    ensures cfg.stage.RunStage? && states[i].pc.Select? ==> states[i].custody.refStored
  {
    RunKeepsInv(cfg, states, steps, i);
  }

  /** A container never has two streams. */
  lemma {:induction false} OneStreamEach(cfg: Config, states: seq<State>, steps: seq<Action>, i: nat, j: nat, k: nat)
    requires IsRun(cfg, states, steps) && i < |states|
    requires j < |states[i].logs.streamers| && k < |states[i].logs.streamers|
    requires states[i].logs.streamers[j].name == states[i].logs.streamers[k].name
    ensures j == k
  {
    RunKeepsInv(cfg, states, steps, i);
    var names := Names(states[i]);
    assert names[j] == names[k];
  }

  ghost predicate StreamsKept(s: State, t: State) {
    forall n | n in s.logs.active :: n in t.logs.active && t.logs.active[n] == s.logs.active[n]
  }

  lemma {:induction false} StepKeepsStreams(cfg: Config, s: State, a: Action)
    requires Enabled(s, a)
    ensures StreamsKept(s, Next(cfg, s, a))
  {}

  /** Once a container has a stream it keeps that stream. */
  lemma {:induction false} StreamsOnlyGrow(cfg: Config, states: seq<State>, steps: seq<Action>, i: nat, j: nat)
    requires IsRun(cfg, states, steps) && i <= j < |states|
    ensures StreamsKept(states[i], states[j])
  {
    if i < j {
      StreamsOnlyGrow(cfg, states, steps, i, j - 1);
      StepKeepsStreams(cfg, states[j - 1], steps[j - 1]);
    }
  }
}
