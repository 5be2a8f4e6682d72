/** The sweep at startup: finding this peer's completed pods, deleting them, and what garbage collection makes of it. */
module Sweep {
  import opened Kube

  predicate Completed(pod: Pod) { pod.containers != [] && pod.containers[0] == Terminated("Completed") }

  /** The pods the sweep is after: build pods as well as chaincode pods, as long as the peer's label is on them. */
  function Sweepable(c: Cluster, peerId: string): set<string> {
    set n | n in c.pods && c.pods[n].peerId == peerId && Completed(c.pods[n])
  }

  predicate Distinct(names: seq<string>) { forall i, j | 0 <= i < j < |names| :: names[i] != names[j] }

  function Elements(names: seq<string>): set<string> { set n | n in names }

  function WithoutPods(c: Cluster, names: set<string>): Cluster { c.(pods := c.pods - names) }

  class Handler {
    var cluster: Cluster

    constructor (cluster: Cluster)
      ensures this.cluster == cluster
    {
      this.cluster := cluster;
    }

    /** The pod client's List with a label selector: the matching pods, in any order, unless it fails. */
    method List(peerId: string) returns (ok: bool, names: seq<string>)
      ensures ok ==> Distinct(names)
      ensures ok ==> forall n :: n in names <==> n in cluster.pods && cluster.pods[n].peerId == peerId
    {
      names := [];
      ok := *;
      if !ok { return; }
      var todo := set n | n in cluster.pods && cluster.pods[n].peerId == peerId;
      while todo != {}
        invariant Distinct(names)
        invariant forall n :: (n in names || n in todo) <==> n in cluster.pods && cluster.pods[n].peerId == peerId
        invariant forall n | n in todo :: n !in names
        decreases |todo|
      {
        var n :| n in todo;
        names, todo := names + [n], todo - {n};
      }
    }

    /** The pod client's Delete: it may fail, and a failure may still have deleted the pod. */
    method Delete(name: string) returns (ok: bool)
      modifies this
      ensures cluster == old(cluster) || (name in old(cluster).pods && cluster == WithoutPods(old(cluster), {name}))
      ensures ok ==> name in old(cluster).pods && cluster == WithoutPods(old(cluster), {name})
    {
      var applied := *;
      ok := *;
      if applied && name in cluster.pods { cluster := WithoutPods(cluster, {name}); } else { ok := false; }
    }

    /** ListCompletedExecutionPodsForPeer: each sweepable pod once, or a failure. */
    method ListCompleted(peerId: string) returns (ok: bool, completed: seq<string>)
      ensures if ok then Distinct(completed) && Elements(completed) == Sweepable(cluster, peerId) else completed == []
      ensures ok ==> forall n :: n in completed <==>
                && n in cluster.pods && cluster.pods[n].peerId == peerId
                && |cluster.pods[n].containers| > 0 && cluster.pods[n].containers[0] == Terminated("Completed")
    {
      var names;
      completed := [];
      ok, names := List(peerId);
      if !ok { return; }
      for i := 0 to |names|
        invariant Distinct(completed)
        invariant forall n :: n in completed <==> n in names[..i] && Completed(cluster.pods[n])
      {
        var pod := cluster.pods[names[i]];
        assert names[i] !in names[..i];
        if |pod.containers| != 0 {
          match pod.containers[0] {
            case Terminated(reason) =>
              if reason == "Completed" { completed := completed + [names[i]]; }
            case _ =>
          }
        }
        assert names[..i + 1] == names[..i] + [names[i]];
      }
      assert names[..|names|] == names;
      assert forall n :: n in completed <==> n in Elements(completed);
    }

    /**
     * DeletePods: stops at the first failure. What is gone then is exactly the pods before the one that failed,
     * and that one too if the reply to its deletion was lost.
     */
    method DeletePods(names: seq<string>) returns (ok: bool, ghost done: nat)
      modifies this
      ensures done <= |names| && (ok <==> done == |names|)
      ensures ok ==> cluster == WithoutPods(old(cluster), Elements(names))
      ensures !ok ==> exists n | n in {done, done + 1} :: cluster == WithoutPods(old(cluster), Elements(names[..n]))
      ensures Elements(names[..done]) <= old(cluster).pods.Keys
    {
      var i := 0;
      while i < |names|
        invariant 0 <= i <= |names|
        invariant cluster == WithoutPods(old(cluster), Elements(names[..i]))
        invariant Elements(names[..i]) <= old(cluster).pods.Keys
      {
        assert Elements(names[..i + 1]) == Elements(names[..i]) + {names[i]};
        ok := Delete(names[i]);
        if !ok { return false, i; }
        i := i + 1;
      }
      assert names[..|names|] == names;
      return true, i;
    }

    /**
     * The sweep: only this peer's completed pods go, and if nothing fails all of them. Nothing happens to a pod of
     * another peer, or one without containers, or one whose first container has not terminated or did so for another
     * reason, whatever its other containers are like.
     */
    method Sweep(peerId: string) returns (ok: bool)
      modifies this
      ensures forall n | n in cluster.pods :: n in old(cluster).pods && cluster.pods[n] == old(cluster).pods[n]
      ensures forall n | n in old(cluster).pods ::
                n in cluster.pods
                || (old(cluster).pods[n].peerId == peerId && |old(cluster).pods[n].containers| > 0
                    && old(cluster).pods[n].containers[0] == Terminated("Completed"))
      ensures ok ==> forall n | n in cluster.pods ::
                cluster.pods[n].peerId == peerId ==>
                  |cluster.pods[n].containers| == 0 || cluster.pods[n].containers[0] != Terminated("Completed")
      ensures cluster.secrets == old(cluster).secrets
      ensures exists gone :: gone <= Sweepable(old(cluster), peerId) && cluster == WithoutPods(old(cluster), gone)
      ensures ok ==> cluster == WithoutPods(old(cluster), Sweepable(old(cluster), peerId))
    {
      var listed, completed;
      ghost var done;
      listed, completed := ListCompleted(peerId);
      assert WithoutPods(cluster, {}) == cluster;
      ok, done := DeletePods(completed);
      ghost var gone := if ok then Elements(completed)
        else if cluster == WithoutPods(old(cluster), Elements(completed[..done])) then Elements(completed[..done])
        else Elements(completed[..done + 1]);
      assert gone <= Elements(completed) && cluster == WithoutPods(old(cluster), gone);
      ok := ok && listed;
    }
  }

  // ----- and garbage collection -----

  /** A pod that garbage collection leaves alone: nothing owns it, or one of its owners is such a pod without owners. */
  predicate Stands(c: Cluster, name: string) {
    name in c.pods &&
    (c.pods[name].owners == [] ||
     exists ref | ref in c.pods[name].owners :: Resolves(c, ref) && c.pods[ref.name].owners == [])
  }

  lemma {:induction false} StandingSurvives(c: Cluster, name: string, removed: seq<Resource>, d: Cluster)
    requires Stands(c, name) && Collects(c, removed, d)
    ensures name in d.pods && d.pods[name] == c.pods[name]
  {
    CollectsWithin(c, removed, d);
    if c.pods[name].owners == [] {
      SupportedSurvive(c, {PodNamed(name)}, removed, d);
    } else {
      var ref :| ref in c.pods[name].owners && Resolves(c, ref) && c.pods[ref.name].owners == [];
      SupportedSurvive(c, {PodNamed(name), PodNamed(ref.name)}, removed, d);
    }
    assert Exists(d, PodNamed(name));
  }

  lemma {:induction false} OwnedSurvives(c: Cluster, name: string, secret: string, removed: seq<Resource>, d: Cluster)
    requires Stands(c, name) && Collects(c, removed, d)
    requires secret in c.secrets && exists ref | ref in c.secrets[secret].owners :: Resolves(c, ref) && ref.name == name
    ensures secret in d.secrets
  {
    var r := SecretNamed(secret);
    if c.pods[name].owners == [] {
      SupportedSurvive(c, {r, PodNamed(name)}, removed, d);
    } else {
      var ref :| ref in c.pods[name].owners && Resolves(c, ref) && c.pods[ref.name].owners == [];
      SupportedSurvive(c, {r, PodNamed(name), PodNamed(ref.name)}, removed, d);
    }
    assert Exists(d, r);
  }

  /**
   * After a full sweep and garbage collection: a secret owned by one pod, where that pod belongs to a standing peer
   * pod or stands by itself, is gone exactly if its pod was swept.
   */
  lemma {:induction false} SecretsFollowPods(
    c: Cluster, peerId: string, secret: string, owner: OwnerRef, removed: seq<Resource>, d: Cluster)
    requires secret in c.secrets && c.secrets[secret].owners == [owner] && Resolves(c, owner)
    requires owner.name !in Sweepable(c, peerId) ==> Stands(WithoutPods(c, Sweepable(c, peerId)), owner.name)
    requires Collects(WithoutPods(c, Sweepable(c, peerId)), removed, d) && Settled(d)
    ensures secret in d.secrets <==> owner.name !in Sweepable(c, peerId)
  {
    var swept := WithoutPods(c, Sweepable(c, peerId));
    if owner.name in Sweepable(c, peerId) {
      CollectsWithin(swept, removed, d);
      assert !Resolves(d, owner);
      assert !Collectable(d, SecretNamed(secret));
    } else {
      assert owner in c.secrets[secret].owners && Resolves(swept, owner);
      OwnedSurvives(swept, owner.name, secret, removed, d);
    }
  }

  /**
   * Pods of other peers, and this peer's pods that have not completed, outlive sweep and collection while they stand.
   */
  lemma {:induction false} UnsweptPodsStay(
    c: Cluster, peerId: string, gone: set<string>, name: string, removed: seq<Resource>, d: Cluster)
    requires gone <= Sweepable(c, peerId) && Collects(WithoutPods(c, gone), removed, d)
    requires name in c.pods
    requires c.pods[name].peerId != peerId || |c.pods[name].containers| == 0
      || c.pods[name].containers[0] != Terminated("Completed")
    requires Stands(WithoutPods(c, gone), name)
    ensures name in d.pods && d.pods[name] == c.pods[name]
  {
    StandingSurvives(WithoutPods(c, gone), name, removed, d);
  }
}
