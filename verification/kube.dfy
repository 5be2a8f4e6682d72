/** The part of a Kubernetes namespace the builder uses: pods, secrets and garbage collection. */
module Kube {

  type Uid = nat

  /** A reference holds as long as the named pod exists with the recorded UID. */
  datatype OwnerRef = OwnerRef(name: string, uid: Uid)

  /** A container status, as far as the sweep looks at it: the reason if it has terminated. */
  datatype Status = Waiting | Active | Terminated(reason: string)

  datatype Pod = Pod(uid: Uid, peerId: string, owners: seq<OwnerRef>, containers: seq<Status>)

  datatype Secret = Secret(owners: seq<OwnerRef>)

  datatype Cluster = Cluster(pods: map<string, Pod>, secrets: map<string, Secret>, nextUid: Uid)

  datatype Resource = PodNamed(name: string) | SecretNamed(name: string)

  predicate Exists(c: Cluster, r: Resource) {
    match r
    case PodNamed(n) => n in c.pods
    case SecretNamed(n) => n in c.secrets
  }

  function Owners(c: Cluster, r: Resource): seq<OwnerRef>
    requires Exists(c, r)
  {
    match r
    case PodNamed(n) => c.pods[n].owners
    case SecretNamed(n) => c.secrets[n].owners
  }

  predicate Resolves(c: Cluster, ref: OwnerRef) {
    ref.name in c.pods && c.pods[ref.name].uid == ref.uid
  }

  /** The garbage collector may remove a resource once it has owners and none of them is left. */
  predicate Collectable(c: Cluster, r: Resource) {
    Exists(c, r) && Owners(c, r) != [] && forall ref | ref in Owners(c, r) :: !Resolves(c, ref)
  }

  function Remove(c: Cluster, r: Resource): Cluster {
    match r
    case PodNamed(n) => c.(pods := c.pods - {n})
    case SecretNamed(n) => c.(secrets := c.secrets - {n})
  }

  /** Garbage collection of the given resources, one at a time, leads from c to d. */
  ghost predicate Collects(c: Cluster, removed: seq<Resource>, d: Cluster)
    decreases |removed|
  {
    if removed == [] then c == d
    else Collectable(c, removed[0]) && Collects(Remove(c, removed[0]), removed[1..], d)
  }

  ghost predicate Settled(c: Cluster) { forall r: Resource :: !Collectable(c, r) }

  ghost predicate Within(c: Cluster, d: Cluster) {
    && c.nextUid == d.nextUid
    && (forall n | n in c.pods :: n in d.pods && c.pods[n] == d.pods[n])
    && (forall n | n in c.secrets :: n in d.secrets && c.secrets[n] == d.secrets[n])
  }

  lemma {:induction false} WithinBoth(c: Cluster, d: Cluster)
    requires Within(c, d) && Within(d, c)
    ensures c == d
  {}

  /** With fewer owners left, what could be collected still can. */
  lemma {:induction false} CollectableKept(c: Cluster, d: Cluster, r: Resource)
    requires Within(c, d) && Exists(c, r) && Collectable(d, r)
    ensures Collectable(c, r)
  {}

  lemma {:induction false} SettledIsLeast(settled: Cluster, c: Cluster, removed: seq<Resource>, d: Cluster)
    requires Settled(settled) && Within(settled, c) && Collects(c, removed, d)
    ensures Within(settled, d)
    decreases |removed|
  {
    if removed != [] {
      if Exists(settled, removed[0]) { CollectableKept(settled, c, removed[0]); }
      SettledIsLeast(settled, Remove(c, removed[0]), removed[1..], d);
    }
  }

  lemma {:induction false} CollectsWithin(c: Cluster, removed: seq<Resource>, d: Cluster)
    requires Collects(c, removed, d)
    ensures Within(d, c)
    decreases |removed|
  {
    if removed != [] { CollectsWithin(Remove(c, removed[0]), removed[1..], d); }
  }

  /** Whatever order resources are collected in, garbage collection settles in the same cluster. */
  lemma {:induction false} CollectionOrderIrrelevant(
    c: Cluster, xs: seq<Resource>, d: Cluster, ys: seq<Resource>, e: Cluster)
    requires Collects(c, xs, d) && Settled(d) && Collects(c, ys, e) && Settled(e)
    ensures d == e
  {
    CollectsWithin(c, xs, d);
    CollectsWithin(c, ys, e);
    SettledIsLeast(d, c, ys, e);
    SettledIsLeast(e, c, xs, d);
    WithinBoth(d, e);
  }

  function Size(c: Cluster): nat { |c.pods| + |c.secrets| }

  lemma {:induction false} RemoveShrinks(c: Cluster, r: Resource)
    requires Exists(c, r)
    ensures Size(Remove(c, r)) == Size(c) - 1
  {}

  /** Collection stops: no run of it is longer than the number of resources. */
  lemma {:induction false} CollectionStops(c: Cluster, removed: seq<Resource>, d: Cluster)
    requires Collects(c, removed, d)
    ensures |removed| + Size(d) == Size(c)
    decreases |removed|
  {
    if removed != [] {
      RemoveShrinks(c, removed[0]);
      CollectionStops(Remove(c, removed[0]), removed[1..], d);
    }
  }

  /** From every cluster, collection can be run until it settles. */
  lemma {:induction false} CollectionSettles(c: Cluster) returns (removed: seq<Resource>, d: Cluster)
    ensures Collects(c, removed, d) && Settled(d)
    decreases Size(c)
  {
    if r: Resource :| Collectable(c, r) {
      RemoveShrinks(c, r);
      var rest, e := CollectionSettles(Remove(c, r));
      removed, d := [r] + rest, e;
      assert removed[1..] == rest;
    } else {
      removed, d := [], c;
    }
  }

  predicate OwnedWithin(c: Cluster, owners: seq<OwnerRef>, kept: set<Resource>) {
    exists ref | ref in owners :: Resolves(c, ref) && PodNamed(ref.name) in kept
  }

  /** Resources each of which is unowned or has an owner among them. */
  ghost predicate Supported(c: Cluster, kept: set<Resource>) {
    forall r | r in kept ::
      Exists(c, r) && (Owners(c, r) == [] || OwnedWithin(c, Owners(c, r), kept))
  }

  /** Collection never touches resources that support each other. */
  lemma {:induction false} SupportedSurvive(c: Cluster, kept: set<Resource>, removed: seq<Resource>, d: Cluster)
    requires Supported(c, kept) && Collects(c, removed, d)
    ensures forall r | r in kept :: Exists(d, r)
    decreases |removed|
  {
    if removed != [] {
      var c' := Remove(c, removed[0]);
      assert removed[0] !in kept;
      forall r | r in kept
        ensures Exists(c', r)
        ensures Owners(c', r) == [] || OwnedWithin(c', Owners(c', r), kept)
      {
        if Owners(c, r) != [] {
          var ref :| ref in Owners(c, r) && Resolves(c, ref) && PodNamed(ref.name) in kept;
          assert Resolves(c', ref);
        }
      }
      SupportedSurvive(c', kept, removed[1..], d);
    }
  }

  function Everything(c: Cluster): set<Resource> {
    (set n | n in c.pods :: PodNamed(n)) + (set n | n in c.secrets :: SecretNamed(n))
  }

  /** Every resource of kept is there, and is unowned or has an owner in kept, by name and UID. */
  ghost predicate Anchored(c: Cluster, kept: set<Resource>) {
    forall r | r in kept ::
      Exists(c, r)
      && (Owners(c, r) == []
          || exists ref | ref in Owners(c, r) ::
               ref.name in c.pods && c.pods[ref.name].uid == ref.uid && PodNamed(ref.name) in kept)
  }

  lemma {:induction false} AnchoredIsSupported(c: Cluster, kept: set<Resource>)
    requires Anchored(c, kept)
    ensures Supported(c, kept)
  {
    forall r | r in kept && Owners(c, r) != [] ensures OwnedWithin(c, Owners(c, r), kept) {
      var ref :| ref in Owners(c, r)
        && ref.name in c.pods && c.pods[ref.name].uid == ref.uid && PodNamed(ref.name) in kept;
      assert Resolves(c, ref);
    }
  }

  /**
   * What is left when collection has settled: exactly what is anchored, through owners that are there under the name
   * and the UID they were recorded with, in something unowned or in a circle of owners.
   */
  lemma {:induction false} SurvivesIffAnchored(c: Cluster, removed: seq<Resource>, d: Cluster, r: Resource)
    requires Collects(c, removed, d) && Settled(d)
    ensures Exists(d, r) <==> exists kept :: r in kept && Anchored(c, kept)
  {
    CollectsWithin(c, removed, d);
    if Exists(d, r) {
      var kept := Everything(d);
      forall q | q in kept
        ensures Exists(c, q)
        ensures Owners(c, q) == []
          || exists ref | ref in Owners(c, q) ::
               ref.name in c.pods && c.pods[ref.name].uid == ref.uid && PodNamed(ref.name) in kept
      {
        assert !Collectable(d, q);
        if Owners(d, q) != [] {
          var ref :| ref in Owners(d, q) && Resolves(d, ref);
          assert PodNamed(ref.name) in kept;
        }
      }
      assert r in kept && Anchored(c, kept);
    }
    if kept :| r in kept && Anchored(c, kept) {
      AnchoredIsSupported(c, kept);
      SupportedSurvive(c, kept, removed, d);
    }
  }
}
