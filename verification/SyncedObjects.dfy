/**
 A virtual object that several physical clusters hold copies of. Each cluster puts its own
 finalizer and label on the object, so the finalizers are a distributed reference count.
 */
module SyncedObjects {
  import opened Wrappers

  const MANAGED_BY := "kubeocean.io/managed-by"
  const MANAGED_BY_VALUE := "kubeocean"
  const USED_BY_PV := "kubeocean.io/used-by-pv"
  const PHYSICAL_NAME := "kubeocean.io/physical-name"
  const PHYSICAL_NAMESPACE := "kubeocean.io/physical-namespace"
  const SYNCED_BY_PREFIX := "kubeocean.io/synced-by-"
  const FINALIZER_PREFIX := "kubeocean.io/finalizer-"
  const DELETING_PREFIX := "kubeocean.io/deleting-"
  const TRUE := "true"

  datatype Object = Object(labels: map<string, string>, annotations: map<string, string>, finalizers: seq<string>)

  function Finalizer(cluster: string): string {
    FINALIZER_PREFIX + cluster
  }

  function SyncedBy(cluster: string): string {
    SYNCED_BY_PREFIX + cluster
  }

  function DeletingMark(cluster: string): string {
    DELETING_PREFIX + cluster
  }

  predicate IsClusterFinalizer(f: string) {
    FINALIZER_PREFIX <= f
  }

  /** A Go map lookup: a missing key reads as the empty string. */
  function Get(m: map<string, string>, key: string): string {
    if key in m then m[key] else ""
  }

  function Without(finalizers: seq<string>, f: string): seq<string> {
    if finalizers == [] then []
    else if finalizers[0] == f then Without(finalizers[1..], f)
    else [finalizers[0]] + Without(finalizers[1..], f)
  }

  predicate HasClusterFinalizer(finalizers: seq<string>) {
    exists i :: 0 <= i < |finalizers| && IsClusterFinalizer(finalizers[i])
  }

  // ---------- Specification of the two operations ----------

  predicate IsRegistered(o: Object, cluster: string, name: string, namespace: string, usedByPV: bool) {
    && Get(o.annotations, PHYSICAL_NAME) == name && Get(o.annotations, PHYSICAL_NAMESPACE) == namespace
    && o.annotations != map[] && o.labels != map[]
    && Get(o.labels, MANAGED_BY) == MANAGED_BY_VALUE && Get(o.labels, SyncedBy(cluster)) == TRUE
    && Finalizer(cluster) in o.finalizers
    && (usedByPV ==> Get(o.labels, USED_BY_PV) == TRUE)
  }

  predicate NameConflict(o: Object, name: string) {
    Get(o.annotations, PHYSICAL_NAME) != "" && Get(o.annotations, PHYSICAL_NAME) != name
  }

  /** The object after a cluster registers its copy; an existing different name is an error. */
  function Registered(o: Object, cluster: string, name: string, namespace: string, usedByPV: bool): Result<Object> {
    if IsRegistered(o, cluster, name, namespace, usedByPV) then Success(o)
    else if NameConflict(o, name) then Failure("physical name annotation already exists but doesn't match")
    else
      var labels := o.labels[MANAGED_BY := MANAGED_BY_VALUE][SyncedBy(cluster) := TRUE];
      Success(Object(
        if usedByPV then labels[USED_BY_PV := TRUE] else labels,
        o.annotations[PHYSICAL_NAME := name][PHYSICAL_NAMESPACE := namespace],
        if Finalizer(cluster) in o.finalizers then o.finalizers else o.finalizers + [Finalizer(cluster)]))
  }

  predicate NothingToRemove(o: Object, cluster: string) {
    && Finalizer(cluster) !in o.finalizers
    && Get(o.labels, SyncedBy(cluster)) == "" && Get(o.labels, USED_BY_PV) == ""
    && Get(o.annotations, PHYSICAL_NAME) == "" && Get(o.annotations, PHYSICAL_NAMESPACE) == ""
  }

  function DroppedLabels(o: Object, cluster: string): set<string> {
    {SyncedBy(cluster), USED_BY_PV} +
    if Finalizer(cluster) in o.finalizers && !HasClusterFinalizer(Without(o.finalizers, Finalizer(cluster)))
    then {MANAGED_BY}
    else {}
  }

  /** The object after a cluster has given its copy up. */
  function Unregistered(o: Object, cluster: string): Object {
    if NothingToRemove(o, cluster) then o
    else Object(o.labels - DroppedLabels(o, cluster),
                o.annotations - {PHYSICAL_NAME, PHYSICAL_NAMESPACE, DeletingMark(cluster)},
                Without(o.finalizers, Finalizer(cluster)))
  }

  // ---------- The code, in place on an object ----------

  class SyncedObject {
    var labels: map<string, string>
    var annotations: map<string, string>
    var finalizers: seq<string>

    ghost function Contents(): Object
      reads this
    {
      Object(labels, annotations, finalizers)
    }

    method Register(cluster: string, name: string, namespace: string, usedByPV: bool) returns (r: Result<()>)
      modifies this
      ensures var spec := Registered(old(Contents()), cluster, name, namespace, usedByPV);
              r.Success? == spec.Success? && Contents() == if spec.Success? then spec.value else old(Contents())
    {
      var matches :=
        && annotations != map[] && Get(annotations, PHYSICAL_NAME) == name
        && Get(annotations, PHYSICAL_NAMESPACE) == namespace
        && labels != map[] && Get(labels, MANAGED_BY) == MANAGED_BY_VALUE
        && Get(labels, SyncedBy(cluster)) == TRUE && Finalizer(cluster) in finalizers;
      if usedByPV {
        matches := matches && Get(labels, USED_BY_PV) == TRUE;
      }
      if matches {
        return Success(());
      }
      if Get(annotations, PHYSICAL_NAME) != "" && Get(annotations, PHYSICAL_NAME) != name {
        return Failure("physical name annotation already exists but doesn't match");
      }
      labels := labels[MANAGED_BY := MANAGED_BY_VALUE];
      labels := labels[SyncedBy(cluster) := TRUE];
      if usedByPV {
        labels := labels[USED_BY_PV := TRUE];
      }
      annotations := annotations[PHYSICAL_NAME := name];
      annotations := annotations[PHYSICAL_NAMESPACE := namespace];
      if Finalizer(cluster) !in finalizers {
        finalizers := finalizers + [Finalizer(cluster)];
      }
      return Success(());
    }

    method Unregister(cluster: string)
      modifies this
      ensures Contents() == Unregistered(old(Contents()), cluster)
    {
      var finalizerExists := Finalizer(cluster) in finalizers;
      if !finalizerExists && Get(labels, SyncedBy(cluster)) == "" && Get(labels, USED_BY_PV) == "" &&
         Get(annotations, PHYSICAL_NAME) == "" && Get(annotations, PHYSICAL_NAMESPACE) == "" {
        return;
      }
      if finalizerExists {
        finalizers := Without(finalizers, Finalizer(cluster));
      } else {
        WithoutAbsent(finalizers, Finalizer(cluster));
      }
      WithoutIn(old(finalizers), Finalizer(cluster), Finalizer(cluster));
      WithoutAbsent(finalizers, Finalizer(cluster));
      RemoveLabels(finalizerExists, cluster);
      RemoveAnnotations(cluster);
    }

    method RemoveLabels(finalizerExists: bool, cluster: string)
      modifies this`labels
      ensures var last := finalizerExists && !HasClusterFinalizer(Without(finalizers, Finalizer(cluster)));
              labels == old(labels) - ({SyncedBy(cluster), USED_BY_PV} + if last then {MANAGED_BY} else {})
    {
      var toRemove := [SyncedBy(cluster), USED_BY_PV];
      if finalizerExists {
        var remaining := 0;
        for i := 0 to |finalizers|
          invariant remaining >= 0
          invariant remaining > 0 <==>
                    exists j :: 0 <= j < i && IsClusterFinalizer(finalizers[j]) && finalizers[j] != Finalizer(cluster)
        {
          if IsClusterFinalizer(finalizers[i]) && finalizers[i] != Finalizer(cluster) {
            remaining := remaining + 1;
          }
        }
        WithoutHasOther(finalizers, Finalizer(cluster));
        if remaining == 0 {
          toRemove := toRemove + [MANAGED_BY];
        }
      }
      labels := RemoveKeys(labels, toRemove);
    }

    method RemoveAnnotations(cluster: string)
      modifies this`annotations
      ensures annotations == old(annotations) - {PHYSICAL_NAME, PHYSICAL_NAMESPACE, DeletingMark(cluster)}
    {
      var toRemove := [PHYSICAL_NAME, PHYSICAL_NAMESPACE, DeletingMark(cluster)];
      annotations := RemoveKeys(annotations, toRemove);
    }
  }

  method RemoveKeys(m: map<string, string>, keys: seq<string>) returns (r: map<string, string>)
    ensures forall k :: k in r <==> k in m && k !in keys
    ensures forall k :: k in r ==> r[k] == m[k]
  {
    r := m;
    for i := 0 to |keys|
      invariant forall k :: k in r <==> k in m && k !in keys[..i]
      invariant forall k :: k in r ==> r[k] == m[k]
    {
      if keys[i] in r {
        r := r - {keys[i]};
      }
    }
  }

  lemma {:induction false} WithoutIn(fs: seq<string>, f: string, g: string)
    ensures g in Without(fs, f) <==> g in fs && g != f
  {
    if fs != [] {
      WithoutIn(fs[1..], f, g);
      assert g in fs <==> g == fs[0] || g in fs[1..];
    }
  }

  lemma {:induction false} WithoutAbsent(fs: seq<string>, f: string)
    requires f !in fs
    ensures Without(fs, f) == fs
  {
    if fs != [] {
      WithoutAbsent(fs[1..], f);
    }
  }

  lemma WithoutHasOther(fs: seq<string>, f: string)
    ensures HasClusterFinalizer(Without(fs, f)) <==>
            exists i :: 0 <= i < |fs| && IsClusterFinalizer(fs[i]) && fs[i] != f
  {
    forall g ensures g in Without(fs, f) <==> g in fs && g != f {
      WithoutIn(fs, f, g);
    }
    if i :| 0 <= i < |fs| && IsClusterFinalizer(fs[i]) && fs[i] != f {
      assert fs[i] in Without(fs, f);
    }
    if HasClusterFinalizer(Without(fs, f)) {
      var i :| 0 <= i < |Without(fs, f)| && IsClusterFinalizer(Without(fs, f)[i]);
      assert Without(fs, f)[i] in fs;
    }
  }

  // ---------- Reference counting ----------

  /** The object's marks say exactly that the clusters in `holders` have registered. */
  ghost predicate Counts(o: Object, holders: set<string>) {
    && (forall c :: Finalizer(c) in o.finalizers <==> c in holders)
    && (forall c :: SyncedBy(c) in o.labels <==> c in holders)
    && (forall c :: c in holders ==> o.labels[SyncedBy(c)] == TRUE)
    && (MANAGED_BY in o.labels <==> holders != {})
    && (holders != {} ==> o.labels[MANAGED_BY] == MANAGED_BY_VALUE)
  }

  lemma KeysApart(c: string, d: string)
    ensures Finalizer(c) == Finalizer(d) ==> c == d
    ensures SyncedBy(c) == SyncedBy(d) ==> c == d
    ensures SyncedBy(c) != MANAGED_BY && SyncedBy(c) != USED_BY_PV && MANAGED_BY != USED_BY_PV
  {
    assert Finalizer(c)[|FINALIZER_PREFIX|..] == c && Finalizer(d)[|FINALIZER_PREFIX|..] == d;
    assert SyncedBy(c)[|SYNCED_BY_PREFIX|..] == c && SyncedBy(d)[|SYNCED_BY_PREFIX|..] == d;
    assert SyncedBy(c)[13] == SYNCED_BY_PREFIX[13];
    assert MANAGED_BY[13] != USED_BY_PV[13];
  }

  lemma ClusterOf(f: string) returns (c: string)
    requires IsClusterFinalizer(f)
    ensures f == Finalizer(c)
  {
    c := f[|FINALIZER_PREFIX|..];
  }

  /** While some holder remains, its finalizer is one the code recognises by its prefix. */
  lemma HoldersHaveFinalizers(o: Object, holders: set<string>, fs: seq<string>)
    requires forall c :: Finalizer(c) in fs <==> c in holders
    ensures HasClusterFinalizer(fs) <==> holders != {}
  {
    if c :| c in holders {
      var i :| 0 <= i < |fs| && fs[i] == Finalizer(c);
      assert IsClusterFinalizer(fs[i]);
    }
    if HasClusterFinalizer(fs) {
      var i :| 0 <= i < |fs| && IsClusterFinalizer(fs[i]);
      var c := ClusterOf(fs[i]);
      assert c in holders;
    }
  }

  /** Registering adds the cluster to the count, or fails and changes nothing. */
  lemma RegisterCounts(o: Object, holders: set<string>, cluster: string, name: string, namespace: string,
                       usedByPV: bool)
    requires Counts(o, holders)
    ensures var r := Registered(o, cluster, name, namespace, usedByPV);
            && (r.Failure? <==> NameConflict(o, name))
            && (r.Success? ==> Counts(r.value, holders + {cluster}))
  {
    forall c ensures SyncedBy(c) != MANAGED_BY && SyncedBy(c) != USED_BY_PV
      ensures SyncedBy(c) == SyncedBy(cluster) <==> c == cluster
      ensures Finalizer(c) == Finalizer(cluster) <==> c == cluster
    {
      KeysApart(c, cluster);
    }
    KeysApart(cluster, cluster);
  }

  /** Registration sets the cluster's own marks, the shared ones and the copy's place, and leaves everything else. */
  lemma RegisteredMeans(o: Object, cluster: string, name: string, namespace: string, usedByPV: bool)
    requires Registered(o, cluster, name, namespace, usedByPV).Success?
    ensures var o' := Registered(o, cluster, name, namespace, usedByPV).value;
            var mine := "kubeocean.io/synced-by-" + cluster;
            && Get(o'.labels, "kubeocean.io/managed-by") == "kubeocean" && Get(o'.labels, mine) == "true"
            && (usedByPV ==> Get(o'.labels, "kubeocean.io/used-by-pv") == "true")
            && Get(o'.annotations, "kubeocean.io/physical-name") == name
            && Get(o'.annotations, "kubeocean.io/physical-namespace") == namespace
            && "kubeocean.io/finalizer-" + cluster in o'.finalizers
            && (forall k :: k != "kubeocean.io/managed-by" && k != mine ==>
                  (usedByPV ==> k != "kubeocean.io/used-by-pv") ==>
                  (k in o'.labels <==> k in o.labels) && Get(o'.labels, k) == Get(o.labels, k))
            && (forall k :: k != "kubeocean.io/physical-name" && k != "kubeocean.io/physical-namespace" ==>
                  (k in o'.annotations <==> k in o.annotations) && Get(o'.annotations, k) == Get(o.annotations, k))
            && o.finalizers <= o'.finalizers && |o'.finalizers| <= |o.finalizers| + 1
    ensures !NameConflict(o, name)
  {
    KeysApart(cluster, cluster);
    assert PHYSICAL_NAME[21..] != PHYSICAL_NAMESPACE[21..];
    if IsRegistered(o, cluster, name, namespace, usedByPV) {
      assert Registered(o, cluster, name, namespace, usedByPV).value == o;
    }
  }

  /** Unregistration takes away the cluster's marks and the copy's place, and leaves everything else. */
  lemma UnregisteredMeans(o: Object, cluster: string)
    ensures var o' := Unregistered(o, cluster);
            var labels := ["kubeocean.io/managed-by", "kubeocean.io/synced-by-" + cluster, "kubeocean.io/used-by-pv"];
            var annotations := ["kubeocean.io/physical-name", "kubeocean.io/physical-namespace",
                                "kubeocean.io/deleting-" + cluster];
            && "kubeocean.io/finalizer-" + cluster !in o'.finalizers
            && ("kubeocean.io/finalizer-" + cluster in o.finalizers ==>
                  "kubeocean.io/deleting-" + cluster !in o'.annotations)
            && Get(o'.labels, "kubeocean.io/synced-by-" + cluster) == ""
            && Get(o'.labels, "kubeocean.io/used-by-pv") == ""
            && Get(o'.annotations, "kubeocean.io/physical-name") == ""
            && Get(o'.annotations, "kubeocean.io/physical-namespace") == ""
            && (forall k :: k !in labels ==>
                  (k in o'.labels <==> k in o.labels) && Get(o'.labels, k) == Get(o.labels, k))
            && (forall k :: k !in annotations ==>
                  (k in o'.annotations <==> k in o.annotations) && Get(o'.annotations, k) == Get(o.annotations, k))
            && (forall f :: f != "kubeocean.io/finalizer-" + cluster ==> (f in o'.finalizers <==> f in o.finalizers))
  {
    KeysApart(cluster, cluster);
    forall f ensures f in Without(o.finalizers, Finalizer(cluster)) <==> f in o.finalizers && f != Finalizer(cluster) {
      WithoutIn(o.finalizers, Finalizer(cluster), f);
    }
  }

  /** Unregistering takes the cluster out of the count; with the last one the object is no longer managed. */
  lemma UnregisterCounts(o: Object, holders: set<string>, cluster: string)
    requires Counts(o, holders)
    ensures Counts(Unregistered(o, cluster), holders - {cluster})
  {
    var fs := Without(o.finalizers, Finalizer(cluster));
    forall c ensures SyncedBy(c) != MANAGED_BY && SyncedBy(c) != USED_BY_PV
      ensures SyncedBy(c) == SyncedBy(cluster) <==> c == cluster
      ensures Finalizer(c) in fs <==> c in holders - {cluster}
    {
      KeysApart(c, cluster);
      WithoutIn(o.finalizers, Finalizer(cluster), Finalizer(c));
    }
    KeysApart(cluster, cluster);
    HoldersHaveFinalizers(o, holders - {cluster}, fs);
    if NothingToRemove(o, cluster) {
      assert cluster !in holders;
      assert holders - {cluster} == holders;
    } else if cluster !in holders {
      assert holders - {cluster} == holders;
    }
  }

  datatype Op =
    | Join(cluster: string, name: string, namespace: string, usedByPV: bool)
    | Leave(cluster: string)

  function Apply(o: Object, op: Op): Object {
    match op
    case Join(c, name, namespace, pv) =>
      var r := Registered(o, c, name, namespace, pv);
      if r.Success? then r.value else o
    case Leave(c) => Unregistered(o, c)
  }

  function ApplyAll(o: Object, ops: seq<Op>): Object
    decreases |ops|
  {
    if ops == [] then o else ApplyAll(Apply(o, ops[0]), ops[1..])
  }

  /** The reference count itself: who has joined and not left. A join under another name does not count. */
  function HoldersAfter(o: Object, holders: set<string>, ops: seq<Op>): set<string>
    decreases |ops|
  {
    if ops == [] then holders
    else
      var next := match ops[0]
        case Join(c, name, _, _) => if NameConflict(o, name) then holders else holders + {c}
        case Leave(c) => holders - {c};
      HoldersAfter(Apply(o, ops[0]), next, ops[1..])
  }

  /** For every sequence of joins and leaves by any clusters, the marks on the object are the reference count. */
  lemma {:induction false} MarksAreReferenceCount(o: Object, holders: set<string>, ops: seq<Op>)
    requires Counts(o, holders)
    ensures Counts(ApplyAll(o, ops), HoldersAfter(o, holders, ops))
    decreases |ops|
  {
    if ops != [] {
      match ops[0] {
        case Join(c, name, namespace, pv) =>
          RegisterCounts(o, holders, c, name, namespace, pv);
          MarksAreReferenceCount(Apply(o, ops[0]), if NameConflict(o, name) then holders else holders + {c}, ops[1..]);
        case Leave(c) =>
          UnregisterCounts(o, holders, c);
          MarksAreReferenceCount(Apply(o, ops[0]), holders - {c}, ops[1..]);
      }
    }
  }

  /** One cluster's step leaves every other cluster's finalizer and label, and all other finalizers, alone. */
  lemma OthersUntouched(o: Object, op: Op, other: string)
    requires op.cluster != other
    ensures var o' := Apply(o, op);
            && (Finalizer(other) in o'.finalizers <==> Finalizer(other) in o.finalizers)
            && (SyncedBy(other) in o'.labels <==> SyncedBy(other) in o.labels)
            && Get(o'.labels, SyncedBy(other)) == Get(o.labels, SyncedBy(other))
            && forall f :: f in o.finalizers && f != Finalizer(op.cluster) ==> f in o'.finalizers
  {
    KeysApart(op.cluster, other);
    KeysApart(other, other);
    forall f ensures f in Without(o.finalizers, Finalizer(op.cluster)) <==>
        f in o.finalizers && f != Finalizer(op.cluster) {
      WithoutIn(o.finalizers, Finalizer(op.cluster), f);
    }
  }

  /**
   The physical name and namespace are not counted: the first cluster to leave removes them for
   all, although the others are still registered and still find their copies by that name.
   */
  lemma LeavingDropsSharedName(o: Object, holders: set<string>, leaving: string, other: string)
    requires Counts(o, holders) && leaving in holders && other in holders && leaving != other
    ensures var o' := Unregistered(o, leaving);
            Finalizer(other) in o'.finalizers && Get(o'.annotations, PHYSICAL_NAME) == ""
  {
    UnregisterCounts(o, holders, leaving);
  }
}
