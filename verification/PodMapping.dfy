/** The pod controller: physical pods and virtual pods that name each other. */
module PodMapping {
  import opened PodStatus
  import opened TokenSecrets

  const MANAGED_BY := "kubeocean.io/managed-by"
  const MANAGED_BY_VALUE := "kubeocean"

  type Pods = map<Key, Pod>

  predicate Managed(p: Pod) {
    MANAGED_BY in p.labels && p.labels[MANAGED_BY] == MANAGED_BY_VALUE
  }

  predicate HasRequiredAnnotations(p: Pod) {
    && Get(p.annotations, VIRTUAL_POD_NAMESPACE) != "" && Get(p.annotations, VIRTUAL_POD_NAME) != ""
    && Get(p.annotations, VIRTUAL_POD_UID) != ""
  }

  /** The virtual pod that a physical pod names. */
  function VirtualKey(p: Pod): Key {
    Key(Get(p.annotations, VIRTUAL_POD_NAMESPACE), Get(p.annotations, VIRTUAL_POD_NAME))
  }

  predicate PointsTo(v: Pod, k: Key) {
    && PHYSICAL_POD_NAMESPACE in v.annotations && v.annotations[PHYSICAL_POD_NAMESPACE] == k.namespace
    && PHYSICAL_POD_NAME in v.annotations && v.annotations[PHYSICAL_POD_NAME] == k.name
  }

  /** The virtual pod exists, is the one meant, and points back. */
  predicate Matched(virtual: Pods, k: Key, p: Pod) {
    && HasRequiredAnnotations(p)
    && VirtualKey(p) in virtual
    && virtual[VirtualKey(p)].uid == p.annotations[VIRTUAL_POD_UID]
    && PointsTo(virtual[VirtualKey(p)], k)
  }

  predicate IsManagedByKubeocean(p: Pod) {
    "kubeocean.io/managed-by" in p.labels && p.labels["kubeocean.io/managed-by"] == "kubeocean"
  }

  /** The physical pod at `k` and a virtual pod name each other, the latter also by its UID. */
  predicate Mutual(virtual: Pods, k: Key, p: Pod) {
    var namespace := Get(p.annotations, "kubeocean.io/virtual-pod-namespace");
    var name := Get(p.annotations, "kubeocean.io/virtual-pod-name");
    var uid := Get(p.annotations, "kubeocean.io/virtual-pod-uid");
    && namespace != "" && name != "" && uid != ""
    && Key(namespace, name) in virtual && virtual[Key(namespace, name)].uid == uid
    && var annotations := virtual[Key(namespace, name)].annotations;
       && "kubeocean.io/physical-pod-namespace" in annotations && "kubeocean.io/physical-pod-name" in annotations
       && annotations["kubeocean.io/physical-pod-namespace"] == k.namespace
       && annotations["kubeocean.io/physical-pod-name"] == k.name
  }

  lemma MatchedIff(virtual: Pods, k: Key, p: Pod)
    ensures Matched(virtual, k, p) <==> Mutual(virtual, k, p)
    ensures Managed(p) <==> IsManagedByKubeocean(p)
  {
  }

  // ---------- One reconcile ----------

  /** Which API calls of a reconcile succeed; for token secrets, which names fail to be read or deleted. */
  datatype Calls = Calls(
    getPhysical: bool, getVirtual: bool, delete: bool, update: bool,
    unreadableSecrets: set<string>, failingSecrets: set<string>)

  const ALL_SUCCEED := Calls(true, true, true, true, {}, {})

  /** The reconcile gives the pod up: it is managed, has no match, and is not being deleted yet. */
  predicate GivesUp(physical: Pods, virtual: Pods, k: Key) {
    k in physical && Managed(physical[k]) && !Matched(virtual, k, physical[k]) && !physical[k].deleting
  }

  function PhysicalAfter(physical: Pods, virtual: Pods, k: Key): Pods {
    if k in physical && Managed(physical[k]) && !Matched(virtual, k, physical[k])
    then physical[k := physical[k].(deleting := true)]
    else physical
  }

  function VirtualAfter(physical: Pods, virtual: Pods, k: Key, now: string): Pods {
    if k in physical && Managed(physical[k]) && Matched(virtual, k, physical[k])
    then var vk := VirtualKey(physical[k]); virtual[vk := SyncOnce(physical[k], virtual[vk], now)]
    else virtual
  }

  /**
   What a reconcile does, in the pods' own terms: a managed pod that is in mutual relation with a virtual pod is shown
   there, field by field; any other managed pod is deleted; everything else stays.
   */
  lemma ReconcileMeans(physical: Pods, virtual: Pods, k: Key, now: string)
    ensures var physical', virtual' := PhysicalAfter(physical, virtual, k), VirtualAfter(physical, virtual, k, now);
            if k !in physical || !IsManagedByKubeocean(physical[k]) then physical' == physical && virtual' == virtual
            else if !Mutual(virtual, k, physical[k])
            then physical' == physical[k := physical[k].(deleting := true)] && virtual' == virtual
            else
              var p := physical[k];
              var vk := Key(Get(p.annotations, "kubeocean.io/virtual-pod-namespace"),
                            Get(p.annotations, "kubeocean.io/virtual-pod-name"));
              && physical' == physical && virtual'.Keys == virtual.Keys && Mirrors(p, virtual[vk], virtual'[vk])
              && forall other :: other in virtual && other != vk ==> virtual'[other] == virtual[other]
  {
    if k in physical {
      var p := physical[k];
      MatchedIff(virtual, k, p);
      if Managed(p) && Matched(virtual, k, p) {
        SyncOnceMirrors(p, virtual[VirtualKey(p)], now);
      }
    }
  }

  // ---------- One sweep over all physical pods ----------

  /** The managed physical pod that a virtual pod is matched with. */
  ghost predicate Partner(physical: Pods, virtual: Pods, vk: Key, k: Key) {
    k in physical && Managed(physical[k]) && Matched(virtual, k, physical[k]) && VirtualKey(physical[k]) == vk
  }

  ghost predicate SweptPhysical(virtual: Pods, before: Pods, after: Pods) {
    && after.Keys == before.Keys
    && forall k :: k in before ==>
         after[k] ==
         if Managed(before[k]) && !Matched(virtual, k, before[k]) then before[k].(deleting := true) else before[k]
  }

  ghost predicate SweptVirtual(physical: Pods, before: Pods, after: Pods, now: string) {
    && after.Keys == before.Keys
    && (forall vk, k :: vk in before && Partner(physical, before, vk, k) ==>
          after[vk] == SyncOnce(physical[k], before[vk], now))
    && (forall vk :: vk in before && (forall k :: !Partner(physical, before, vk, k)) ==> after[vk] == before[vk])
  }

  /** The secret is a token secret of a pod that the sweep gives up. */
  ghost predicate GoesWithPod(physical: Pods, virtual: Pods, secrets: Secrets, secret: Key) {
    exists k :: GoesWith(physical, virtual, secrets, secret, k)
  }

  ghost predicate GoesWith(physical: Pods, virtual: Pods, secrets: Secrets, secret: Key, k: Key) {
    GivesUp(physical, virtual, k) && Doomed(secrets, k.namespace, physical[k].volumes, {}, secret)
  }

  /** Exactly the token secrets of the pods that are given up are gone. */
  ghost predicate SweptSecrets(physical: Pods, virtual: Pods, before: Secrets, after: Secrets) {
    && (forall s :: s in after <==> s in before && !GoesWithPod(physical, virtual, before, s))
    && (forall s :: s in after ==> after[s] == before[s])
  }

  class Clusters {
    var physical: Pods
    var virtual: Pods
    var secrets: Secrets      // in the physical cluster

    /** A failure changes nothing, except that the token secrets may fail to go after their pod has been given up. */
    method Reconcile(k: Key, now: string, calls: Calls) returns (ok: bool)
      modifies this
      ensures calls == ALL_SUCCEED ==>
                && ok
                && physical == PhysicalAfter(old(physical), old(virtual), k)
                && virtual == VirtualAfter(old(physical), old(virtual), k, now)
                && forall s :: s in secrets <==>
                     s in old(secrets) && !GoesWith(old(physical), old(virtual), old(secrets), s, k)
      ensures physical == old(physical) || physical == PhysicalAfter(old(physical), old(virtual), k)
      ensures virtual == old(virtual) || virtual == VirtualAfter(old(physical), old(virtual), k, now)
      ensures !ok ==> virtual == old(virtual)
      ensures !ok ==>
                physical == old(physical) || (calls.failingSecrets != {} && GivesUp(old(physical), old(virtual), k))
      ensures forall s :: s in secrets ==> s in old(secrets) && secrets[s] == old(secrets)[s]
      ensures forall s :: s in old(secrets) && s !in secrets ==>
              GoesWith(old(physical), old(virtual), old(secrets), s, k)
    {
      if !calls.getPhysical {
        return false;
      }
      if k !in physical || !Managed(physical[k]) {
        return true;
      }
      var p := physical[k];
      if !HasRequiredAnnotations(p) {
        ok := DeletePhysicalPod(k, calls);
        return;
      }
      if !calls.getVirtual {
        return false;
      }
      var vk := VirtualKey(p);
      if vk !in virtual || virtual[vk].uid != p.annotations[VIRTUAL_POD_UID] || !PointsTo(virtual[vk], k) {
        ok := DeletePhysicalPod(k, calls);
        return;
      }
      var v, written := SyncPhysicalPodToVirtual(p, virtual[vk], now, calls.update);
      virtual := virtual[vk := v];
      ok := !written || calls.update;
    }

    /** A pod that is being deleted already is left alone; otherwise its token secrets go after it. */
    method DeletePhysicalPod(k: Key, calls: Calls) returns (ok: bool)
      requires k in physical
      modifies this`physical, this`secrets
      ensures old(physical)[k].deleting ==> ok && physical == old(physical) && secrets == old(secrets)
      ensures !old(physical)[k].deleting && !calls.delete ==>
              !ok && physical == old(physical) && secrets == old(secrets)
      ensures !old(physical)[k].deleting && calls.delete ==>
                && physical == old(physical)[k := old(physical)[k].(deleting := true)]
                && (calls.failingSecrets == {} ==> ok)
      ensures forall s :: s in secrets ==> s in old(secrets) && secrets[s] == old(secrets)[s]
      ensures forall s :: s in old(secrets) && s !in secrets ==>
                && !old(physical)[k].deleting && calls.delete
                && Doomed(old(secrets), k.namespace, old(physical)[k].volumes, calls.unreadableSecrets, s)
      ensures ok && !old(physical)[k].deleting ==>
                forall s :: s in secrets ==>
                  !Doomed(old(secrets), k.namespace, old(physical)[k].volumes, calls.unreadableSecrets, s)
    {
      if physical[k].deleting {
        return true;
      }
      var volumes := physical[k].volumes;
      if !calls.delete {
        return false;
      }
      physical := physical[k := physical[k].(deleting := true)];
      ok, secrets := DeleteTokenSecrets(secrets, k.namespace, volumes, calls.unreadableSecrets, calls.failingSecrets);
    }

    /** A reconcile of every physical pod, in whatever order. */
    method Sweep(now: string)
      modifies this
      ensures SweptPhysical(old(virtual), old(physical), physical)
      ensures SweptVirtual(old(physical), old(virtual), virtual, now)
      ensures SweptSecrets(old(physical), old(virtual), old(secrets), secrets)
    {
      ghost var physical0, virtual0, secrets0 := physical, virtual, secrets;
      var todo := physical.Keys;
      while todo != {}
        invariant Progress(physical0, virtual0, physical, virtual, todo, now)
        invariant SecretProgress(physical0, virtual0, secrets0, secrets, todo)
        decreases todo
      {
        var k :| k in todo;
        ghost var p1, v1, s1 := physical, virtual, secrets;
        var _ := Reconcile(k, now, ALL_SUCCEED);
        StepProgress(physical0, virtual0, p1, v1, todo, k, now);
        StepSecrets(physical0, virtual0, secrets0, p1, v1, s1, secrets, todo, k, now);
        todo := todo - {k};
      }
      SweepDone(physical0, virtual0, physical, virtual, now);
      SecretsDone(physical0, virtual0, secrets0, secrets);
    }
  }

  // ---------- The secrets during a sweep ----------

  /** The token secrets of the pods that have been given up so far are gone. */
  ghost predicate SecretProgress(physical0: Pods, virtual0: Pods, secrets0: Secrets, secrets: Secrets, todo: set<Key>) {
    && (forall s :: s in secrets <==>
          s in secrets0 && forall k :: GoesWith(physical0, virtual0, secrets0, s, k) ==> k in todo)
    && (forall s :: s in secrets ==> secrets[s] == secrets0[s])
  }

  lemma SameDoom(physical0: Pods, virtual0: Pods, secrets0: Secrets, p1: Pods, v1: Pods, s1: Secrets,
                 todo: set<Key>, k: Key, now: string, s: Key)
    requires Progress(physical0, virtual0, p1, v1, todo, now) && k in todo
    requires s in s1 && s in secrets0 && s1[s] == secrets0[s]
    ensures GoesWith(p1, v1, s1, s, k) <==> GoesWith(physical0, virtual0, secrets0, s, k)
  {
    MatchedFollowsPointers(virtual0, v1, k, physical0[k]);
  }

  lemma StepSecrets(physical0: Pods, virtual0: Pods, secrets0: Secrets, p1: Pods, v1: Pods, s1: Secrets, s2: Secrets,
                    todo: set<Key>, k: Key, now: string)
    requires Progress(physical0, virtual0, p1, v1, todo, now) && k in todo
    requires SecretProgress(physical0, virtual0, secrets0, s1, todo)
    requires forall s :: s in s2 <==> s in s1 && !GoesWith(p1, v1, s1, s, k)
    requires forall s :: s in s2 ==> s2[s] == s1[s]
    ensures SecretProgress(physical0, virtual0, secrets0, s2, todo - {k})
  {
    forall s ensures s in s2 <==>
        s in secrets0 && forall k' :: GoesWith(physical0, virtual0, secrets0, s, k') ==> k' in todo - {k}
    {
      if s in s1 {
        SameDoom(physical0, virtual0, secrets0, p1, v1, s1, todo, k, now, s);
      }
    }
  }

  lemma SecretsDone(physical0: Pods, virtual0: Pods, secrets0: Secrets, secrets: Secrets)
    requires SecretProgress(physical0, virtual0, secrets0, secrets, {})
    ensures SweptSecrets(physical0, virtual0, secrets0, secrets)
  {
    forall s ensures s in secrets <==> s in secrets0 && !GoesWithPod(physical0, virtual0, secrets0, s) {
    }
  }

  // ---------- The sweep's invariant ----------

  /** The virtual pods keep everything that the matching looks at. */
  ghost predicate SamePointers(a: Pods, b: Pods) {
    && a.Keys == b.Keys
    && forall vk :: vk in a ==> a[vk].uid == b[vk].uid && forall k :: PointsTo(a[vk], k) <==> PointsTo(b[vk], k)
  }

  /** A virtual pod is synced once its partner has been reconciled, and untouched before. */
  ghost predicate EntryProgress(physical0: Pods, virtual0: Pods, vk: Key, v: Pod, todo: set<Key>, now: string)
    requires vk in virtual0
  {
    && (forall k :: Partner(physical0, virtual0, vk, k) && k !in todo ==>
        v == SyncOnce(physical0[k], virtual0[vk], now))
    && ((forall k :: Partner(physical0, virtual0, vk, k) ==> k in todo) ==> v == virtual0[vk])
  }

  ghost predicate VirtualProgress(physical0: Pods, virtual0: Pods, virtual: Pods, todo: set<Key>, now: string)
    requires virtual.Keys == virtual0.Keys
  {
    forall vk :: vk in virtual0 ==> EntryProgress(physical0, virtual0, vk, virtual[vk], todo, now)
  }

  ghost predicate PhysicalProgress(physical0: Pods, virtual0: Pods, physical: Pods, todo: set<Key>)
    requires physical.Keys == physical0.Keys
  {
    forall k :: k in physical0 ==>
      physical[k] == if k in todo then physical0[k] else PhysicalAfter(physical0, virtual0, k)[k]
  }

  ghost predicate Progress(physical0: Pods, virtual0: Pods, physical: Pods, virtual: Pods, todo: set<Key>,
                           now: string) {
    && todo <= physical0.Keys
    && SamePointers(virtual0, virtual)
    && physical.Keys == physical0.Keys
    && PhysicalProgress(physical0, virtual0, physical, todo)
    && VirtualProgress(physical0, virtual0, virtual, todo, now)
  }

  lemma SyncKeepsPointers(p: Pod, v: Pod, now: string, k: Key)
    requires PointsTo(v, k)
    ensures SyncOnce(p, v, now).uid == v.uid
    ensures forall k' :: PointsTo(SyncOnce(p, v, now), k') <==> PointsTo(v, k')
  {
    MappingKeysApart();
    var w := SyncOnce(p, v, now);
    assert w.annotations[PHYSICAL_POD_NAMESPACE] == v.annotations[PHYSICAL_POD_NAMESPACE];
    assert w.annotations[PHYSICAL_POD_NAME] == v.annotations[PHYSICAL_POD_NAME];
  }

  lemma PointersAfterSync(a: Pods, b: Pods, p: Pod, k: Key, now: string)
    requires SamePointers(a, b) && Matched(b, k, p)
    ensures SamePointers(a, b[VirtualKey(p) := SyncOnce(p, b[VirtualKey(p)], now)])
  {
    SyncKeepsPointers(p, b[VirtualKey(p)], now, k);
  }

  lemma MatchedFollowsPointers(a: Pods, b: Pods, k: Key, p: Pod)
    requires SamePointers(a, b)
    ensures Matched(a, k, p) <==> Matched(b, k, p)
  {
  }

  lemma PartnerUnique(physical: Pods, virtual: Pods, vk: Key, k: Key, k': Key)
    requires Partner(physical, virtual, vk, k) && Partner(physical, virtual, vk, k')
    ensures k == k'
  {
  }

  lemma StepPhysical(physical0: Pods, virtual0: Pods, p1: Pods, v1: Pods, todo: set<Key>, k: Key)
    requires p1.Keys == physical0.Keys && k in todo && todo <= physical0.Keys && SamePointers(virtual0, v1)
    requires PhysicalProgress(physical0, virtual0, p1, todo)
    ensures PhysicalAfter(p1, v1, k).Keys == physical0.Keys
    ensures PhysicalProgress(physical0, virtual0, PhysicalAfter(p1, v1, k), todo - {k})
  {
    MatchedFollowsPointers(virtual0, v1, k, physical0[k]);
  }

  lemma StepProgress(physical0: Pods, virtual0: Pods, p1: Pods, v1: Pods, todo: set<Key>, k: Key, now: string)
    requires Progress(physical0, virtual0, p1, v1, todo, now) && k in todo
    ensures Progress(physical0, virtual0, PhysicalAfter(p1, v1, k), VirtualAfter(p1, v1, k, now), todo - {k}, now)
  {
    StepPhysical(physical0, virtual0, p1, v1, todo, k);
    MatchedFollowsPointers(virtual0, v1, k, physical0[k]);
    var v2 := VirtualAfter(p1, v1, k, now);
    var vk := VirtualKey(physical0[k]);
    if Partner(physical0, virtual0, vk, k) {
      assert v1[vk] == virtual0[vk] by {
        assert EntryProgress(physical0, virtual0, vk, v1[vk], todo, now);
        forall k' | Partner(physical0, virtual0, vk, k') ensures k' in todo {
          PartnerUnique(physical0, virtual0, vk, k, k');
        }
      }
      PointersAfterSync(virtual0, v1, physical0[k], k, now);
      SyncedPartner(physical0, virtual0, v1, todo, k, now);
    } else {
      assert v2 == v1;
      NoPartner(physical0, virtual0, v1, todo, k, now);
    }
  }

  lemma OtherEntry(physical0: Pods, virtual0: Pods, vk: Key, v: Pod, todo: set<Key>, k: Key, now: string)
    requires vk in virtual0 && EntryProgress(physical0, virtual0, vk, v, todo, now) &&
             !Partner(physical0, virtual0, vk, k)
    ensures EntryProgress(physical0, virtual0, vk, v, todo - {k}, now)
  {
  }

  lemma OwnEntry(physical0: Pods, virtual0: Pods, vk: Key, todo: set<Key>, k: Key, now: string)
    requires vk in virtual0 && k in todo && Partner(physical0, virtual0, vk, k)
    ensures EntryProgress(physical0, virtual0, vk, SyncOnce(physical0[k], virtual0[vk], now), todo - {k}, now)
  {
    forall k' | Partner(physical0, virtual0, vk, k') ensures k' == k {
      PartnerUnique(physical0, virtual0, vk, k, k');
    }
  }

  lemma SyncedPartner(physical0: Pods, virtual0: Pods, v1: Pods, todo: set<Key>, k: Key, now: string)
    requires virtual0.Keys == v1.Keys && k in todo && k in physical0
    requires VirtualProgress(physical0, virtual0, v1, todo, now)
    requires Partner(physical0, virtual0, VirtualKey(physical0[k]), k)
    ensures var mine := VirtualKey(physical0[k]);
            var v2 := v1[mine := SyncOnce(physical0[k], virtual0[mine], now)];
            VirtualProgress(physical0, virtual0, v2, todo - {k}, now)
  {
    var mine := VirtualKey(physical0[k]);
    var v2 := v1[mine := SyncOnce(physical0[k], virtual0[mine], now)];
    forall vk | vk in virtual0 ensures EntryProgress(physical0, virtual0, vk, v2[vk], todo - {k}, now) {
      if vk == mine {
        OwnEntry(physical0, virtual0, vk, todo, k, now);
      } else {
        OtherEntry(physical0, virtual0, vk, v1[vk], todo, k, now);
      }
    }
  }

  lemma NoPartner(physical0: Pods, virtual0: Pods, v1: Pods, todo: set<Key>, k: Key, now: string)
    requires virtual0.Keys == v1.Keys && k in todo && k in physical0
    requires VirtualProgress(physical0, virtual0, v1, todo, now)
    requires !Partner(physical0, virtual0, VirtualKey(physical0[k]), k)
    ensures VirtualProgress(physical0, virtual0, v1, todo - {k}, now)
  {
    forall vk | vk in virtual0 ensures EntryProgress(physical0, virtual0, vk, v1[vk], todo - {k}, now) {
      OtherEntry(physical0, virtual0, vk, v1[vk], todo, k, now);
    }
  }

  lemma SweepDone(physical0: Pods, virtual0: Pods, physical: Pods, virtual: Pods, now: string)
    requires Progress(physical0, virtual0, physical, virtual, {}, now)
    ensures SweptPhysical(virtual0, physical0, physical) && SweptVirtual(physical0, virtual0, virtual, now)
  {
    forall vk | vk in virtual0 && (forall k :: !Partner(physical0, virtual0, vk, k))
      ensures virtual[vk] == virtual0[vk]
    {
      assert EntryProgress(physical0, virtual0, vk, virtual[vk], {}, now);
    }
  }

  // ---------- Main results ----------

  lemma SweepKeepsPointers(physical: Pods, virtual: Pods, virtual': Pods, now: string)
    requires SweptVirtual(physical, virtual, virtual', now)
    ensures SamePointers(virtual, virtual')
  {
    forall vk | vk in virtual
      ensures virtual[vk].uid == virtual'[vk].uid && forall k :: PointsTo(virtual[vk], k) <==> PointsTo(virtual'[vk], k)
    {
      if k :| Partner(physical, virtual, vk, k) {
        SyncKeepsPointers(physical[k], virtual[vk], now, k);
      }
    }
  }

  /** A managed pod that has not been given up. */
  predicate Survives(physical: Pods, k: Key) {
    k in physical && Managed(physical[k]) && !physical[k].deleting
  }

  /** Two survivors that name the same virtual pod. */
  predicate SameVirtualPod(physical: Pods, k: Key, k': Key) {
    Survives(physical, k) && Survives(physical, k') && VirtualKey(physical[k]) == VirtualKey(physical[k'])
  }

  /**
   After a sweep the surviving managed pods and the virtual pods they name correspond one to one,
   each pointing at the other, and a sweep gives up exactly the pods without such a partner.
   */
  lemma SweepMakesBijection(physical: Pods, virtual: Pods, physical': Pods, virtual': Pods, now: string)
    requires SweptPhysical(virtual, physical, physical') && SweptVirtual(physical, virtual, virtual', now)
    ensures forall k :: k in physical && !physical[k].deleting ==>
              (physical'[k].deleting <==> IsManagedByKubeocean(physical[k]) && !Mutual(virtual, k, physical[k]))
    ensures forall k :: Survives(physical', k) ==> Mutual(virtual', k, physical'[k])
    ensures forall k :: Survives(physical', k) ==>
              var vk := VirtualKey(physical'[k]);
              && vk in virtual' && PointsTo(virtual'[vk], k)
              && virtual'[vk].uid == Get(physical'[k].annotations, VIRTUAL_POD_UID)
    ensures forall k, k' :: SameVirtualPod(physical', k, k') ==> k == k'
  {
    forall k | k in physical ensures Matched(virtual, k, physical[k]) <==> Mutual(virtual, k, physical[k]) {
      MatchedIff(virtual, k, physical[k]);
    }
    forall k | Survives(physical', k) ensures Matched(virtual', k, physical'[k]) && Mutual(virtual', k, physical'[k]) {
      MatchedIff(virtual', k, physical'[k]);
      SurvivorIsMatched(physical, virtual, physical', virtual', now, k);
    }
    forall k, k' | SameVirtualPod(physical', k, k') ensures k == k' {
      assert Matched(virtual', k, physical'[k]) && Matched(virtual', k', physical'[k']);
    }
  }

  lemma SurvivorIsMatched(physical: Pods, virtual: Pods, physical': Pods, virtual': Pods, now: string, k: Key)
    requires SweptPhysical(virtual, physical, physical') && SweptVirtual(physical, virtual, virtual', now)
    requires Survives(physical', k)
    ensures Matched(virtual', k, physical'[k])
  {
    SweepKeepsPointers(physical, virtual, virtual', now);
    MatchedFollowsPointers(virtual, virtual', k, physical[k]);
  }

  /** A second sweep gives up nothing more. */
  lemma SecondSweepDeletesNothing(physical: Pods, virtual: Pods, physical': Pods, virtual': Pods, physical'': Pods,
                                  now: string)
    requires SweptPhysical(virtual, physical, physical') && SweptVirtual(physical, virtual, virtual', now)
    requires SweptPhysical(virtual', physical', physical'')
    ensures physical'' == physical'
  {
    SweepKeepsPointers(physical, virtual, virtual', now);
    forall k | k in physical' ensures physical''[k] == physical'[k] {
      MatchedFollowsPointers(virtual, virtual', k, physical[k]);
    }
  }

  lemma PartnersStay(physical: Pods, virtual: Pods, physical': Pods, virtual': Pods, now: string)
    requires SweptPhysical(virtual, physical, physical') && SweptVirtual(physical, virtual, virtual', now)
    ensures forall vk, k :: Partner(physical', virtual', vk, k) <==> Partner(physical, virtual, vk, k)
    ensures forall vk, k :: Partner(physical, virtual, vk, k) ==> physical'[k] == physical[k]
  {
    SweepKeepsPointers(physical, virtual, virtual', now);
    forall vk, k ensures Partner(physical', virtual', vk, k) <==> Partner(physical, virtual, vk, k) {
      if k in physical {
        MatchedFollowsPointers(virtual, virtual', k, physical[k]);
      }
    }
  }

  /** From the third sweep on nothing changes at all: both clusters are at a fixed point. */
  lemma ThirdSweepChangesNothing(p0: Pods, v0: Pods, p1: Pods, v1: Pods, p2: Pods, v2: Pods, p3: Pods, v3: Pods,
                                 t1: string, t2: string, t3: string)
    requires SweptPhysical(v0, p0, p1) && SweptVirtual(p0, v0, v1, t1)
    requires SweptPhysical(v1, p1, p2) && SweptVirtual(p1, v1, v2, t2)
    requires SweptPhysical(v2, p2, p3) && SweptVirtual(p2, v2, v3, t3)
    ensures p3 == p2 == p1 && v3 == v2
  {
    SecondSweepDeletesNothing(p0, v0, p1, v1, p2, t1);
    SecondSweepDeletesNothing(p1, v1, p2, v2, p3, t2);
    PartnersStay(p0, v0, p1, v1, t1);
    PartnersStay(p1, v1, p2, v2, t2);
    forall vk | vk in v2 ensures v3[vk] == v2[vk] {
      if k :| Partner(p0, v0, vk, k) {
        assert Partner(p1, v1, vk, k) && Partner(p2, v2, vk, k);
        TwoSyncsSettle(p0[k], v0[vk], t1, t2);
      }
    }
  }
}
