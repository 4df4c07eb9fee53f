/** Status sync from a physical pod to its virtual pod. */
module PodStatus {
  import opened Wrappers

  const VIRTUAL_NAMESPACE_LABEL := "kubeocean.io/virtual-namespace"
  const WORKLOAD_TYPE := "kubeocean.io/workload-type"
  const WORKLOAD_NAME := "kubeocean.io/workload-name"

  const VIRTUAL_POD_NAMESPACE := "kubeocean.io/virtual-pod-namespace"
  const VIRTUAL_POD_NAME := "kubeocean.io/virtual-pod-name"
  const VIRTUAL_POD_UID := "kubeocean.io/virtual-pod-uid"
  const PHYSICAL_POD_NAMESPACE := "kubeocean.io/physical-pod-namespace"
  const PHYSICAL_POD_NAME := "kubeocean.io/physical-pod-name"
  const PHYSICAL_POD_UID := "kubeocean.io/physical-pod-uid"
  const VIRTUAL_NODE_NAME := "kubeocean.io/virtual-node-name"
  const EXPECTED_METADATA := "kubeocean.io/expected-metadata"
  const LAST_SYNC_TIME := "kubeocean.io/last-sync-time"

  const POD_SCHEDULED := "PodScheduled"

  type Text = map<string, string>

  datatype Condition = Condition(kind: string, status: string, detail: string)

  /** `own` stands for the status fields that are never copied, such as the QoS class. */
  datatype Status = Status(
    phase: string,
    conditions: seq<Condition>,
    message: string,
    reason: string,
    hostIP: string,
    podIP: string,
    podIPs: seq<string>,
    startTime: Option<int>,
    containers: seq<string>,
    initContainers: seq<string>,
    ephemeralContainers: seq<string>,
    own: Text)

  /** A volume with the secret it mounts, or with the secrets among its projected sources. */
  datatype Volume = Volume(name: string, secret: Option<string>, projected: seq<Option<string>>)

  datatype Pod = Pod(
    uid: string, labels: Text, annotations: Text, deleting: bool, volumes: seq<Volume>, status: Status)

  function Get(m: Text, k: string): string {
    if k in m then m[k] else ""
  }

  // ---------- Specification ----------

  predicate CopiedLabel(k: string) {
    k != VIRTUAL_NAMESPACE_LABEL && k != WORKLOAD_TYPE && k != WORKLOAD_NAME
  }

  predicate CopiedAnnotation(k: string) {
    && k != VIRTUAL_POD_NAMESPACE && k != VIRTUAL_POD_NAME && k != VIRTUAL_POD_UID
    && k != PHYSICAL_POD_NAMESPACE && k != PHYSICAL_POD_NAME && k != PHYSICAL_POD_UID
    && k != VIRTUAL_NODE_NAME && k != EXPECTED_METADATA
  }

  function SyncedLabels(p: Text): Text {
    map k | k in p && CopiedLabel(k) :: p[k]
  }

  function CopiedAnnotations(p: Text): Text {
    map k | k in p && CopiedAnnotation(k) :: p[k]
  }

  /** The physical pod's annotations, with the mapping and the sync time of the virtual pod. */
  function SyncedAnnotations(p: Text, v: Text, uid: string): Text {
    CopiedAnnotations(p)
      [PHYSICAL_POD_NAMESPACE := Get(v, PHYSICAL_POD_NAMESPACE)]
      [PHYSICAL_POD_NAME := Get(v, PHYSICAL_POD_NAME)]
      [PHYSICAL_POD_UID := if Get(v, PHYSICAL_POD_UID) == "" then uid else Get(v, PHYSICAL_POD_UID)]
      [LAST_SYNC_TIME := Get(v, LAST_SYNC_TIME)]
  }

  /** The first PodScheduled condition. */
  function Scheduled(cs: seq<Condition>): Option<Condition> {
    if cs == [] then None
    else if cs[0].kind == POD_SCHEDULED then Some(cs[0])
    else Scheduled(cs[1..])
  }

  function Others(cs: seq<Condition>): seq<Condition> {
    if cs == [] then []
    else if cs[0].kind == POD_SCHEDULED then Others(cs[1..])
    else [cs[0]] + Others(cs[1..])
  }

  function MergedConditions(v: seq<Condition>, p: seq<Condition>): seq<Condition> {
    if Scheduled(v).Some? then [Scheduled(v).value] + Others(p) else p
  }

  function SyncedStatus(p: Status, v: Status): Status {
    p.(conditions := MergedConditions(v.conditions, p.conditions), own := v.own)
  }

  /** The virtual pod as it should be. */
  function Synced(p: Pod, v: Pod): Pod {
    v.(labels := SyncedLabels(p.labels), annotations := SyncedAnnotations(p.annotations, v.annotations, p.uid),
       status := SyncedStatus(p.status, v.status))
  }

  predicate InSync(p: Pod, v: Pod) {
    Synced(p, v) == v
  }

  /** The virtual pod after one sync at time `now`. */
  function SyncOnce(p: Pod, v: Pod, now: string): Pod {
    if InSync(p, v) then v else Synced(p, v).(annotations := Synced(p, v).annotations[LAST_SYNC_TIME := now])
  }

  // ---------- The loops ----------

  method FindScheduled(v: seq<Condition>) returns (r: Option<Condition>)
    ensures r == Scheduled(v)
  {
    for i := 0 to |v|
      invariant Scheduled(v) == Scheduled(v[i..])
    {
      if v[i].kind == POD_SCHEDULED {
        return Some(v[i]);
      }
    }
    return None;
  }

  method MergeConditions(v: seq<Condition>, p: seq<Condition>) returns (r: seq<Condition>)
    ensures r == MergedConditions(v, p)
  {
    var scheduled := FindScheduled(v);
    var first: seq<Condition> := if scheduled.Some? then [scheduled.value] else [];
    r := first;
    for j := 0 to |p|
      invariant scheduled.Some? ==> r == first + Others(p[..j])
      invariant scheduled.None? ==> r == p[..j]
    {
      OthersSnoc(p[..j], p[j]);
      assert p[..j] + [p[j]] == p[..j + 1];
      if p[j].kind != POD_SCHEDULED {
        r := r + [p[j]];
      } else if scheduled.None? {
        r := r + [p[j]];
      }
    }
    assert p[..|p|] == p;
  }

  lemma {:induction false} OthersSnoc(cs: seq<Condition>, c: Condition)
    ensures Others(cs + [c]) == if c.kind == POD_SCHEDULED then Others(cs) else Others(cs) + [c]
  {
    if cs == [] {
      assert cs + [c] == [c];
    } else {
      assert (cs + [c])[1..] == cs[1..] + [c];
      OthersSnoc(cs[1..], c);
    }
  }

  method CopyLabels(p: Text) returns (r: Text)
    ensures r == SyncedLabels(p)
  {
    r := map[];
    var todo := p.Keys;
    while todo != {}
      invariant todo <= p.Keys
      invariant forall k :: k in r <==> k in p && k !in todo && CopiedLabel(k)
      invariant forall k :: k in r ==> r[k] == p[k]
      decreases todo
    {
      var k :| k in todo;
      if CopiedLabel(k) {
        r := r[k := p[k]];
      }
      todo := todo - {k};
    }
  }

  method CopyAnnotations(p: Text) returns (r: Text)
    ensures r == CopiedAnnotations(p)
  {
    r := map[];
    var todo := p.Keys;
    while todo != {}
      invariant todo <= p.Keys
      invariant forall k :: k in r <==> k in p && k !in todo && CopiedAnnotation(k)
      invariant forall k :: k in r ==> r[k] == p[k]
      decreases todo
    {
      var k :| k in todo;
      if CopiedAnnotation(k) {
        r := r[k := p[k]];
      }
      todo := todo - {k};
    }
  }

  method BuildSyncPod(p: Pod, v: Pod) returns (r: Pod)
    ensures r == Synced(p, v)
    ensures Mirrors(p, v, r)
  {
    var labels := CopyLabels(p.labels);
    var annotations := CopyAnnotations(p.annotations);
    annotations := annotations[PHYSICAL_POD_NAMESPACE := Get(v.annotations, PHYSICAL_POD_NAMESPACE)];
    annotations := annotations[PHYSICAL_POD_NAME := Get(v.annotations, PHYSICAL_POD_NAME)];
    annotations := annotations[PHYSICAL_POD_UID := Get(v.annotations, PHYSICAL_POD_UID)];
    if annotations[PHYSICAL_POD_UID] == "" {
      annotations := annotations[PHYSICAL_POD_UID := p.uid];
    }
    annotations := annotations[LAST_SYNC_TIME := Get(v.annotations, LAST_SYNC_TIME)];
    var conditions := MergeConditions(v.status.conditions, p.status.conditions);
    var status := v.status.(
      phase := p.status.phase, conditions := conditions, message := p.status.message, reason := p.status.reason,
      hostIP := p.status.hostIP, podIP := p.status.podIP, podIPs := p.status.podIPs, startTime := p.status.startTime,
      containers := p.status.containers, initContainers := p.status.initContainers,
      ephemeralContainers := p.status.ephemeralContainers);
    r := v.(labels := labels, annotations := annotations, status := status);
    assert r.annotations == SyncedAnnotations(p.annotations, v.annotations, p.uid);
    SyncOnceMirrors(p, v, "");
  }

  /** One sync; `written` tells whether the API server was asked to store anything. */
  method SyncPhysicalPodToVirtual(p: Pod, v: Pod, now: string, updateOk: bool) returns (r: Pod, written: bool)
    ensures written <==> !InSync(p, v)
    ensures r == if updateOk then SyncOnce(p, v, now) else v
    ensures !written || updateOk ==> Mirrors(p, v, r)
    ensures !written ==> r == v
    ensures written && updateOk ==> Get(r.annotations, "kubeocean.io/last-sync-time") == now
  {
    SyncOnceMirrors(p, v, now);
    var synced := BuildSyncPod(p, v);
    if synced.status == v.status && synced.annotations == v.annotations && synced.labels == v.labels {
      return v, false;
    }
    synced := synced.(annotations := synced.annotations[LAST_SYNC_TIME := now]);
    written := true;
    r := if updateOk then synced else v;
  }

  // ---------- Conditions ----------

  lemma {:induction false} OthersHaveNone(cs: seq<Condition>)
    ensures Scheduled(Others(cs)).None? && Others(Others(cs)) == Others(cs)
    ensures Scheduled(cs).None? ==> Others(cs) == cs
    ensures |Others(cs)| <= |cs|
  {
    if cs != [] {
      OthersHaveNone(cs[1..]);
      if cs[0].kind != POD_SCHEDULED {
        assert Others(cs)[1..] == Others(cs[1..]);
      }
    }
  }

  /** The conditions that a sync of a virtual pod without PodScheduled leaves alone. */
  predicate ScheduledLeads(cs: seq<Condition>) {
    Scheduled(cs).None? || cs == [Scheduled(cs).value] + Others(cs)
  }

  ghost predicate UniqueKinds(cs: seq<Condition>) {
    forall i, j :: 0 <= i < j < |cs| ==> cs[i].kind != cs[j].kind
  }

  lemma {:induction false} ScheduledOccurs(cs: seq<Condition>)
    ensures Scheduled(cs).Some? <==> exists i :: 0 <= i < |cs| && cs[i].kind == POD_SCHEDULED
    ensures Scheduled(cs).Some? ==> Scheduled(cs).value in cs && Scheduled(cs).value.kind == POD_SCHEDULED
  {
    if cs != [] {
      ScheduledOccurs(cs[1..]);
      if cs[0].kind == POD_SCHEDULED {
        assert cs[0] in cs;
      } else if Scheduled(cs[1..]).Some? {
        var i :| 0 <= i < |cs[1..]| && cs[1..][i].kind == POD_SCHEDULED;
        assert cs[i + 1].kind == POD_SCHEDULED;
      } else {
        forall i | 0 <= i < |cs| ensures cs[i].kind != POD_SCHEDULED {
          if i > 0 { assert cs[1..][i - 1] == cs[i]; }
        }
      }
    }
  }

  /** With one condition per type this says that PodScheduled, if there, is listed first. */
  lemma ScheduledLeadsIffFirst(cs: seq<Condition>)
    requires UniqueKinds(cs)
    ensures ScheduledLeads(cs) <==> Scheduled(cs).None? || cs[0].kind == POD_SCHEDULED
  {
    if Scheduled(cs).Some? {
      ScheduledOccurs(cs);
      if cs[0].kind == POD_SCHEDULED {
        ScheduledOccurs(cs[1..]);
        forall i | 0 <= i < |cs[1..]| ensures cs[1..][i].kind != POD_SCHEDULED {
          assert cs[1..][i] == cs[i + 1];
        }
        OthersHaveNone(cs[1..]);
        assert cs == [cs[0]] + cs[1..];
      }
    }
  }

  lemma MergedScheduled(v: seq<Condition>, p: seq<Condition>)
    ensures Scheduled(MergedConditions(v, p)) == if Scheduled(v).Some? then Scheduled(v) else Scheduled(p)
  {
    ScheduledOccurs(v);
  }

  lemma MergedAgain(v: seq<Condition>, p: seq<Condition>)
    ensures MergedConditions(MergedConditions(v, p), p) == MergedConditions(v, p) <==>
            Scheduled(v).Some? || ScheduledLeads(p)
  {
    MergedScheduled(v, p);
  }

  // ---------- What a synced pod looks like ----------

  /** The status fields that come from the physical pod. */
  predicate MirrorsFields(p: Status, v: Status) {
    && v.phase == p.phase && v.message == p.message && v.reason == p.reason
    && v.hostIP == p.hostIP && v.podIP == p.podIP && v.podIPs == p.podIPs && v.startTime == p.startTime
    && v.containers == p.containers && v.initContainers == p.initContainers
    && v.ephemeralContainers == p.ephemeralContainers
  }

  /** The physical conditions are there, each as often as on the physical pod; PodScheduled stays the virtual pod's. */
  ghost predicate MirrorsConditions(p: seq<Condition>, was: seq<Condition>, v: seq<Condition>) {
    && (forall c: Condition :: c.kind != "PodScheduled" ==> multiset(v)[c] == multiset(p)[c])
    && (forall i :: IsFirstScheduled(was, i) ==>
          |v| > 0 && v[0] == was[i] && forall j :: 0 < j < |v| ==> v[j].kind != "PodScheduled")
    && ((forall i :: 0 <= i < |was| ==> was[i].kind != "PodScheduled") ==>
          forall c: Condition :: c in v && c.kind == "PodScheduled" ==> c in p)
  }

  ghost predicate IsFirstScheduled(cs: seq<Condition>, i: int) {
    && 0 <= i < |cs| && cs[i].kind == "PodScheduled"
    && forall j :: 0 <= j < i ==> cs[j].kind != "PodScheduled"
  }

  ghost predicate MirrorsLabels(p: Text, v: Text) {
    && (forall k :: k in v <==>
          && k in p && k != "kubeocean.io/virtual-namespace" && k != "kubeocean.io/workload-type"
          && k != "kubeocean.io/workload-name")
    && (forall k :: k in v ==> v[k] == p[k])
  }

  /** The annotations that belong to the mapping, and are not copied from the physical pod. */
  predicate IsMappingKey(k: string) {
    || k == "kubeocean.io/physical-pod-namespace" || k == "kubeocean.io/physical-pod-name"
    || k == "kubeocean.io/physical-pod-uid"
  }

  predicate IsHiddenKey(k: string) {
    || k == "kubeocean.io/virtual-pod-namespace" || k == "kubeocean.io/virtual-pod-name"
    || k == "kubeocean.io/virtual-pod-uid"
    || k == "kubeocean.io/virtual-node-name" || k == "kubeocean.io/expected-metadata"
  }

  ghost predicate MirrorsAnnotations(p: Text, was: Text, uid: string, v: Text) {
    && (forall k :: IsHiddenKey(k) ==> k !in v)
    && (forall k :: !IsHiddenKey(k) && !IsMappingKey(k) && k != "kubeocean.io/last-sync-time" ==>
          (k in v <==> k in p) && (k in v ==> v[k] == p[k]))
    && Get(v, "kubeocean.io/physical-pod-namespace") == Get(was, "kubeocean.io/physical-pod-namespace")
    && Get(v, "kubeocean.io/physical-pod-name") == Get(was, "kubeocean.io/physical-pod-name")
    && Get(v, "kubeocean.io/physical-pod-uid") ==
       (if Get(was, "kubeocean.io/physical-pod-uid") == "" then uid else Get(was, "kubeocean.io/physical-pod-uid"))
  }

  /** The virtual pod `v` shows the physical pod `p`, and is otherwise still the pod `was`. */
  ghost predicate Mirrors(p: Pod, was: Pod, v: Pod) {
    && MirrorsFields(p.status, v.status)
    && MirrorsConditions(p.status.conditions, was.status.conditions, v.status.conditions)
    && MirrorsLabels(p.labels, v.labels)
    && MirrorsAnnotations(p.annotations, was.annotations, p.uid, v.annotations)
    && v.uid == was.uid && v.deleting == was.deleting && v.volumes == was.volumes && v.status.own == was.status.own
  }

  lemma {:induction false} OthersCounted(cs: seq<Condition>, c: Condition)
    ensures multiset(Others(cs))[c] == if c.kind == POD_SCHEDULED then 0 else multiset(cs)[c]
  {
    if cs != [] {
      OthersCounted(cs[1..], c);
      assert cs == [cs[0]] + cs[1..];
    }
  }

  lemma {:induction false} FirstScheduled(cs: seq<Condition>)
    ensures forall i :: IsFirstScheduled(cs, i) ==> Scheduled(cs) == Some(cs[i])
    ensures Scheduled(cs).Some? ==> exists i :: IsFirstScheduled(cs, i)
  {
    if cs != [] {
      FirstScheduled(cs[1..]);
      if cs[0].kind == POD_SCHEDULED {
        assert IsFirstScheduled(cs, 0);
      } else {
        forall i | IsFirstScheduled(cs, i) ensures Scheduled(cs) == Some(cs[i]) {
          forall j | 0 <= j < i - 1 ensures cs[1..][j].kind != "PodScheduled" {
            assert cs[1..][j] == cs[j + 1];
          }
          assert IsFirstScheduled(cs[1..], i - 1);
        }
        if Scheduled(cs).Some? {
          var i :| IsFirstScheduled(cs[1..], i);
          forall j | 0 <= j < i + 1 ensures cs[j].kind != "PodScheduled" {
            if j > 0 { assert cs[j] == cs[1..][j - 1]; }
          }
          assert IsFirstScheduled(cs, i + 1);
        }
      }
    }
  }

  lemma MergedMirrors(p: seq<Condition>, was: seq<Condition>)
    ensures MirrorsConditions(p, was, MergedConditions(was, p))
  {
    var v := MergedConditions(was, p);
    FirstScheduled(was);
    ScheduledOccurs(was);
    if Scheduled(was).Some? {
      var others := Others(p);
      forall c: Condition | c.kind != "PodScheduled" ensures multiset(v)[c] == multiset(p)[c] {
        OthersCounted(p, c);
      }
      forall j | 0 < j < |v| ensures v[j].kind != "PodScheduled" {
        OthersCounted(p, v[j]);
        assert v[j] == others[j - 1] && others[j - 1] in multiset(others);
      }
      var i :| IsFirstScheduled(was, i);
    }
  }

  lemma AnnotationKeysApart()
    ensures forall k :: IsHiddenKey(k) ==> !IsMappingKey(k) && k != "kubeocean.io/last-sync-time"
    ensures forall k :: IsMappingKey(k) ==> k != "kubeocean.io/last-sync-time"
  {
    assert PHYSICAL_POD_NAMESPACE[13] == PHYSICAL_POD_NAME[13] == PHYSICAL_POD_UID[13] == 'p';
    assert VIRTUAL_POD_NAMESPACE[13] == VIRTUAL_POD_NAME[13] == VIRTUAL_POD_UID[13] == VIRTUAL_NODE_NAME[13] == 'v';
    assert EXPECTED_METADATA[13] == 'e' && LAST_SYNC_TIME[13] == 'l';
  }

  lemma AnnotationsMirror(p: Text, was: Text, uid: string)
    ensures MirrorsAnnotations(p, was, uid, SyncedAnnotations(p, was, uid))
  {
    AnnotationKeysApart();
    var v := SyncedAnnotations(p, was, uid);
    forall k | !IsMappingKey(k) && k != LAST_SYNC_TIME
      ensures (k in v <==> k in p && !IsHiddenKey(k)) && (k in v ==> v[k] == p[k])
    {
      AnnotationAt(p, was, uid, k);
    }
    assert Get(v, PHYSICAL_POD_NAMESPACE) == Get(was, PHYSICAL_POD_NAMESPACE) by { MappingKeysApart(); }
    assert Get(v, PHYSICAL_POD_NAME) == Get(was, PHYSICAL_POD_NAME) by { MappingKeysApart(); }
  }

  lemma AnnotationAt(p: Text, was: Text, uid: string, k: string)
    requires !IsMappingKey(k) && k != LAST_SYNC_TIME
    ensures var v := SyncedAnnotations(p, was, uid);
            (k in v <==> k in p && !IsHiddenKey(k)) && (k in v ==> v[k] == p[k])
  {
    assert k in SyncedAnnotations(p, was, uid) <==> k in CopiedAnnotations(p);
  }

  /** The time of the sync is nobody's business. */
  lemma SyncTimeMirrors(p: Text, was: Text, uid: string, v: Text, now: string)
    requires MirrorsAnnotations(p, was, uid, v)
    ensures MirrorsAnnotations(p, was, uid, v[LAST_SYNC_TIME := now])
  {
    AnnotationKeysApart();
  }

  lemma SyncOnceMirrors(p: Pod, v: Pod, now: string)
    ensures Mirrors(p, v, SyncOnce(p, v, now)) && Mirrors(p, v, Synced(p, v))
    ensures InSync(p, v) ==> Mirrors(p, v, v)
  {
    MergedMirrors(p.status.conditions, v.status.conditions);
    AnnotationsMirror(p.annotations, v.annotations, p.uid);
    SyncTimeMirrors(p.annotations, v.annotations, p.uid, Synced(p, v).annotations, now);
  }

  /** Syncing again keeps what the first sync has made of the original pod. */
  lemma MirrorsAgain(p: Pod, was: Pod, v: Pod, now: string)
    requires Mirrors(p, was, v)
    ensures Mirrors(p, was, SyncOnce(p, v, now))
  {
    var w := SyncOnce(p, v, now);
    SyncOnceMirrors(p, v, now);
    ConditionsAgain(p.status.conditions, was.status.conditions, v.status.conditions, w.status.conditions);
  }

  lemma ConditionsAgain(p: seq<Condition>, was: seq<Condition>, v: seq<Condition>, w: seq<Condition>)
    requires MirrorsConditions(p, was, v) && MirrorsConditions(p, v, w)
    ensures MirrorsConditions(p, was, w)
  {
    if i :| IsFirstScheduled(was, i) {
      assert v[0] == was[i];
      assert IsFirstScheduled(v, 0);
      forall j | IsFirstScheduled(was, j) ensures j == i {
      }
    } else {
      NoFirstScheduled(was);
      if i :| IsFirstScheduled(v, i) {
        assert v[i] in v;
        forall c: Condition | c in w && c.kind == "PodScheduled" ensures c in p {
          var k :| 0 <= k < |w| && w[k] == c;
          assert k == 0;
        }
      } else {
        NoFirstScheduled(v);
      }
    }
  }

  lemma NoFirstScheduled(cs: seq<Condition>)
    requires forall i :: !IsFirstScheduled(cs, i)
    ensures forall i :: 0 <= i < |cs| ==> cs[i].kind != "PodScheduled"
  {
    FirstScheduled(cs);
    ScheduledOccurs(cs);
  }

  lemma {:induction false} SyncAllMirrors(p: Pod, was: Pod, v: Pod, times: seq<string>)
    requires Mirrors(p, was, v)
    ensures Mirrors(p, was, SyncAll(p, v, times))
    decreases |times|
  {
    if times != [] {
      MirrorsAgain(p, was, v, times[0]);
      SyncAllMirrors(p, was, SyncOnce(p, v, times[0]), times[1..]);
    }
  }

  /** After any syncs the virtual pod shows the physical one, field by field. */
  lemma SyncedPodMirrors(p: Pod, v: Pod, times: seq<string>)
    requires times != []
    ensures Mirrors(p, v, SyncAll(p, v, times))
  {
    SyncOnceMirrors(p, v, times[0]);
    SyncAllMirrors(p, v, SyncOnce(p, v, times[0]), times[1..]);
  }

  // ---------- Convergence ----------

  /** A written pod needs another write exactly if the conditions do. */
  lemma WrittenThenInSync(p: Pod, v: Pod, now: string)
    requires !InSync(p, v)
    ensures InSync(p, SyncOnce(p, v, now)) <==>
            Scheduled(v.status.conditions).Some? || ScheduledLeads(p.status.conditions)
  {
    var w := SyncOnce(p, v, now);
    AnnotationsSettle(p.annotations, v.annotations, p.uid, now);
    MergedAgain(v.status.conditions, p.status.conditions);
    assert w.status == SyncedStatus(p.status, v.status);
    assert Synced(p, w).labels == w.labels && Synced(p, w).annotations == w.annotations;
    assert Synced(p, w) == w <==> Synced(p, w).status.conditions == w.status.conditions;
  }

  lemma AnnotationsSettle(p: Text, v: Text, uid: string, now: string)
    ensures var w := SyncedAnnotations(p, v, uid)[LAST_SYNC_TIME := now];
            SyncedAnnotations(p, w, uid) == w
  {
    MappingKeysApart();
    var w := SyncedAnnotations(p, v, uid)[LAST_SYNC_TIME := now];
    assert w[PHYSICAL_POD_NAMESPACE] == Get(v, PHYSICAL_POD_NAMESPACE);
    assert w[PHYSICAL_POD_NAME] == Get(v, PHYSICAL_POD_NAME);
  }

  lemma MappingKeysApart()
    ensures PHYSICAL_POD_NAMESPACE != PHYSICAL_POD_NAME && PHYSICAL_POD_NAMESPACE != PHYSICAL_POD_UID &&
            PHYSICAL_POD_NAME != PHYSICAL_POD_UID
    ensures LAST_SYNC_TIME != PHYSICAL_POD_NAMESPACE && LAST_SYNC_TIME != PHYSICAL_POD_NAME &&
            LAST_SYNC_TIME != PHYSICAL_POD_UID
  {
    assert |PHYSICAL_POD_NAMESPACE| == 35 && |PHYSICAL_POD_NAME| == 30 && |PHYSICAL_POD_UID| == 29 &&
           |LAST_SYNC_TIME| == 27;
  }

  /** The virtual pod after syncs of one and the same physical pod at the given times. */
  function SyncAll(p: Pod, v: Pod, times: seq<string>): Pod
    decreases |times|
  {
    if times == [] then v else SyncAll(p, SyncOnce(p, v, times[0]), times[1..])
  }

  function Writes(p: Pod, v: Pod, times: seq<string>): nat
    decreases |times|
  {
    if times == [] then 0 else (if InSync(p, v) then 0 else 1) + Writes(p, SyncOnce(p, v, times[0]), times[1..])
  }

  lemma {:induction false} InSyncStays(p: Pod, v: Pod, times: seq<string>)
    requires InSync(p, v)
    ensures SyncAll(p, v, times) == v && Writes(p, v, times) == 0
  {
    if times != [] {
      InSyncStays(p, v, times[1..]);
    }
  }

  lemma TwoSyncsSettle(p: Pod, v: Pod, t1: string, t2: string)
    ensures InSync(p, SyncOnce(p, SyncOnce(p, v, t1), t2))
  {
    var w := SyncOnce(p, v, t1);
    if !InSync(p, v) && !InSync(p, w) {
      WrittenThenInSync(p, v, t1);
      WrittenThenInSync(p, w, t2);
      MergedScheduled(v.status.conditions, p.status.conditions);
      assert Scheduled(w.status.conditions).Some?;
    } else if !InSync(p, v) {
      assert SyncOnce(p, w, t2) == w;
    }
  }

  /**
   However often one physical pod is synced, at most two syncs write. There are two exactly if
   the virtual pod has no PodScheduled condition and the physical pod has one out of place.
   */
  lemma SyncConverges(p: Pod, v: Pod, times: seq<string>)
    ensures Writes(p, v, times) <= 2
    ensures |times| >= 2 ==> InSync(p, SyncAll(p, v, times))
    ensures times != [] ==> Mirrors(p, v, SyncAll(p, v, times))
    ensures |times| >= 2 ==>
              (Writes(p, v, times) == 2 <==>
               Scheduled(v.status.conditions).None? && !ScheduledLeads(p.status.conditions))
  {
    if times != [] {
      SyncedPodMirrors(p, v, times);
    }
    if |times| >= 2 {
      var w := SyncOnce(p, v, times[0]);
      var x := SyncOnce(p, w, times[1]);
      TwoSyncsSettle(p, v, times[0], times[1]);
      InSyncStays(p, x, times[1..][1..]);
      assert SyncAll(p, v, times) == SyncAll(p, x, times[1..][1..]);
      if InSync(p, v) {
        assert MergedConditions(v.status.conditions, p.status.conditions) == v.status.conditions;
      } else {
        WrittenThenInSync(p, v, times[0]);
      }
    }
  }

  /** The virtual scheduler's verdict outlives every sync, from whatever physical pods. */
  function SyncMany(v: Pod, syncs: seq<(Pod, string)>): Pod
    decreases |syncs|
  {
    if syncs == [] then v else SyncMany(SyncOnce(syncs[0].0, v, syncs[0].1), syncs[1..])
  }

  lemma {:induction false} ScheduledNeverReplaced(v: Pod, syncs: seq<(Pod, string)>)
    requires Scheduled(v.status.conditions).Some?
    ensures Scheduled(SyncMany(v, syncs).status.conditions) == Scheduled(v.status.conditions)
    decreases |syncs|
  {
    if syncs != [] {
      MergedScheduled(v.status.conditions, syncs[0].0.status.conditions);
      ScheduledNeverReplaced(SyncOnce(syncs[0].0, v, syncs[0].1), syncs[1..]);
    }
  }
}
