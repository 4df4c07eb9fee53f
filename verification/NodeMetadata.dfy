/**
 Labels, annotations and taints of a virtual node, and the three-way merge that lets
 users add their own: what the controller wanted last time is stored on the node itself,
 so a key the user added can be told from one the controller no longer wants.
 */
module NodeMetadata {
  import opened Wrappers

  const EXPECTED_METADATA := "kubeocean.io/expected-metadata"
  const DELETION_TAINT_TIME := "kubeocean.io/deletion-taint-time"
  const VNODE_DELETING := "kubeocean.io/vnode-deleting"
  const VNODE_DEFAULT := "kubeocean.io/vnode"
  const OUT_OF_TIME_WINDOWS := "kubeocean.io/out-of-time-windows"
  const UNSCHEDULABLE := "node.kubernetes.io/unschedulable"
  const PHYSICAL_UNSCHEDULABLE := "kubeocean.io/physical-node-unschedulable"

  datatype Effect = NoSchedule | PreferNoSchedule | NoExecute

  datatype Taint = Taint(key: string, value: string, effect: Effect, timeAdded: Option<int>)

  /** Annotation text. Encoded(m) is the base64 of the JSON of m; Plain is any text that decodes to no metadata. */
  datatype Text = Plain(text: string) | Encoded(metadata: Metadata)

  datatype Metadata = Metadata(labels: map<string, string>, annotations: map<string, Text>, taints: seq<Taint>)

  const EMPTY := Metadata(map[], map[], [])

  // ---------- Specification of one merge ----------

  /** Current keys win; an existing key is kept only if it was not expected before. */
  function MergedMap<V>(existing: map<string, V>, previous: set<string>, current: map<string, V>,
                        markers: set<string>): map<string, V> {
    current + (map k | k in existing && k !in current && k !in markers && k !in previous :: existing[k])
  }

  function TaintKeys(taints: seq<Taint>): set<string> {
    set i | 0 <= i < |taints| :: taints[i].key
  }

  /** The clock of the out-of-time-windows taint already on the node, if it has one. */
  function WindowClock(taints: seq<Taint>): Option<int> {
    if taints == [] then None
    else if taints[0].key == OUT_OF_TIME_WINDOWS && taints[0].timeAdded.Some? then taints[0].timeAdded
    else WindowClock(taints[1..])
  }

  function KeepClock(clock: Option<int>, t: Taint): Taint {
    if t.key == OUT_OF_TIME_WINDOWS && clock.Some? then t.(timeAdded := clock) else t
  }

  function KeepClocks(clock: Option<int>, taints: seq<Taint>): (r: seq<Taint>)
    ensures |r| == |taints|
    ensures forall i :: 0 <= i < |r| ==> r[i] == KeepClock(clock, taints[i])
  {
    seq(|taints|, i requires 0 <= i < |taints| => KeepClock(clock, taints[i]))
  }

  /** The existing taints whose key is in neither set, in order. */
  function Others(existing: seq<Taint>, excluded: set<string>): seq<Taint> {
    if existing == [] then []
    else if existing[0].key in excluded then Others(existing[1..], excluded)
    else [existing[0]] + Others(existing[1..], excluded)
  }

  function MergedTaints(existing: seq<Taint>, previous: seq<Taint>, current: seq<Taint>): seq<Taint> {
    KeepClocks(WindowClock(existing), current) +
    Others(existing, TaintKeys(previous) + TaintKeys(current) + {VNODE_DELETING})
  }

  /** The metadata that was expected when the node was last written. */
  function Previous(annotations: map<string, Text>): Result<Metadata> {
    if EXPECTED_METADATA !in annotations then Success(EMPTY)
    else match annotations[EXPECTED_METADATA]
      case Plain(_) => Failure("failed to decode expected metadata")
      case Encoded(m) => Success(m)
  }

  predicate Decodable(n: Metadata) {
    Previous(n.annotations).Success?
  }

  /** The node after one reconcile that wants `desired`. */
  function Merge(n: Metadata, desired: Metadata): (m: Metadata)
    requires Decodable(n)
    ensures Previous(m.annotations) == Success(desired)
  {
    var previous := Previous(n.annotations).value;
    Metadata(
      MergedMap(n.labels, previous.labels.Keys, desired.labels, {}),
      MergedMap(n.annotations, previous.annotations.Keys,
                desired.annotations[EXPECTED_METADATA := Encoded(desired)], {DELETION_TAINT_TIME}),
      MergedTaints(n.taints, previous.taints, desired.taints))
  }

  /** What the API server ends up with: status and metadata are one write, the taints a second one. */
  function Round(n: Metadata, desired: Metadata, updateOk: bool, patchOk: bool): Metadata {
    if !Decodable(n) || !updateOk then n
    else
      var merged := Merge(n, desired);
      if patchOk then merged else merged.(taints := n.taints)
  }

  // ---------- The code, in place on a node object ----------

  class Node {
    var labels: map<string, string>
    var annotations: map<string, Text>
    var taints: seq<Taint>

    constructor (m: Metadata)
      ensures Contents() == m
    {
      labels, annotations, taints := m.labels, m.annotations, m.taints;
    }

    ghost function Contents(): Metadata
      reads this
    {
      Metadata(labels, annotations, taints)
    }

    /** What is saved is what the next reconcile reads back, and no other annotation changes. */
    method SaveExpectedMetadata(m: Metadata)
      modifies this`annotations
      ensures Previous(annotations) == Success(m)
      ensures annotations.Keys == old(annotations).Keys + {EXPECTED_METADATA}
      ensures forall k :: k in old(annotations) && k != EXPECTED_METADATA ==> annotations[k] == old(annotations)[k]
    {
      annotations := annotations[EXPECTED_METADATA := Encoded(m)];
    }

    method MergeLabels(existing: Node, previous: map<string, string>, current: map<string, string>)
      requires existing != this
      requires labels == current
      modifies this`labels
      ensures labels == MergedMap(existing.labels, previous.Keys, current, {})
    {
      var rest := existing.labels.Keys;
      MergedMapStart(existing.labels, previous.Keys, current, {});
      while rest != {}
        invariant rest <= existing.labels.Keys
        invariant labels == MergedMap(Except(existing.labels, rest), previous.Keys, current, {})
        decreases rest
      {
        var key :| key in rest;
        MergedMapStep(existing.labels, rest, key, previous.Keys, current, {});
        rest := rest - {key};
        if key in current {
          continue;
        }
        if key !in previous {
          labels := labels[key := existing.labels[key]];
        }
      }
      assert Except(existing.labels, {}) == existing.labels;
    }

    method MergeAnnotations(existing: Node, previous: map<string, Text>, current: map<string, Text>)
      requires existing != this
      requires annotations.Keys == current.Keys
      modifies this`annotations
      ensures annotations == MergedMap(existing.annotations, previous.Keys, current, {DELETION_TAINT_TIME})
    {
      var rest := current.Keys;
      while rest != {}
        invariant rest <= current.Keys && annotations.Keys == current.Keys
        invariant forall k :: k in current && k !in rest ==> annotations[k] == current[k]
        decreases rest
      {
        var key :| key in rest;
        rest := rest - {key};
        annotations := annotations[key := current[key]];
      }
      assert annotations == current;
      AddUserAnnotations(existing, previous, current);
    }

    method AddUserAnnotations(existing: Node, previous: map<string, Text>, current: map<string, Text>)
      requires existing != this
      requires annotations == current
      modifies this`annotations
      ensures annotations == MergedMap(existing.annotations, previous.Keys, current, {DELETION_TAINT_TIME})
    {
      var rest := existing.annotations.Keys;
      MergedMapStart(existing.annotations, previous.Keys, current, {DELETION_TAINT_TIME});
      while rest != {}
        invariant rest <= existing.annotations.Keys
        invariant annotations == MergedMap(Except(existing.annotations, rest), previous.Keys, current,
                                           {DELETION_TAINT_TIME})
        decreases rest
      {
        var key :| key in rest;
        MergedMapStep(existing.annotations, rest, key, previous.Keys, current, {DELETION_TAINT_TIME});
        rest := rest - {key};
        if key in current || key == DELETION_TAINT_TIME {
          continue;
        }
        if key !in previous {
          annotations := annotations[key := existing.annotations[key]];
        }
      }
      assert Except(existing.annotations, {}) == existing.annotations;
    }

    method MergeTaints(existing: Node, previous: seq<Taint>, current: seq<Taint>)
      requires existing != this
      modifies this`taints
      ensures taints == MergedTaints(existing.taints, previous, current)
    {
      taints := current;
      KeepWindowClock(existing);
      ghost var kept := taints;
      ghost var excluded := TaintKeys(previous) + TaintKeys(current) + {VNODE_DELETING};
      for i := 0 to |existing.taints|
        invariant taints == kept + Others(existing.taints[..i], excluded)
      {
        OthersSnoc(existing.taints[..i], existing.taints[i], excluded);
        assert existing.taints[..i + 1] == existing.taints[..i] + [existing.taints[i]];
        var taint := existing.taints[i];
        if HasKey(current, taint.key) || taint.key == VNODE_DELETING {
          continue;
        }
        if !HasKey(previous, taint.key) {
          taints := taints + [taint];
        }
      }
      assert existing.taints[..|existing.taints|] == existing.taints;
    }

    /** The grace period of the out-of-time-windows taint must not start anew on each reconcile. */
    method KeepWindowClock(existing: Node)
      requires existing != this
      modifies this`taints
      ensures taints == KeepClocks(WindowClock(existing.taints), old(taints))
    {
      ghost var clock := WindowClock(existing.taints);
      var n := |taints|;
      for i := 0 to n
        invariant |taints| == n == |old(taints)|
        invariant forall k :: 0 <= k < i ==> taints[k] == KeepClock(clock, old(taints)[k])
        invariant forall k :: i <= k < n ==> taints[k] == old(taints)[k]
      {
        if taints[i].key == OUT_OF_TIME_WINDOWS {
          var j := FindClock(existing.taints);
          if j < |existing.taints| {
            taints := taints[i := taints[i].(timeAdded := existing.taints[j].timeAdded)];
          }
        }
      }
    }

    /** Merges the user's additions on `existing` into this freshly built node. */
    method PreserveUserCustomizations(existing: Node) returns (r: Result<()>)
      requires existing != this
      requires EXPECTED_METADATA in annotations
      modifies this
      ensures r.Success? <==> Decodable(old(existing.Contents()))
      ensures r.Success? ==>
              var previous := Previous(old(existing.annotations)).value;
              && labels == MergedMap(old(existing.labels), previous.labels.Keys, old(labels), {})
              && annotations == MergedMap(old(existing.annotations), previous.annotations.Keys, old(annotations),
                                          {DELETION_TAINT_TIME})
              && taints == MergedTaints(old(existing.taints), previous.taints, old(taints))
    {
      var previous := Previous(existing.annotations);
      if previous.Failure? {
        return Failure(previous.error);
      }
      var current := Metadata(labels, annotations, taints);
      SaveExpectedMetadata(current);
      MergeLabels(existing, previous.value.labels, current.labels);
      MergeAnnotations(existing, previous.value.annotations, current.annotations);
      MergeTaints(existing, previous.value.taints, current.taints);
      return Success(());
    }

    /** One reconcile of this (stored) node toward `desired`. */
    method Update(desired: Metadata, updateOk: bool, patchOk: bool) returns (r: Result<()>)
      modifies this
      ensures Contents() == Round(old(Contents()), desired, updateOk, patchOk)
      ensures r.Success? <==>
              && Decodable(old(Contents())) && updateOk
              && (patchOk || old(taints) == Merge(old(Contents()), desired).taints)
    {
      var node := new Node(desired);
      node.SaveExpectedMetadata(desired);
      SavedMetadata(desired.annotations, node.annotations, desired);
      r := node.PreserveUserCustomizations(this);
      if r.Failure? {
        return;
      }
      if !updateOk {
        return Failure("failed to update virtual node status");
      }
      labels, annotations := node.labels, node.annotations;
      if taints != node.taints {
        if !patchOk {
          return Failure("failed to patch virtual node");
        }
        taints := node.taints;
      }
    }
  }

  /** Reading back what was saved fixes the annotations. */
  lemma SavedMetadata(before: map<string, Text>, after: map<string, Text>, m: Metadata)
    requires Previous(after) == Success(m) && after.Keys == before.Keys + {EXPECTED_METADATA}
    requires forall k :: k in before && k != EXPECTED_METADATA ==> after[k] == before[k]
    ensures after == before[EXPECTED_METADATA := Encoded(m)]
  {
  }

  method FindClock(taints: seq<Taint>) returns (j: nat)
    ensures j <= |taints|
    ensures j < |taints| ==> WindowClock(taints) == taints[j].timeAdded && taints[j].timeAdded.Some?
    ensures j == |taints| ==> WindowClock(taints) == None
  {
    j := 0;
    while j < |taints| && !(taints[j].key == OUT_OF_TIME_WINDOWS && taints[j].timeAdded.Some?)
      invariant j <= |taints|
      invariant WindowClock(taints) == WindowClock(taints[j..])
    {
      assert taints[j..][1..] == taints[j + 1..];
      j := j + 1;
    }
  }

  function Except<V>(m: map<string, V>, rest: set<string>): map<string, V> {
    map k | k in m && k !in rest :: m[k]
  }

  lemma MergedMapStart<V>(existing: map<string, V>, previous: set<string>, current: map<string, V>,
                          markers: set<string>)
    ensures MergedMap(Except(existing, existing.Keys), previous, current, markers) == current
  {
  }

  lemma MergedMapStep<V>(existing: map<string, V>, rest: set<string>, key: string, previous: set<string>,
                         current: map<string, V>, markers: set<string>)
    requires key in rest && rest <= existing.Keys
    ensures MergedMap(Except(existing, rest - {key}), previous, current, markers) ==
            var before := MergedMap(Except(existing, rest), previous, current, markers);
            if key in current || key in markers || key in previous then before else before[key := existing[key]]
  {
  }

  predicate HasKey(taints: seq<Taint>, key: string)
    ensures HasKey(taints, key) <==> key in TaintKeys(taints)
  {
    exists i :: 0 <= i < |taints| && taints[i].key == key
  }

  lemma {:induction false} OthersSnoc(ts: seq<Taint>, t: Taint, excluded: set<string>)
    ensures Others(ts + [t], excluded) == Others(ts, excluded) + if t.key in excluded then [] else [t]
  {
    if ts == [] {
      assert ts + [t] == [t];
    } else {
      OthersSnoc(ts[1..], t, excluded);
      assert (ts + [t])[1..] == ts[1..] + [t];
    }
  }

  // ---------- What a run of reconciles keeps ----------

  /** One reconcile: what it wants, and which of its two writes succeed. */
  datatype Attempt = Attempt(desired: Metadata, updateOk: bool, patchOk: bool)

  function Apply(n: Metadata, a: Attempt): (m: Metadata)
    ensures Decodable(n) ==> Decodable(m)
  {
    Round(n, a.desired, a.updateOk, a.patchOk)
  }

  function Run(n: Metadata, attempts: seq<Attempt>): (m: Metadata)
    ensures Decodable(n) ==> Decodable(m)
  {
    if attempts == [] then n else Apply(Run(n, attempts[..|attempts| - 1]), attempts[|attempts| - 1])
  }

  /** The metadata that the last successful update wanted. */
  function LastWritten(n: Metadata, attempts: seq<Attempt>): Metadata
    requires Decodable(n)
  {
    if attempts == [] then Previous(n.annotations).value
    else
      var last := attempts[|attempts| - 1];
      if last.updateOk then last.desired else LastWritten(n, attempts[..|attempts| - 1])
  }

  /** The last successful update, if there was one. */
  function LastUpdate(attempts: seq<Attempt>): (i: int)
    ensures -1 <= i < |attempts|
    ensures i >= 0 ==> attempts[i].updateOk
  {
    if attempts == [] then -1
    else if attempts[|attempts| - 1].updateOk then |attempts| - 1
    else LastUpdate(attempts[..|attempts| - 1])
  }

  /** The taints with one key, in order. */
  function WithKey(ts: seq<Taint>, key: string): seq<Taint> {
    if ts == [] then []
    else (if ts[0].key == key then [ts[0]] else []) + WithKey(ts[1..], key)
  }

  /** The node has the labels and annotations that `d` asks for, and remembers exactly `d`. */
  ghost predicate Carries(n: Metadata, d: Metadata) {
    && EXPECTED_METADATA in n.annotations && n.annotations[EXPECTED_METADATA] == Encoded(d)
    && (forall k :: k in d.labels ==> k in n.labels && n.labels[k] == d.labels[k])
    && (forall k :: k in d.annotations && k != EXPECTED_METADATA ==>
          k in n.annotations && n.annotations[k] == d.annotations[k])
  }

  /** The node has the taints that `d` asks for, the time of the window taint excepted. */
  ghost predicate CarriesTaints(n: Metadata, d: Metadata) {
    && |d.taints| <= |n.taints|
    && (forall i :: 0 <= i < |d.taints| ==>
          || n.taints[i] == d.taints[i]
          || (d.taints[i].key == OUT_OF_TIME_WINDOWS &&
              n.taints[i] == d.taints[i].(timeAdded := n.taints[i].timeAdded)))
  }

  lemma RunAppend(n: Metadata, attempts: seq<Attempt>, a: Attempt)
    ensures Run(n, attempts + [a]) == Apply(Run(n, attempts), a)
  {
    assert (attempts + [a])[..|attempts|] == attempts;
  }

  lemma MergeCarries(n: Metadata, d: Metadata)
    requires Decodable(n)
    ensures Carries(Merge(n, d), d) && CarriesTaints(Merge(n, d), d)
  {
    var m := Merge(n, d);
    var kept := KeepClocks(WindowClock(n.taints), d.taints);
    forall i | 0 <= i < |d.taints| ensures m.taints[i] == kept[i] {
    }
  }

  /** Over every run the node remembers what the last successful update wanted. */
  lemma {:induction false} RunRemembers(n: Metadata, attempts: seq<Attempt>)
    requires Decodable(n)
    ensures Previous(Run(n, attempts).annotations) == Success(LastWritten(n, attempts))
  {
    if attempts != [] {
      RunRemembers(n, attempts[..|attempts| - 1]);
    }
  }

  /** Over every run the node carries that metadata, and its taints too if their patch succeeded. */
  lemma {:induction false} RunCarriesLast(n: Metadata, attempts: seq<Attempt>)
    requires Decodable(n) && LastUpdate(attempts) >= 0
    ensures var last := attempts[LastUpdate(attempts)];
            && Carries(Run(n, attempts), last.desired)
            && (last.patchOk ==> CarriesTaints(Run(n, attempts), last.desired))
  {
    var before, last := attempts[..|attempts| - 1], attempts[|attempts| - 1];
    if last.updateOk {
      MergeCarries(Run(n, before), last.desired);
    } else {
      RunCarriesLast(n, before);
    }
  }

  /** What the last update wanted and the next one does not is gone, the taints if their patch succeeds. */
  lemma RunDropsStaleKeys(n: Metadata, attempts: seq<Attempt>, now: Attempt)
    requires Decodable(n) && now.updateOk
    ensures var before := LastWritten(n, attempts);
            var f := Run(n, attempts + [now]);
            && (forall k :: k in before.labels && k !in now.desired.labels ==> k !in f.labels)
            && (forall k :: k in before.annotations && k !in now.desired.annotations && k != EXPECTED_METADATA ==>
                  k !in f.annotations)
            && (now.patchOk ==> forall k :: k in TaintKeys(before.taints) && k !in TaintKeys(now.desired.taints) ==>
                  WithKey(f.taints, k) == [])
  {
    var m := Run(n, attempts);
    RunAppend(n, attempts, now);
    RunRemembers(n, attempts);
    var before := LastWritten(n, attempts);
    forall k | k in TaintKeys(before.taints) && k !in TaintKeys(now.desired.taints)
      ensures WithKey(Merge(m, now.desired).taints, k) == []
    {
      MergedWithKey(m.taints, before.taints, now.desired.taints, k);
    }
  }

  lemma {:induction false} WithKeyConcat(a: seq<Taint>, b: seq<Taint>, key: string)
    ensures WithKey(a + b, key) == WithKey(a, key) + WithKey(b, key)
  {
    if a == [] {
      assert a + b == b;
    } else {
      assert (a + b)[1..] == a[1..] + b && (a + b)[0] == a[0];
      WithKeyConcat(a[1..], b, key);
      var head := if a[0].key == key then [a[0]] else [];
      assert head + (WithKey(a[1..], key) + WithKey(b, key)) == (head + WithKey(a[1..], key)) + WithKey(b, key);
    }
  }

  lemma {:induction false} WithKeyAbsent(ts: seq<Taint>, key: string)
    requires key !in TaintKeys(ts)
    ensures WithKey(ts, key) == []
  {
    if ts != [] {
      assert ts[0].key in TaintKeys(ts);
      forall k | k in TaintKeys(ts[1..]) ensures k in TaintKeys(ts) {
        var i :| 0 <= i < |ts[1..]| && ts[1..][i].key == k;
        assert ts[i + 1].key == k;
      }
      WithKeyAbsent(ts[1..], key);
    }
  }

  lemma {:induction false} OthersWithKey(ts: seq<Taint>, excluded: set<string>, key: string)
    ensures WithKey(Others(ts, excluded), key) == if key in excluded then [] else WithKey(ts, key)
  {
    if ts != [] {
      OthersWithKey(ts[1..], excluded, key);
      if ts[0].key !in excluded {
        assert Others(ts, excluded)[1..] == Others(ts[1..], excluded);
      }
    }
  }

  /** A key that is not desired now keeps its taints exactly if it was not expected either. */
  lemma MergedWithKey(existing: seq<Taint>, previous: seq<Taint>, current: seq<Taint>, key: string)
    requires key !in TaintKeys(current)
    ensures WithKey(MergedTaints(existing, previous, current), key) ==
            if key in TaintKeys(previous) || key == VNODE_DELETING then [] else WithKey(existing, key)
  {
    var kept := KeepClocks(WindowClock(existing), current);
    forall k | k in TaintKeys(kept) ensures k in TaintKeys(current) {
      var i :| 0 <= i < |kept| && kept[i].key == k;
      assert current[i].key == k;
    }
    WithKeyAbsent(kept, key);
    var excluded := TaintKeys(previous) + TaintKeys(current) + {VNODE_DELETING};
    OthersWithKey(existing, excluded, key);
    WithKeyConcat(kept, Others(existing, excluded), key);
  }

  predicate NeverLabel(attempts: seq<Attempt>, key: string) {
    forall i :: 0 <= i < |attempts| ==> key !in attempts[i].desired.labels
  }

  predicate NeverAnnotation(attempts: seq<Attempt>, key: string) {
    key != EXPECTED_METADATA && forall i :: 0 <= i < |attempts| ==> key !in attempts[i].desired.annotations
  }

  predicate NeverTaint(attempts: seq<Attempt>, key: string) {
    forall i :: 0 <= i < |attempts| ==> key !in TaintKeys(attempts[i].desired.taints)
  }

  /** Some reconcile of the run got its taints written. */
  predicate SomePatch(attempts: seq<Attempt>) {
    exists i :: 0 <= i < |attempts| && attempts[i].updateOk && attempts[i].patchOk
  }

  /** A label the user added survives every run that never wants its key. */
  lemma {:induction false} UserLabelSurvives(n: Metadata, attempts: seq<Attempt>, key: string)
    requires Decodable(n) && NeverLabel(attempts, key)
    requires key in n.labels && key !in Previous(n.annotations).value.labels
    ensures key in Run(n, attempts).labels && Run(n, attempts).labels[key] == n.labels[key]
    ensures key !in LastWritten(n, attempts).labels
  {
    if attempts != [] {
      var before := attempts[..|attempts| - 1];
      assert key !in attempts[|attempts| - 1].desired.labels;
      UserLabelSurvives(n, before, key);
      RunRemembers(n, before);
    }
  }

  /** So does an annotation, unless it is the deletion marker, which the first successful update drops. */
  lemma {:induction false} UserAnnotationSurvives(n: Metadata, attempts: seq<Attempt>, key: string)
    requires Decodable(n) && NeverAnnotation(attempts, key)
    requires key in n.annotations && key !in Previous(n.annotations).value.annotations
    ensures key in Run(n, attempts).annotations <==> key != DELETION_TAINT_TIME || LastUpdate(attempts) < 0
    ensures key in Run(n, attempts).annotations ==> Run(n, attempts).annotations[key] == n.annotations[key]
    ensures key !in LastWritten(n, attempts).annotations
  {
    if attempts != [] {
      var before := attempts[..|attempts| - 1];
      assert key !in attempts[|attempts| - 1].desired.annotations;
      UserAnnotationSurvives(n, before, key);
      RunRemembers(n, before);
    }
  }

  lemma {:induction false} MarkerStaysAway(n: Metadata, attempts: seq<Attempt>)
    requires Decodable(n) && DELETION_TAINT_TIME !in n.annotations && NeverAnnotation(attempts, DELETION_TAINT_TIME)
    ensures DELETION_TAINT_TIME !in Run(n, attempts).annotations
  {
    if attempts != [] {
      assert DELETION_TAINT_TIME !in attempts[|attempts| - 1].desired.annotations;
      MarkerStaysAway(n, attempts[..|attempts| - 1]);
    }
  }

  /** The user's taints with a key survive, all of them and in order, unless it is the deletion taint. */
  lemma {:induction false} UserTaintSurvives(n: Metadata, attempts: seq<Attempt>, key: string)
    requires Decodable(n) && NeverTaint(attempts, key)
    requires key !in TaintKeys(Previous(n.annotations).value.taints)
    ensures WithKey(Run(n, attempts).taints, key) ==
            if key == VNODE_DELETING && SomePatch(attempts) then [] else WithKey(n.taints, key)
    ensures key !in TaintKeys(LastWritten(n, attempts).taints)
  {
    if attempts != [] {
      var before, last := attempts[..|attempts| - 1], attempts[|attempts| - 1];
      assert key !in TaintKeys(last.desired.taints);
      UserTaintSurvives(n, before, key);
      RunRemembers(n, before);
      SomePatchSnoc(before, last);
      assert attempts == before + [last];
      MergedWithKey(Run(n, before).taints, LastWritten(n, before).taints, last.desired.taints, key);
    }
  }

  lemma SomePatchSnoc(attempts: seq<Attempt>, last: Attempt)
    ensures SomePatch(attempts + [last]) <==> SomePatch(attempts) || (last.updateOk && last.patchOk)
  {
    var all := attempts + [last];
    if i :| 0 <= i < |attempts| && attempts[i].updateOk && attempts[i].patchOk {
      assert all[i] == attempts[i];
    }
    assert all[|attempts|] == last;
  }

  // ---------- Merging again changes nothing ----------

  ghost predicate OneWindowTaint(ts: seq<Taint>) {
    forall i, j :: 0 <= i < |ts| && 0 <= j < |ts| ==>
      ts[i].key == OUT_OF_TIME_WINDOWS && ts[j].key == OUT_OF_TIME_WINDOWS ==> i == j
  }

  lemma {:induction false} WindowClockWithKey(ts: seq<Taint>)
    ensures WindowClock(ts) == WindowClock(WithKey(ts, OUT_OF_TIME_WINDOWS))
  {
    if ts != [] {
      WindowClockWithKey(ts[1..]);
      var head := if ts[0].key == OUT_OF_TIME_WINDOWS then [ts[0]] else [];
      WindowClockConcat(head, WithKey(ts[1..], OUT_OF_TIME_WINDOWS));
    }
  }

  lemma {:induction false} WindowClockConcat(a: seq<Taint>, b: seq<Taint>)
    ensures WindowClock(a + b) == if WindowClock(a).Some? then WindowClock(a) else WindowClock(b)
  {
    if a == [] {
      assert a + b == b;
    } else {
      WindowClockConcat(a[1..], b);
      assert (a + b)[1..] == a[1..] + b;
    }
  }

  lemma {:induction false} KeptClock(clock: Option<int>, ts: seq<Taint>)
    requires OneWindowTaint(ts)
    ensures var kept := KeepClocks(clock, ts); KeepClocks(WindowClock(kept), kept) == kept
    ensures var kept := KeepClocks(clock, ts);
            forall i :: 0 <= i < |kept| && kept[i].key == OUT_OF_TIME_WINDOWS ==> WindowClock(kept) == kept[i].timeAdded
  {
    var kept := KeepClocks(clock, ts);
    forall i | 0 <= i < |kept| && kept[i].key == OUT_OF_TIME_WINDOWS
      ensures WindowClock(kept) == kept[i].timeAdded
    {
      assert ts[i].key == OUT_OF_TIME_WINDOWS;
      forall j | 0 <= j < |kept| && kept[j].key == OUT_OF_TIME_WINDOWS ensures j == i {
        assert ts[j].key == OUT_OF_TIME_WINDOWS;
      }
      WindowClockAt(kept, i);
    }
  }

  lemma {:induction false} WindowClockAt(ts: seq<Taint>, i: nat)
    requires i < |ts| && ts[i].key == OUT_OF_TIME_WINDOWS
    requires forall j :: 0 <= j < |ts| && ts[j].key == OUT_OF_TIME_WINDOWS ==> j == i
    ensures WindowClock(ts) == ts[i].timeAdded
  {
    if i > 0 {
      assert ts[0].key != OUT_OF_TIME_WINDOWS;
      WindowClockAt(ts[1..], i - 1);
    } else {
      forall j | 0 <= j < |ts[1..]| ensures ts[1..][j].key != OUT_OF_TIME_WINDOWS {
        assert ts[1..][j] == ts[j + 1];
      }
      NoClock(ts[1..]);
    }
  }

  lemma {:induction false} NoClock(ts: seq<Taint>)
    requires forall j :: 0 <= j < |ts| ==> ts[j].key != OUT_OF_TIME_WINDOWS
    ensures WindowClock(ts) == None
  {
    if ts != [] {
      NoClock(ts[1..]);
    }
  }

  lemma {:induction false} OthersIdempotent(ts: seq<Taint>, wide: set<string>, narrow: set<string>)
    requires narrow <= wide
    ensures Others(Others(ts, wide), narrow) == Others(ts, wide)
  {
    if ts != [] {
      OthersIdempotent(ts[1..], wide, narrow);
      if ts[0].key !in wide {
        assert Others(ts, wide)[1..] == Others(ts[1..], wide);
      }
    }
  }

  lemma {:induction false} OthersExcluded(a: seq<Taint>, b: seq<Taint>, excluded: set<string>)
    requires forall i :: 0 <= i < |a| ==> a[i].key in excluded
    ensures Others(a + b, excluded) == Others(b, excluded)
  {
    if a == [] {
      assert a + b == b;
    } else {
      OthersExcluded(a[1..], b, excluded);
      assert (a + b)[1..] == a[1..] + b;
    }
  }

  lemma MergedMapIdempotent<V>(existing: map<string, V>, previous: set<string>, current: map<string, V>,
                               expected: set<string>, markers: set<string>)
    requires expected <= current.Keys
    ensures var m := MergedMap(existing, previous, current, markers); MergedMap(m, expected, current, markers) == m
  {
  }

  lemma MergedTaintsIdempotent(existing: seq<Taint>, previous: seq<Taint>, current: seq<Taint>)
    requires OneWindowTaint(current)
    ensures var m := MergedTaints(existing, previous, current); MergedTaints(m, current, current) == m
  {
    var kept := KeepClocks(WindowClock(existing), current);
    var wide := TaintKeys(previous) + TaintKeys(current) + {VNODE_DELETING};
    var narrow := TaintKeys(current) + TaintKeys(current) + {VNODE_DELETING};
    var users := Others(existing, wide);
    var m := kept + users;
    forall i | 0 <= i < |kept| ensures kept[i].key in narrow {
      assert current[i].key in TaintKeys(current);
    }
    OthersExcluded(kept, users, narrow);
    OthersIdempotent(existing, wide, narrow);
    KeptClock(WindowClock(existing), current);
    WindowClockConcat(kept, users);
    forall i | 0 <= i < |current|
      ensures KeepClock(WindowClock(m), current[i]) == kept[i]
    {
      if current[i].key == OUT_OF_TIME_WINDOWS {
        assert WindowClock(kept) == kept[i].timeAdded;
        if kept[i].timeAdded.None? {
          assert current[i].key in TaintKeys(current);
          WindowClockOthers(existing, wide);
        }
      }
    }
    assert KeepClocks(WindowClock(m), current) == kept;
  }

  /** A second reconcile that wants the same metadata changes nothing at all. */
  lemma MergeIdempotent(n: Metadata, d: Metadata)
    requires Decodable(n) && OneWindowTaint(d.taints)
    ensures Merge(Merge(n, d), d) == Merge(n, d)
  {
    var previous := Previous(n.annotations).value;
    MergedMapIdempotent(n.labels, previous.labels.Keys, d.labels, d.labels.Keys, {});
    MergedMapIdempotent(n.annotations, previous.annotations.Keys, d.annotations[EXPECTED_METADATA := Encoded(d)],
                        d.annotations.Keys, {DELETION_TAINT_TIME});
    MergedTaintsIdempotent(n.taints, previous.taints, d.taints);
  }

  lemma WindowClockOthers(ts: seq<Taint>, excluded: set<string>)
    requires OUT_OF_TIME_WINDOWS in excluded
    ensures WindowClock(Others(ts, excluded)) == None
  {
    OthersWithKey(ts, excluded, OUT_OF_TIME_WINDOWS);
    WindowClockWithKey(Others(ts, excluded));
  }

  // ---------- A failed taint write ----------

  /**
   The stored metadata is written before the taints. If the second write fails in the round
   that stops wanting a taint, the next round takes the taint for one the user added, and no
   run of rounds that do not want it ever removes it, whatever writes succeed.
   */
  lemma FailedPatchMakesTaintPermanent(n: Metadata, now: Metadata, attempts: seq<Attempt>, key: string)
    requires Decodable(n) && key !in TaintKeys(now.taints) && NeverTaint(attempts, key) && key != VNODE_DELETING
    ensures WithKey(Run(Round(n, now, true, false), attempts).taints, key) == WithKey(n.taints, key)
  {
    var m := Round(n, now, true, false);
    assert Previous(m.annotations) == Success(now);
    UserTaintSurvives(m, attempts, key);
  }

  /** If it succeeds, a taint expected before is removed; that is the exact difference the write makes. */
  lemma StaleTaintRemovedIffPatched(n: Metadata, now: Metadata, attempts: seq<Attempt>, key: string, patchOk: bool)
    requires Decodable(n)
    requires key in TaintKeys(Previous(n.annotations).value.taints) && WithKey(n.taints, key) != []
    requires key !in TaintKeys(now.taints) && NeverTaint(attempts, key) && key != VNODE_DELETING
    ensures WithKey(Run(Round(n, now, true, patchOk), attempts).taints, key) == [] <==> patchOk
  {
    if patchOk {
      var m := Merge(n, now);
      MergedWithKey(n.taints, Previous(n.annotations).value.taints, now.taints, key);
      UserTaintSurvives(m, attempts, key);
    } else {
      FailedPatchMakesTaintPermanent(n, now, attempts, key);
    }
  }

  // ---------- The desired taints ----------

  function TransformedTaint(t: Taint): Taint {
    if t.key == UNSCHEDULABLE then Taint(PHYSICAL_UNSCHEDULABLE, t.value, t.effect, None) else t
  }

  function TransformedPhysical(ts: seq<Taint>): seq<Taint> {
    if ts == [] then []
    else (if ts[0].key == OUT_OF_TIME_WINDOWS then [] else [TransformedTaint(ts[0])]) + TransformedPhysical(ts[1..])
  }

  function WindowTaint(forceReclaim: bool, now: int): Taint {
    Taint(OUT_OF_TIME_WINDOWS, "true", if forceReclaim then NoExecute else NoSchedule, Some(now))
  }

  /** The taints wanted for a physical node; `outside` says that the policy leases nothing now. */
  function Transformed(physical: seq<Taint>, disableDefault: bool, outside: bool, forceReclaim: bool,
                       now: int): seq<Taint> {
    TransformedPhysical(physical) +
    (if disableDefault then [] else [Taint(VNODE_DEFAULT, "", NoSchedule, None)]) +
    (if outside then [WindowTaint(forceReclaim, now)] else [])
  }

  lemma {:induction false} TransformedPhysicalSnoc(ts: seq<Taint>, t: Taint)
    ensures TransformedPhysical(ts + [t]) ==
            TransformedPhysical(ts) + if t.key == OUT_OF_TIME_WINDOWS then [] else [TransformedTaint(t)]
  {
    if ts == [] {
      assert ts + [t] == [t];
    } else {
      assert (ts + [t])[1..] == ts[1..] + [t] && (ts + [t])[0] == ts[0];
      TransformedPhysicalSnoc(ts[1..], t);
      var head := if ts[0].key == OUT_OF_TIME_WINDOWS then [] else [TransformedTaint(ts[0])];
      var last := if t.key == OUT_OF_TIME_WINDOWS then [] else [TransformedTaint(t)];
      assert head + (TransformedPhysical(ts[1..]) + last) == (head + TransformedPhysical(ts[1..])) + last;
    }
  }

  method TransformTaints(physical: seq<Taint>, disableDefault: bool, outside: bool, forceReclaim: bool, now: int)
    returns (r: seq<Taint>)
    ensures r == Transformed(physical, disableDefault, outside, forceReclaim, now)
  {
    r := [];
    for i := 0 to |physical|
      invariant r == TransformedPhysical(physical[..i])
    {
      TransformedPhysicalSnoc(physical[..i], physical[i]);
      assert physical[..i + 1] == physical[..i] + [physical[i]];
      var t := physical[i];
      if t.key == OUT_OF_TIME_WINDOWS {
        continue;
      }
      if t.key == UNSCHEDULABLE {
        r := r + [Taint(PHYSICAL_UNSCHEDULABLE, t.value, t.effect, None)];
      } else {
        r := r + [t];
      }
    }
    assert physical[..|physical|] == physical;
    if !disableDefault {
      r := r + [Taint(VNODE_DEFAULT, "", NoSchedule, None)];
    }
    if outside {
      r := r + [Taint(OUT_OF_TIME_WINDOWS, "true", if forceReclaim then NoExecute else NoSchedule, Some(now))];
    }
  }

  lemma {:induction false} TransformedPhysicalKeys(ts: seq<Taint>)
    ensures forall i :: 0 <= i < |TransformedPhysical(ts)| ==> TransformedPhysical(ts)[i].key != OUT_OF_TIME_WINDOWS
  {
    if ts != [] {
      TransformedPhysicalKeys(ts[1..]);
      assert PHYSICAL_UNSCHEDULABLE[13] != OUT_OF_TIME_WINDOWS[13];
    }
  }

  /** Whatever taints the physical node has, the window taint is wanted once when outside and not at all inside. */
  lemma TransformedWindowTaint(physical: seq<Taint>, disableDefault: bool, outside: bool, forceReclaim: bool, now: int)
    ensures var ts := Transformed(physical, disableDefault, outside, forceReclaim, now);
            && OneWindowTaint(ts)
            && WithKey(ts, OUT_OF_TIME_WINDOWS) ==
               if outside then [WindowTaint(forceReclaim, now)] else []
  {
    var byDefault := if disableDefault then [] else [Taint(VNODE_DEFAULT, "", NoSchedule, None)];
    var head := TransformedPhysical(physical) + byDefault;
    var ts := Transformed(physical, disableDefault, outside, forceReclaim, now);
    TransformedPhysicalKeys(physical);
    assert |VNODE_DEFAULT| != |OUT_OF_TIME_WINDOWS|;
    assert forall i :: 0 <= i < |head| ==> head[i].key != OUT_OF_TIME_WINDOWS;
    WithKeyAbsent(head, OUT_OF_TIME_WINDOWS);
    WithKeyConcat(head, ts[|head|..], OUT_OF_TIME_WINDOWS);
    assert ts == head + ts[|head|..];
  }

  /** What a taint of the physical node becomes on the virtual node. */
  predicate Becomes(t: Taint, q: Taint) {
    && t.key != "kubeocean.io/out-of-time-windows"
    && (if t.key == "node.kubernetes.io/unschedulable"
        then q == Taint("kubeocean.io/physical-node-unschedulable", t.value, t.effect, None)
        else q == t)
  }

  lemma {:induction false} PhysicalTaintsBecome(ts: seq<Taint>, q: Taint)
    ensures q in TransformedPhysical(ts) <==> exists t :: t in ts && Becomes(t, q)
  {
    if ts != [] {
      PhysicalTaintsBecome(ts[1..], q);
      assert ts == [ts[0]] + ts[1..];
      if Becomes(ts[0], q) {
        assert ts[0] in ts;
      }
    }
  }

  lemma {:induction false} PhysicalTaintsCounted(ts: seq<Taint>)
    ensures |TransformedPhysical(ts)| == |ts| - |WithKey(ts, OUT_OF_TIME_WINDOWS)|
  {
    if ts != [] {
      PhysicalTaintsCounted(ts[1..]);
    }
  }

  /**
   The wanted taints: every physical taint but the window taint, unschedulable under kubeocean's own key; the default
   taint unless it is disabled; and outside the windows the window taint, which forbids execution exactly if the
   policy reclaims by force.
   */
  lemma TransformedMeans(physical: seq<Taint>, disableDefault: bool, outside: bool, forceReclaim: bool, now: int,
                         q: Taint)
    ensures q in Transformed(physical, disableDefault, outside, forceReclaim, now) <==>
            || (exists t :: t in physical && Becomes(t, q))
            || (!disableDefault && q == Taint("kubeocean.io/vnode", "", NoSchedule, None))
            || (&& outside && q.key == "kubeocean.io/out-of-time-windows" && q.value == "true"
                && q.effect == (if forceReclaim then NoExecute else NoSchedule) && q.timeAdded == Some(now))
    ensures |Transformed(physical, disableDefault, outside, forceReclaim, now)| ==
            |physical| - |WithKey(physical, "kubeocean.io/out-of-time-windows")| +
            (if disableDefault then 0 else 1) + (if outside then 1 else 0)
  {
    PhysicalTaintsBecome(physical, q);
    PhysicalTaintsCounted(physical);
  }
}
