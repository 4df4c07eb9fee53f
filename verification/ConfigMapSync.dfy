/**
 The ConfigMap reconcilers of any number of clusters at work on one virtual object. Every
 read and every write is a step of its own, so the runs below are all the interleavings of
 the reconcilers with each other, with users and with failing API calls.
 */
module ConfigMapSync {
  import opened Wrappers
  import opened SyncedObjects

  /** The virtual object as the API server stores it; every write gives it a new version. */
  datatype Stored = Stored(obj: Object, deleting: bool, version: nat)

  /** Where a cluster's reconcile of the object stands, with the snapshot it works on. */
  datatype Phase =
    | Idle
    | Registering(snap: Stored)
    | Fetched(snap: Stored)
    | Creating(snap: Stored)
    | DeletingCopy(snap: Stored)
    | Removing(snap: Stored)

  /** A physical copy: the cluster it is in and the name it was made under. */
  datatype Copy = Copy(cluster: string, name: string)

  datatype State = State(
    stored: Option<Stored>,
    copies: set<Copy>,
    needs: set<string>,           // clusters whose pods want the object
    phases: map<string, Phase>,
    podReady: set<string>,        // clusters whose pod controller has registered and will create the copy
    clock: nat)                   // the last version handed out

  /** What the object's name is in the physical clusters, and where each cluster keeps its copies. */
  datatype Names = Names(name: string, namespaces: map<string, string>, bindings: map<string, string>)

  datatype Action =
    | Fetch(cluster: string)
    | WriteRegistration(cluster: string, ok: bool)
    | CheckCopy(cluster: string, found: bool, ok: bool)
    | CreateCopy(cluster: string, ok: bool)
    | DeleteCopy(cluster: string, ok: bool)
    | WriteRemoval(cluster: string, ok: bool)
    | UserCreates(obj: Object)
    | UserEdits(obj: Object)
    | UserDeletes
    | MarkDeleting(cluster: string)
    | Restart(cluster: string)
    | PodNeeds(cluster: string)
    | PodRegisters(cluster: string, ok: bool)
    | PodCreates(cluster: string)

  function PhaseOf(s: State, c: string): Phase {
    if c in s.phases then s.phases[c] else Idle
  }

  function At(s: State, c: string, p: Phase): State {
    s.(phases := s.phases[c := p])
  }

  /** A write of the object; without finalizers a deleting object is gone. */
  function Put(s: State, o: Object, deleting: bool): State {
    var stored := if deleting && o.finalizers == [] then None else Some(Stored(o, deleting, s.clock + 1));
    s.(stored := stored, clock := s.clock + 1)
  }

  /** An update against a snapshot: the API server refuses it when the object has changed since. */
  predicate UpToDate(s: State, snap: Stored) {
    s.stored.Some? && s.stored.value.version == snap.version
  }

  predicate Managed(o: Object, c: string) {
    Get(o.labels, MANAGED_BY) == MANAGED_BY_VALUE && Get(o.labels, SyncedBy(c)) == TRUE
  }

  function NameOf(o: Object): string {
    Get(o.annotations, PHYSICAL_NAME)
  }

  /** The copy that a cluster looks for: the object's annotation names it. */
  function CopyOf(snap: Stored, c: string): Copy {
    Copy(c, NameOf(snap.obj))
  }

  predicate LacksRegistration(o: Object, c: string) {
    !Managed(o, c) || NameOf(o) == "" || Finalizer(c) !in o.finalizers
  }

  /** The first part of a reconcile: what it decides from the object it has read. */
  function AfterFetch(s: State, c: string): State {
    match s.stored
    case None => s.(needs := s.needs - {c})
    case Some(snap) =>
      if !Managed(snap.obj, c) && c !in s.needs then s
      else if c in s.needs && LacksRegistration(snap.obj, c) then At(s, c, Registering(snap))
      else if NameOf(snap.obj) == "" then s
      else At(s, c, Fetched(snap))
  }

  predicate GivenUp(names: Names, snap: Stored, c: string) {
    || snap.deleting
    || (&& c in names.bindings && DeletingMark(c) in snap.obj.annotations
        && snap.obj.annotations[DeletingMark(c)] == names.bindings[c])
  }

  /** The second part: whether a copy exists decides what comes next. */
  function AfterCheck(s: State, names: Names, c: string, snap: Stored, found: bool): State {
    if GivenUp(names, snap, c)
    then At(s.(needs := s.needs - {c}), c, if found then DeletingCopy(snap) else Removing(snap))
    else if found then At(s, c, Idle)
    else At(s, c, Creating(snap))
  }

  /** A user may change the object, its annotations included, but not the finalizers and labels of kubeocean. */
  ghost predicate KeepsMarks(o: Object, o': Object) {
    && (forall c :: Finalizer(c) in o'.finalizers <==> Finalizer(c) in o.finalizers)
    && (forall c :: SyncedBy(c) in o'.labels <==> SyncedBy(c) in o.labels)
    && (forall c :: Get(o'.labels, SyncedBy(c)) == Get(o.labels, SyncedBy(c)))
    && (MANAGED_BY in o'.labels <==> MANAGED_BY in o.labels) && Get(o'.labels, MANAGED_BY) == Get(o.labels, MANAGED_BY)
  }

  function Joined(names: Names, o: Object, c: string): Result<Object> {
    Registered(o, c, names.name, if c in names.namespaces then names.namespaces[c] else "", false)
  }

  predicate ByReconciler(a: Action) {
    a.Fetch? || a.WriteRegistration? || a.CheckCopy? || a.CreateCopy? || a.DeleteCopy? || a.WriteRemoval?
  }

  function ReconcilerStep(names: Names, s: State, a: Action): State
    requires ByReconciler(a)
  {
    match a
    case Fetch(c) => if PhaseOf(s, c).Idle? then AfterFetch(s, c) else s
    case WriteRegistration(c, ok) =>
      if !PhaseOf(s, c).Registering? then s
      else
        var snap := PhaseOf(s, c).snap;
        var r := Joined(names, snap.obj, c);
        At(if ok && UpToDate(s, snap) && r.Success? then Put(s, r.value, snap.deleting) else s, c, Idle)
    case CheckCopy(c, found, ok) =>
      // The cached client may still see a copy that is gone, but absence is confirmed by a direct read.
      if !PhaseOf(s, c).Fetched? || (ok && !found && CopyOf(PhaseOf(s, c).snap, c) in s.copies) then s
      else if !ok then At(s, c, Idle)
      else AfterCheck(s, names, c, PhaseOf(s, c).snap, found)
    case CreateCopy(c, ok) =>
      if !PhaseOf(s, c).Creating? then s
      else At(if ok then s.(copies := s.copies + {CopyOf(PhaseOf(s, c).snap, c)}) else s, c, Idle)
    case DeleteCopy(c, ok) =>
      if !PhaseOf(s, c).DeletingCopy? then s
      else if !ok then At(s, c, Idle)
      else
        var snap := PhaseOf(s, c).snap;
        At(s.(copies := s.copies - {CopyOf(snap, c)}), c, Removing(snap))
    case WriteRemoval(c, ok) =>
      if !PhaseOf(s, c).Removing? then s
      else
        var snap := PhaseOf(s, c).snap;
        At(if ok && UpToDate(s, snap) then Put(s, Unregistered(snap.obj, c), snap.deleting) else s, c, Idle)
  }

  ghost function OtherStep(names: Names, s: State, a: Action): State
    requires !ByReconciler(a)
  {
    match a
    case UserCreates(o) => if s.stored.None? && Counts(o, {}) then Put(s, o, false) else s
    case UserEdits(o) =>
      if s.stored.Some? && KeepsMarks(s.stored.value.obj, o) then Put(s, o, s.stored.value.deleting) else s
    case UserDeletes => if s.stored.Some? then Put(s, s.stored.value.obj, true) else s
    case MarkDeleting(c) =>
      if s.stored.None? || c !in names.bindings then s
      else
        var o := s.stored.value.obj;
        Put(s, o.(annotations := o.annotations[DeletingMark(c) := names.bindings[c]]), s.stored.value.deleting)
    case Restart(c) => At(s.(needs := s.needs - {c}, podReady := s.podReady - {c}), c, Idle)
    case PodNeeds(c) => s.(needs := s.needs + {c})
    case PodRegisters(c, ok) =>
      if !ok || s.stored.None? then s
      else
        var Stored(o, deleting, _) := s.stored.value;
        var r := Joined(names, o, c);
        if r.Failure? then s
        else (if r.value == o then s else Put(s, r.value, deleting)).(podReady := s.podReady + {c})
    case PodCreates(c) =>
      if c !in s.podReady then s
      else s.(copies := s.copies + {Copy(c, names.name)}, podReady := s.podReady - {c})
  }

  ghost function Step(names: Names, s: State, a: Action): State {
    if ByReconciler(a) then ReconcilerStep(names, s, a) else OtherStep(names, s, a)
  }

  ghost function Run(names: Names, s: State, actions: seq<Action>): State {
    if actions == [] then s
    else Step(names, Run(names, s, actions[..|actions| - 1]), actions[|actions| - 1])
  }

  lemma RunSnoc(names: Names, s: State, actions: seq<Action>, a: Action)
    ensures Run(names, s, actions + [a]) == Step(names, Run(names, s, actions), a)
  {
    assert (actions + [a])[..|actions|] == actions;
  }

  lemma RunOne(names: Names, s: State, a: Action)
    ensures Run(names, s, [a]) == Step(names, s, a)
  {
    RunSnoc(names, s, [], a);
    assert [] + [a] == [a];
  }

  lemma {:induction false} RunConcat(names: Names, s: State, first: seq<Action>, second: seq<Action>)
    ensures Run(names, s, first + second) == Run(names, Run(names, s, first), second)
  {
    if second == [] {
      assert first + second == first;
    } else {
      var n := |second| - 1;
      RunConcat(names, s, first, second[..n]);
      assert (first + second)[..|first| + n] == first + second[..n];
    }
  }

  // ---------- The invariant ----------

  ghost predicate Holds(s: State, c: string) {
    s.stored.Some? && Finalizer(c) in s.stored.value.obj.finalizers
  }

  ghost predicate Marked(s: State) {
    s.stored.Some? ==> exists holders :: Counts(s.stored.value.obj, holders)
  }

  /** A snapshot is no newer than the object, and equal to it as long as the version is the same. */
  ghost predicate Snapshot(s: State, snap: Stored) {
    && snap.version <= s.clock
    && (UpToDate(s, snap) ==> s.stored.value == snap)
  }

  ghost predicate PhaseOk(s: State, c: string) {
    match PhaseOf(s, c)
    case Idle => true
    case Registering(snap) => Snapshot(s, snap)
    case _ => Snapshot(s, PhaseOf(s, c).snap) && Holds(s, c)
  }

  /** Every copy has its cluster's finalizer on the object. */
  ghost predicate NoOrphans(s: State) {
    forall copy :: copy in s.copies ==> Holds(s, copy.cluster)
  }

  ghost predicate Inv(s: State) {
    && NoOrphans(s)
    && Marked(s)
    && (s.stored.Some? ==> s.stored.value.version <= s.clock)
    && (s.stored.Some? ==> !(s.stored.value.deleting && s.stored.value.obj.finalizers == []))
    && (forall c :: PhaseOk(s, c))
  }

  /** A write by the cluster that is about to take its finalizer off will still be accepted. */
  predicate AboutToLeave(s: State, c: string) {
    PhaseOf(s, c).Removing? && UpToDate(s, PhaseOf(s, c).snap)
  }

  predicate HasCopy(s: State, c: string) {
    exists copy :: copy in s.copies && copy.cluster == c
  }

  /**
   The two steps at which an orphan can arise: the pod controller makes a copy without the finalizer on
   the object, or a cluster takes its finalizer off while it has a copy under whatever name.
   */
  ghost predicate SafeStep(s: State, a: Action) {
    && (a.PodCreates? && a.cluster in s.podReady ==> Holds(s, a.cluster))
    && (a.WriteRemoval? && a.ok && AboutToLeave(s, a.cluster) ==> !HasCopy(s, a.cluster))
  }

  ghost predicate SafeRun(names: Names, s: State, actions: seq<Action>) {
    forall i :: 0 <= i < |actions| ==> SafeStep(Run(names, s, actions[..i]), actions[i])
  }

  // ---------- Preservation, one kind of step at a time ----------

  /** A write by which nobody loses a finalizer keeps the invariant. */
  lemma PutKeepsInv(s: State, o: Object, deleting: bool)
    requires Inv(s)
    requires exists holders :: Counts(o, holders)
    requires s.stored.Some? ==> forall c :: Holds(s, c) ==> Finalizer(c) in o.finalizers
    requires s.stored.None? ==> !deleting
    ensures Inv(Put(s, o, deleting))
  {
    var s' := Put(s, o, deleting);
    forall c | Holds(s, c) ensures Holds(s', c) {
      assert Finalizer(c) in o.finalizers;
    }
    forall c ensures PhaseOk(s', c) {
      assert PhaseOk(s, c);
    }
  }

  lemma AtKeepsInv(s: State, c: string, p: Phase)
    requires Inv(s) && PhaseOk(At(s, c, p), c)
    ensures Inv(At(s, c, p))
  {
    forall d ensures PhaseOk(At(s, c, p), d) {
      assert PhaseOk(s, d);
    }
  }

  lemma CountedHolder(o: Object, c: string)
    requires exists holders :: Counts(o, holders)
    ensures Managed(o, c) ==> Finalizer(c) in o.finalizers
  {
    var holders :| Counts(o, holders);
    KeysApart(c, c);
  }

  lemma FetchKeepsInv(s: State, c: string)
    requires Inv(s) && PhaseOf(s, c).Idle?
    ensures Inv(AfterFetch(s, c))
  {
    if s.stored.None? {
      var s' := AfterFetch(s, c);
      forall d ensures PhaseOk(s', d) {
        assert PhaseOk(s, d);
      }
    } else {
      CountedHolder(s.stored.value.obj, c);
      var snap := s.stored.value;
      AtKeepsInv(s, c, Registering(snap));
      if Holds(s, c) {
        AtKeepsInv(s, c, Fetched(snap));
      }
    }
  }

  lemma JoinKeepsInv(names: Names, s: State, c: string)
    requires Inv(s) && s.stored.Some? && Joined(names, s.stored.value.obj, c).Success?
    ensures Inv(Put(s, Joined(names, s.stored.value.obj, c).value, s.stored.value.deleting))
  {
    var o := s.stored.value.obj;
    var holders :| Counts(o, holders);
    RegisterCounts(o, holders, c, names.name, if c in names.namespaces then names.namespaces[c] else "", false);
    var o' := Joined(names, o, c).value;
    forall d | Holds(s, d) ensures Finalizer(d) in o'.finalizers {
      assert d in holders;
    }
    PutKeepsInv(s, o', s.stored.value.deleting);
  }

  lemma CheckKeepsInv(names: Names, s: State, c: string, found: bool)
    requires Inv(s) && PhaseOf(s, c).Fetched?
    ensures Inv(AfterCheck(s, names, c, PhaseOf(s, c).snap, found))
  {
    assert PhaseOk(s, c);
    var s0 := s.(needs := s.needs - {c});
    forall d ensures PhaseOk(s0, d) {
      assert PhaseOk(s, d);
    }
    var snap := PhaseOf(s, c).snap;
    AtKeepsInv(s0, c, if found then DeletingCopy(snap) else Removing(snap));
    AtKeepsInv(s, c, Idle);
    AtKeepsInv(s, c, Creating(snap));
  }

  /** Taking a cluster's own finalizer off is safe if its copies are gone. */
  lemma RemovalKeepsInv(s: State, c: string)
    requires Inv(s) && AboutToLeave(s, c)
    ensures var s' := At(Put(s, Unregistered(PhaseOf(s, c).snap.obj, c), PhaseOf(s, c).snap.deleting), c, Idle);
            !Holds(s', c) && s'.copies == s.copies && (!HasCopy(s, c) ==> Inv(s'))
  {
    assert PhaseOk(s, c);
    var snap := PhaseOf(s, c).snap;
    var holders :| Counts(snap.obj, holders);
    UnregisterCounts(snap.obj, holders, c);
    var o := Unregistered(snap.obj, c);
    assert Counts(o, holders - {c});
    var s' := At(Put(s, o, snap.deleting), c, Idle);
    forall d | Holds(s, d) && d != c ensures Holds(s', d) {
      assert d in holders - {c};
      assert Finalizer(d) in o.finalizers;
    }
    forall d ensures PhaseOk(s', d) {
      assert PhaseOk(s, d);
    }
  }

  lemma PodRegistrationKeepsInv(s: State, ready: set<string>)
    requires Inv(s)
    ensures Inv(s.(podReady := ready))
  {
    forall d ensures PhaseOk(s.(podReady := ready), d) {
      assert PhaseOk(s, d);
    }
  }

  lemma CopiesKeepInv(s: State, copies: set<Copy>)
    requires Inv(s)
    requires forall copy :: copy in copies ==> Holds(s, copy.cluster)
    ensures Inv(s.(copies := copies))
  {
    forall d ensures PhaseOk(s.(copies := copies), d) {
      assert PhaseOk(s, d);
    }
  }

  /** Reconciler steps. */
  lemma ReconcileStepKeepsInv(names: Names, s: State, a: Action)
    requires Inv(s) && SafeStep(s, a)
    requires ByReconciler(a)
    ensures Inv(ReconcilerStep(names, s, a))
  {
    var c := a.cluster;
    assert PhaseOk(s, c);
    AtKeepsInv(s, c, Idle);
    match a {
      case Fetch(_) =>
        if PhaseOf(s, c).Idle? {
          FetchKeepsInv(s, c);
        }
      case WriteRegistration(_, ok) =>
        if PhaseOf(s, c).Registering? && UpToDate(s, PhaseOf(s, c).snap) &&
            Joined(names, PhaseOf(s, c).snap.obj, c).Success? {
          JoinKeepsInv(names, s, c);
          AtKeepsInv(Put(s, Joined(names, s.stored.value.obj, c).value, s.stored.value.deleting), c, Idle);
        }
      case CheckCopy(_, found, ok) =>
        if PhaseOf(s, c).Fetched? && ok {
          CheckKeepsInv(names, s, c, found);
        }
      case CreateCopy(_, ok) =>
        if PhaseOf(s, c).Creating? && ok {
          var copy := CopyOf(PhaseOf(s, c).snap, c);
          CopiesKeepInv(s, s.copies + {copy});
          AtKeepsInv(s.(copies := s.copies + {copy}), c, Idle);
        }
      case DeleteCopy(_, ok) =>
        if PhaseOf(s, c).DeletingCopy? && ok {
          var copy := CopyOf(PhaseOf(s, c).snap, c);
          CopiesKeepInv(s, s.copies - {copy});
          AtKeepsInv(s.(copies := s.copies - {copy}), c, Removing(PhaseOf(s, c).snap));
        }
      case WriteRemoval(_, ok) =>
        if ok && AboutToLeave(s, c) {
          RemovalKeepsInv(s, c);
        }
    }
  }

  lemma CountsFollowMarks(o: Object, o': Object, holders: set<string>)
    requires Counts(o, holders) && KeepsMarks(o, o')
    ensures Counts(o', holders)
  {
    forall c | c in holders ensures SyncedBy(c) in o'.labels && o'.labels[SyncedBy(c)] == TRUE {
      assert SyncedBy(c) in o.labels;
    }
  }

  /** Steps of users, of the teardown and of the pod controller. */
  lemma EnvironmentStepKeepsInv(names: Names, s: State, a: Action)
    requires Inv(s) && SafeStep(s, a)
    requires !ByReconciler(a)
    ensures Inv(OtherStep(names, s, a))
  {
    match a {
      case UserCreates(o) =>
        if s.stored.None? && Counts(o, {}) {
          PutKeepsInv(s, o, false);
        }
      case UserEdits(o) =>
        if s.stored.Some? && KeepsMarks(s.stored.value.obj, o) {
          var holders :| Counts(s.stored.value.obj, holders);
          CountsFollowMarks(s.stored.value.obj, o, holders);
          PutKeepsInv(s, o, s.stored.value.deleting);
        }
      case UserDeletes =>
        if s.stored.Some? {
          PutKeepsInv(s, s.stored.value.obj, true);
        }
      case MarkDeleting(c) =>
        if s.stored.Some? && c in names.bindings {
          var o := s.stored.value.obj;
          var holders :| Counts(o, holders);
          var o' := o.(annotations := o.annotations[DeletingMark(c) := names.bindings[c]]);
          assert Counts(o', holders);
          PutKeepsInv(s, o', s.stored.value.deleting);
        }
      case Restart(c) =>
        var forgotten := s.(needs := s.needs - {c}, podReady := s.podReady - {c});
        forall d ensures PhaseOk(forgotten, d) {
          assert PhaseOk(s, d);
        }
        AtKeepsInv(forgotten, c, Idle);
      case PodNeeds(c) =>
        forall d ensures PhaseOk(s.(needs := s.needs + {c}), d) {
          assert PhaseOk(s, d);
        }
      case PodRegisters(c, ok) =>
        if ok && s.stored.Some? && Joined(names, s.stored.value.obj, c).Success? {
          var o' := Joined(names, s.stored.value.obj, c).value;
          JoinKeepsInv(names, s, c);
          PodRegistrationKeepsInv(s, s.podReady + {c});
          PodRegistrationKeepsInv(Put(s, o', s.stored.value.deleting), s.podReady + {c});
        }
      case PodCreates(c) =>
        if c in s.podReady {
          CopiesKeepInv(s, s.copies + {Copy(c, names.name)});
          PodRegistrationKeepsInv(s.(copies := s.copies + {Copy(c, names.name)}), s.podReady - {c});
        }
    }
  }

  lemma StepKeepsInv(names: Names, s: State, a: Action)
    requires Inv(s) && SafeStep(s, a)
    ensures Inv(Step(names, s, a))
  {
    if ByReconciler(a) {
      ReconcileStepKeepsInv(names, s, a);
    } else {
      EnvironmentStepKeepsInv(names, s, a);
    }
  }

  /** A step leaves an orphan exactly if it is not safe. */
  lemma StepSafeIff(names: Names, s: State, a: Action)
    requires Inv(s)
    ensures NoOrphans(Step(names, s, a)) <==> SafeStep(s, a)
  {
    if SafeStep(s, a) {
      StepKeepsInv(names, s, a);
    } else if a.PodCreates? {
      assert Copy(a.cluster, names.name) in Step(names, s, a).copies;
    } else {
      RemovalKeepsInv(s, a.cluster);
      var copy :| copy in s.copies && copy.cluster == a.cluster;
      assert copy in Step(names, s, a).copies;
    }
  }

  // ---------- Main results ----------

  const PLAIN := Object(map[], map[], [])

  const START := State(None, {}, {}, map[], {}, 0)

  lemma SafePrefix(names: Names, s: State, actions: seq<Action>)
    requires SafeRun(names, s, actions) && actions != []
    ensures SafeRun(names, s, actions[..|actions| - 1])
    ensures SafeStep(Run(names, s, actions[..|actions| - 1]), actions[|actions| - 1])
  {
    var before := actions[..|actions| - 1];
    forall i | 0 <= i < |before| ensures SafeStep(Run(names, s, before[..i]), before[i]) {
      assert before[..i] == actions[..i];
    }
  }

  lemma SafeLonger(names: Names, s: State, actions: seq<Action>)
    requires actions != [] && SafeRun(names, s, actions[..|actions| - 1])
    requires SafeStep(Run(names, s, actions[..|actions| - 1]), actions[|actions| - 1])
    ensures SafeRun(names, s, actions)
  {
    var before := actions[..|actions| - 1];
    forall i | 0 <= i < |actions| ensures SafeStep(Run(names, s, actions[..i]), actions[i]) {
      if i < |before| {
        assert before[..i] == actions[..i] && before[i] == actions[i];
      }
    }
  }

  lemma {:induction false} SafeRunKeepsInv(names: Names, actions: seq<Action>)
    requires SafeRun(names, START, actions)
    ensures Inv(Run(names, START, actions))
  {
    if actions != [] {
      SafePrefix(names, START, actions);
      var before := actions[..|actions| - 1];
      SafeRunKeepsInv(names, before);
      StepKeepsInv(names, Run(names, START, before), actions[|actions| - 1]);
    }
  }

  ghost predicate NeverOrphans(names: Names, actions: seq<Action>) {
    forall i :: 0 <= i <= |actions| ==> NoOrphans(Run(names, START, actions[..i]))
  }

  lemma NeverOrphansPrefix(names: Names, actions: seq<Action>)
    requires NeverOrphans(names, actions) && actions != []
    ensures NeverOrphans(names, actions[..|actions| - 1])
  {
    var before := actions[..|actions| - 1];
    forall i | 0 <= i <= |before| ensures NoOrphans(Run(names, START, before[..i])) {
      assert before[..i] == actions[..i];
    }
  }

  lemma {:induction false} OrphanFreeRunIsSafe(names: Names, actions: seq<Action>)
    requires NeverOrphans(names, actions)
    ensures SafeRun(names, START, actions)
  {
    if actions != [] {
      var n := |actions| - 1;
      NeverOrphansPrefix(names, actions);
      OrphanFreeRunIsSafe(names, actions[..n]);
      SafeRunKeepsInv(names, actions[..n]);
      assert actions[..n + 1] == actions;
      assert NoOrphans(Run(names, START, actions[..n + 1]));
      StepSafeIff(names, Run(names, START, actions[..n]), actions[n]);
      SafeLonger(names, START, actions);
    }
  }

  /** Over every interleaving: no copy is ever without its finalizer if and only if every step is safe. */
  lemma NoOrphansIffSafe(names: Names, actions: seq<Action>)
    ensures NeverOrphans(names, actions) <==> SafeRun(names, START, actions)
  {
    if NeverOrphans(names, actions) {
      OrphanFreeRunIsSafe(names, actions);
    }
    if SafeRun(names, START, actions) {
      forall i | 0 <= i <= |actions| ensures NoOrphans(Run(names, START, actions[..i])) {
        SafeRunTo(names, actions, i);
        SafeRunKeepsInv(names, actions[..i]);
      }
    }
  }

  lemma SafeRunTo(names: Names, actions: seq<Action>, n: nat)
    requires SafeRun(names, START, actions) && n <= |actions|
    ensures SafeRun(names, START, actions[..n])
  {
    forall i | 0 <= i < n ensures SafeStep(Run(names, START, actions[..n][..i]), actions[..n][i]) {
      assert actions[..n][..i] == actions[..i];
    }
  }

  /** The virtual object disappears only when no cluster holds a copy of it. */
  lemma VanishesOnlyWithoutCopies(names: Names, actions: seq<Action>, a: Action)
    requires SafeRun(names, START, actions + [a])
    requires Run(names, START, actions).stored.Some? && Run(names, START, actions + [a]).stored.None?
    ensures Run(names, START, actions).copies == {} == Run(names, START, actions + [a]).copies
  {
    var s := Run(names, START, actions);
    var all := actions + [a];
    assert all[..|all| - 1] == actions;
    SafeRunKeepsInv(names, all);
    assert Run(names, START, all) == Step(names, s, a);
    VanishingKeepsCopies(names, s, a);
    assert NoOrphans(Step(names, s, a));
  }

  lemma VanishingKeepsCopies(names: Names, s: State, a: Action)
    requires s.stored.Some? && Step(names, s, a).stored.None?
    ensures Step(names, s, a).copies == s.copies
  {
  }
}
