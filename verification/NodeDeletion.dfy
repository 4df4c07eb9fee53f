/**
 Deleting a virtual node in stages: taint it, mark it deleted, evict its pods, and let it go
 only when nothing active is left on it. Each API call is a step, so other writers, the
 scheduler and the kubelets may act between any two of them.
 */
module NodeDeletion {
  import opened Wrappers

  const VNODE_DELETING := "kubeocean.io/vnode-deleting"
  const VNODE_FINALIZER := "kubeocean.io/vnode"

  datatype PodPhase = Pending | Running | Succeeded | Failed

  datatype Pod = Pod(namespace: string, nodeName: string, phase: PodPhase, deleting: bool, toleratesWindows: bool)

  datatype VNode = VNode(taints: set<string>, unschedulable: bool, deleting: bool, finalizers: set<string>,
                         version: nat)

  datatype Phase =
    | Idle
    | Tainting(snap: VNode)
    | Marking(snap: VNode)
    | Evicting(snap: VNode)
    | Checking(snap: VNode)
    | ReleasingPort(snap: VNode)
    | RemovingFinalizer(snap: VNode)

  datatype State = State(name: string, node: Option<VNode>, pods: map<string, Pod>, portHeld: bool, phase: Phase,
                         clock: nat)

  datatype Action =
    | Begin(ok: bool)
    | AddTaint(ok: bool)
    | CallDelete(ok: bool)
    | Evict(listOk: bool, failing: set<string>)
    | CheckPods(listOk: bool)
    | ReleasePort
    | RemoveFinalizer(ok: bool)
    | Resync(taints: set<string>)
    | UserEdits(taints: set<string>, unschedulable: bool, finalizers: set<string>)
    | UserDeletes
    | PodBound(pod: string, spec: Pod)
    | PodMoves(pod: string, phase: PodPhase, deleting: bool)
    | PodGone(pod: string)

  predicate IsSystem(p: Pod) {
    p.namespace in {"kube-system", "kube-public", "kube-node-lease", "kubeocean-system", "kubeocean-fake"}
  }

  predicate OnNode(s: State, p: Pod) {
    p.nodeName == s.name
  }

  /** A pod that keeps its node alive. */
  predicate Active(s: State, p: Pod) {
    OnNode(s, p) && !IsSystem(p) && (p.phase.Pending? || p.phase.Running?)
  }

  /** A Pending or Running pod on the node that belongs to no system namespace. */
  predicate KeepsNode(p: Pod, node: string) {
    && p.nodeName == node && (p.phase == Pending || p.phase == Running)
    && p.namespace != "kube-system" && p.namespace != "kube-public" && p.namespace != "kube-node-lease"
    && p.namespace != "kubeocean-system" && p.namespace != "kubeocean-fake"
  }

  predicate NoActivePods(s: State) {
    forall n :: n in s.pods ==> !Active(s, s.pods[n])
  }

  predicate HasTaint(n: VNode) {
    VNODE_DELETING in n.taints
  }

  function Put(s: State, n: VNode): State {
    var node := if n.deleting && n.finalizers == {} then None else Some(n.(version := s.clock + 1));
    s.(node := node, clock := s.clock + 1)
  }

  predicate UpToDate(s: State, snap: VNode) {
    s.node.Some? && s.node.value.version == snap.version
  }

  function Tainted(n: VNode): VNode {
    n.(taints := n.taints + {VNODE_DELETING}, unschedulable := true)
  }

  /** Eviction deletes every pod of the node that is not already on its way out. */
  predicate Evictable(s: State, p: Pod, skipTolerating: bool) {
    OnNode(s, p) && !p.deleting && !(skipTolerating && p.toleratesWindows)
  }

  function Evicted(s: State, skipTolerating: bool, failing: set<string>): map<string, Pod> {
    map n | n in s.pods :: EvictedPod(s, n, skipTolerating, failing)
  }

  function EvictedPod(s: State, n: string, skipTolerating: bool, failing: set<string>): Pod
    requires n in s.pods
  {
    if Evictable(s, s.pods[n], skipTolerating) && n !in failing then s.pods[n].(deleting := true) else s.pods[n]
  }

  /**
   An eviction marks every pod of the node whose deletion succeeds, and no other; pods that tolerate the end of the
   windows are spared on request.
   */
  lemma EvictedMeans(s: State, skipTolerating: bool, failing: set<string>)
    ensures Evicted(s, skipTolerating, failing).Keys == s.pods.Keys
    ensures forall n :: n in s.pods ==>
              var p := s.pods[n];
              var hit := p.nodeName == s.name && n !in failing && !(skipTolerating && p.toleratesWindows);
              Evicted(s, skipTolerating, failing)[n] == p.(deleting := p.deleting || hit)
    ensures forall n :: EvictionFails(s, n, skipTolerating, failing) <==>
              && n in s.pods && n in failing && s.pods[n].nodeName == s.name && !s.pods[n].deleting
              && !(skipTolerating && s.pods[n].toleratesWindows)
  {
  }

  predicate EvictionFails(s: State, n: string, skipTolerating: bool, failing: set<string>) {
    n in s.pods && n in failing && Evictable(s, s.pods[n], skipTolerating)
  }

  /** After the taint is on: mark the node deleted, or go on with its pods if it already is. */
  function Next(snap: VNode): Phase {
    if snap.deleting then Evicting(snap) else Marking(snap)
  }

  predicate ByController(a: Action) {
    a.Begin? || a.AddTaint? || a.CallDelete? || a.Evict? || a.CheckPods? || a.ReleasePort? || a.RemoveFinalizer?
  }

  function ControllerStep(s: State, a: Action): State
    requires ByController(a)
  {
    match a
    case Begin(ok) =>
      if !s.phase.Idle? || !ok || s.node.None? then s
      else s.(phase := if HasTaint(s.node.value) then Next(s.node.value) else Tainting(s.node.value))
    case AddTaint(ok) =>
      if !s.phase.Tainting? then s
      else if ok && UpToDate(s, s.phase.snap) then
        var s' := Put(s, Tainted(s.phase.snap));
        s'.(phase := if s'.node.Some? then Next(s'.node.value) else Idle)
      else s.(phase := Idle)
    case CallDelete(ok) =>
      if !s.phase.Marking? then s
      else (if ok && s.node.Some? then Put(s, s.node.value.(deleting := true)) else s).(phase := Idle)
    case Evict(listOk, failing) =>
      if !s.phase.Evicting? then s
      else if !listOk then s.(phase := Idle)
      else
        var failed := exists n :: n in s.pods && EvictionFails(s, n, false, failing);
        s.(pods := Evicted(s, false, failing), phase := if failed then Idle else Checking(s.phase.snap))
    case CheckPods(listOk) =>
      if !s.phase.Checking? then s
      else s.(phase := if listOk && NoActivePods(s) then ReleasingPort(s.phase.snap) else Idle)
    case ReleasePort =>
      if !s.phase.ReleasingPort? then s
      else s.(portHeld := false, phase := RemovingFinalizer(s.phase.snap))
    case RemoveFinalizer(ok) =>
      if !s.phase.RemovingFinalizer? then s
      else if !ok || !UpToDate(s, s.phase.snap) then s.(phase := Idle)
      else
        var snap := s.phase.snap;
        Put(s, snap.(finalizers := snap.finalizers - {VNODE_FINALIZER})).(phase := Idle)
  }

  predicate Progresses(from: PodPhase, to: PodPhase) {
    from == to || from.Pending? || (from.Running? && !to.Pending?)
  }

  /** Everyone else. Pods are not bound to a tainted node, and nobody takes the controller's finalizer off. */
  function OtherStep(s: State, a: Action): State
    requires !ByController(a)
  {
    match a
    case Resync(taints) =>
      // An ordinary reconcile of the same node: it never runs beside its own deletion.
      if !s.phase.Idle? || s.node.None? || s.node.value.deleting then s
      else
        var n := s.node.value;
        var n' := n.(taints := taints - {VNODE_DELETING}, finalizers := n.finalizers + {VNODE_FINALIZER});
        Put(s, n').(portHeld := true)
    case UserEdits(taints, unschedulable, finalizers) =>
      if s.node.None? || (VNODE_FINALIZER in s.node.value.finalizers && VNODE_FINALIZER !in finalizers) then s
      else Put(s, s.node.value.(taints := taints, unschedulable := unschedulable, finalizers := finalizers))
    case UserDeletes => if s.node.None? then s else Put(s, s.node.value.(deleting := true))
    case PodBound(n, p) =>
      if n in s.pods || (OnNode(s, p) && (s.node.None? || HasTaint(s.node.value))) then s
      else s.(pods := s.pods[n := p])
    case PodMoves(n, phase, deleting) =>
      if n !in s.pods || !Progresses(s.pods[n].phase, phase) || (s.pods[n].deleting && !deleting) then s
      else s.(pods := s.pods[n := s.pods[n].(phase := phase, deleting := deleting)])
    case PodGone(n) => s.(pods := s.pods - {n})
  }

  function Step(s: State, a: Action): State {
    if ByController(a) then ControllerStep(s, a) else OtherStep(s, a)
  }

  ghost predicate Trace(states: seq<State>, actions: seq<Action>) {
    && |states| == |actions| + 1
    && forall i :: 0 <= i < |actions| ==> states[i + 1] == Step(states[i], actions[i])
  }

  // ---------- Safety ----------

  ghost predicate Snapshot(s: State, snap: VNode) {
    && snap.version <= s.clock
    && (UpToDate(s, snap) ==> s.node.value == snap)
  }

  ghost predicate PhaseOk(s: State) {
    match s.phase
    case Idle => true
    case Tainting(snap) => Snapshot(s, snap)
    case Marking(snap) => Snapshot(s, snap)
    case Evicting(snap) => Snapshot(s, snap) && HasTaint(snap) && snap.deleting
    case Checking(snap) => Snapshot(s, snap) && HasTaint(snap) && snap.deleting
    case ReleasingPort(snap) =>
      Snapshot(s, snap) && HasTaint(snap) && snap.deleting && (UpToDate(s, snap) ==> NoActivePods(s))
    case RemovingFinalizer(snap) =>
      Snapshot(s, snap) && HasTaint(snap) && snap.deleting && (UpToDate(s, snap) ==> NoActivePods(s)) && !s.portHeld
  }

  ghost predicate Inv(s: State) {
    && (s.node.Some? ==> s.node.value.version <= s.clock)
    && PhaseOk(s)
  }

  lemma ControllerStepKeepsInv(s: State, a: Action)
    requires Inv(s)
    requires ByController(a)
    ensures Inv(ControllerStep(s, a))
  {
  }

  /** While the node is unchanged since the snapshot its taint keeps new pods away. */
  lemma OtherStepKeepsInv(s: State, a: Action)
    requires Inv(s)
    requires !ByController(a)
    ensures Inv(OtherStep(s, a))
  {
    var s' := OtherStep(s, a);
    if NoActivePods(s) && s.node.Some? && HasTaint(s.node.value) && s'.node == s.node {
      NoPodsAppear(s, a);
    }
  }

  lemma NoPodsAppear(s: State, a: Action)
    requires !ByController(a)
    requires NoActivePods(s) && s.node.Some? && HasTaint(s.node.value)
    ensures NoActivePods(OtherStep(s, a))
  {
  }

  lemma {:induction false} TraceKeepsInv(states: seq<State>, actions: seq<Action>, i: nat)
    requires Trace(states, actions) && Inv(states[0]) && i < |states|
    ensures Inv(states[i])
  {
    if i > 0 {
      TraceKeepsInv(states, actions, i - 1);
      var s, a := states[i - 1], actions[i - 1];
      if ByController(a) {
        ControllerStepKeepsInv(s, a);
      } else {
        OtherStepKeepsInv(s, a);
      }
    }
  }

  predicate HasFinalizer(s: State) {
    s.node.Some? && VNODE_FINALIZER in s.node.value.finalizers
  }

  lemma OnlyControllerRemovesFinalizer(s: State, a: Action)
    requires Inv(s) && HasFinalizer(s) && !HasFinalizer(Step(s, a))
    ensures a == RemoveFinalizer(true) && s.phase.RemovingFinalizer? && UpToDate(s, s.phase.snap)
  {
  }

  /**
   On every interleaving the node's finalizer is removed only from a node that is tainted and marked
   deleted, with no active pod on it and its port released.
   */
  lemma DeletionIsSafe(states: seq<State>, actions: seq<Action>, i: nat)
    requires Trace(states, actions) && Inv(states[0]) && i < |actions|
    requires HasFinalizer(states[i]) && !HasFinalizer(states[i + 1])
    ensures "kubeocean.io/vnode-deleting" in states[i].node.value.taints && states[i].node.value.deleting
    ensures forall n :: n in states[i].pods && states[i].pods[n].nodeName == states[i].name ==>
              var p := states[i].pods[n];
              p.phase == Pending || p.phase == Running ==>
                p.namespace in {"kube-system", "kube-public", "kube-node-lease", "kubeocean-system", "kubeocean-fake"}
    ensures !states[i].portHeld
  {
    TraceKeepsInv(states, actions, i);
    OnlyControllerRemovesFinalizer(states[i], actions[i]);
  }

  /** An attempt that could not delete every pod ends there: the node and its port are left for the next one. */
  lemma FailedEvictionEndsAttempt(s: State, listOk: bool, failing: set<string>, n: string)
    requires s.phase.Evicting?
    requires !listOk || (n in s.pods && n in failing && s.pods[n].nodeName == s.name && !s.pods[n].deleting)
    ensures Step(s, Evict(listOk, failing)).phase == Idle
    ensures Step(s, Evict(listOk, failing)) == s.(pods := Step(s, Evict(listOk, failing)).pods, phase := Idle)
    ensures !listOk ==> Step(s, Evict(listOk, failing)).pods == s.pods
  {
    assert listOk ==> EvictionFails(s, n, false, failing);
  }

  // ---------- Progress ----------

  function WithTaint(s: State): State
    requires s.node.Some?
  {
    if HasTaint(s.node.value) then s else Put(s, Tainted(s.node.value))
  }

  function AttemptTainted(t: State): State
    requires t.node.Some?
  {
    if !t.node.value.deleting then Put(t, t.node.value.(deleting := true))
    else
      var e := t.(pods := Evicted(t, false, {}));
      if !NoActivePods(e) then e
      else Put(e.(portHeld := false), e.node.value.(finalizers := e.node.value.finalizers - {VNODE_FINALIZER}))
  }

  lemma AttemptIgnoresPhase(t: State, p: Phase)
    requires t.node.Some?
    ensures AttemptTainted(t.(phase := p)) == AttemptTainted(t).(phase := p)
  {
    assert Evicted(t.(phase := p), false, {}) == Evicted(t, false, {});
  }

  /** One whole reconcile in which every call succeeds and nothing comes in between. */
  function Attempt(s: State): State {
    if s.node.None? then s
    else
      var t := WithTaint(s);
      if t.node.None? then t else AttemptTainted(t)
  }

  ghost function Unmarked(s: State): set<string> {
    set n | n in s.pods && OnNode(s, s.pods[n]) && !s.pods[n].deleting
  }

  ghost function ActivePods(s: State): set<string> {
    set n | n in s.pods && Active(s, s.pods[n])
  }

  /** How much of the deletion is left to do, most significant part first. */
  ghost function Remaining(s: State): (int, int, int, int, int) {
    if s.node.None? then (0, 0, 0, 0, 0)
    else (if HasTaint(s.node.value) then 0 else 1,
          if s.node.value.deleting then 0 else 1,
          |Unmarked(s)|,
          |ActivePods(s)|,
          if VNODE_FINALIZER in s.node.value.finalizers then 1 else 0)
  }

  predicate Less(a: (int, int, int, int, int), b: (int, int, int, int, int)) {
    if a.0 != b.0 then a.0 < b.0
    else if a.1 != b.1 then a.1 < b.1
    else if a.2 != b.2 then a.2 < b.2
    else if a.3 != b.3 then a.3 < b.3
    else a.4 < b.4
  }

  /** Nothing is left for the controller to do but to wait for pods that are on their way out. */
  ghost predicate Waiting(s: State) {
    s.node.Some? && HasTaint(s.node.value) && s.node.value.deleting && Unmarked(s) == {} && !NoActivePods(s)
  }

  lemma EvictionMarksAll(s: State)
    ensures Unmarked(s.(pods := Evicted(s, false, {}))) == {}
    ensures ActivePods(s.(pods := Evicted(s, false, {}))) == ActivePods(s)
    ensures Unmarked(s) == {} ==> Evicted(s, false, {}) == s.pods
  {
    if Unmarked(s) == {} {
      forall n | n in s.pods ensures Evicted(s, false, {})[n] == s.pods[n] {
        assert n !in Unmarked(s);
      }
    }
  }

  /** Every successful reconcile of a node that still has the finalizer gets closer to the end, or can only wait. */
  lemma AttemptProgresses(s: State)
    requires HasFinalizer(s)
    ensures Less(Remaining(Attempt(s)), Remaining(s)) || (Waiting(s) && Attempt(s) == s)
  {
    var t := WithTaint(s);
    assert Unmarked(t) == Unmarked(s) && ActivePods(t) == ActivePods(s);
    if t.node.value.deleting {
      var e := t.(pods := Evicted(t, false, {}));
      EvictionMarksAll(t);
      if Unmarked(s) != {} {
        assert |Unmarked(s)| > 0;
      }
      if NoActivePods(e) {
        assert ActivePods(s) == {};
        var done := Attempt(s);
        if done.node.Some? {
          assert done.pods == e.pods && done.name == e.name;
          assert Unmarked(done) == {} && ActivePods(done) == {};
        }
      } else if HasTaint(s.node.value) && Unmarked(s) == {} {
        assert e == s;
      }
    } else {
      var done := Attempt(s);
      assert Unmarked(done) == Unmarked(s) && ActivePods(done) == ActivePods(s);
    }
  }

  /** While the controller waits, each pod that terminates brings the end closer. */
  lemma TerminationProgresses(s: State, n: string)
    requires Waiting(s) && n in s.pods && Active(s, s.pods[n])
    ensures Less(Remaining(Step(s, PodGone(n))), Remaining(s))
  {
    var s' := Step(s, PodGone(n));
    assert Unmarked(s') == {};
    assert ActivePods(s') == ActivePods(s) - {n};
    assert n in ActivePods(s);
  }

  /** What others do to the pods of a tainted, deleted node, or an event on it, never sets the deletion back. */
  lemma PodsNeverSetBack(s: State, a: Action)
    requires s.node.Some? && HasTaint(s.node.value) && s.node.value.deleting
    requires a.PodBound? || a.PodMoves? || a.PodGone? || a.Resync?
    ensures var s' := Step(s, a); Remaining(s') == Remaining(s) || Less(Remaining(s'), Remaining(s))
  {
    var s' := Step(s, a);
    assert Unmarked(s') <= Unmarked(s);
    assert ActivePods(s') <= ActivePods(s);
    SubsetSize(Unmarked(s'), Unmarked(s));
    SubsetSize(ActivePods(s'), ActivePods(s));
  }

  lemma {:induction false} SubsetSize(a: set<string>, b: set<string>)
    requires a <= b
    ensures |a| <= |b|
  {
    if x :| x in a {
      SubsetSize(a - {x}, b - {x});
    }
  }

  /** Every pod that is on its way out is gone. */
  function Drained(s: State): State {
    s.(pods := map n | n in s.pods && !(OnNode(s, s.pods[n]) && s.pods[n].deleting) :: s.pods[n])
  }

  /** If calls succeed and evicted pods terminate, three reconciles end every deletion. */
  lemma ThreeReconcilesEndDeletion(s: State)
    ensures !HasFinalizer(Attempt(Drained(Attempt(Drained(Attempt(s))))))
  {
    FirstAttempt(s);
    TwoReconcilesEndDeletion(Drained(Attempt(s)));
  }

  ghost predicate Marked(s: State) {
    HasFinalizer(s) ==> s.node.value.deleting && HasTaint(s.node.value)
  }

  lemma FirstAttempt(s: State)
    ensures Marked(Drained(Attempt(s)))
  {
  }

  lemma NoFinalizerAttempt(s: State)
    requires !HasFinalizer(s)
    ensures !HasFinalizer(Attempt(s))
  {
  }

  lemma TwoReconcilesEndDeletion(s: State)
    requires Marked(s)
    ensures !HasFinalizer(Attempt(Drained(Attempt(s))))
  {
    var b := Attempt(s);
    if HasFinalizer(b) {
      if HasFinalizer(s) {
        SecondAttempt(s);
        LastAttempt(Drained(b));
      } else {
        NoFinalizerAttempt(s);
      }
    } else {
      NoFinalizerAttempt(Drained(b));
    }
  }

  lemma SecondAttempt(s: State)
    requires s.node.Some? && HasTaint(s.node.value) && s.node.value.deleting && HasFinalizer(Attempt(s))
    ensures Attempt(s).node == s.node && Unmarked(Attempt(s)) == {}
    ensures forall n :: n in Drained(Attempt(s)).pods ==> !OnNode(Drained(Attempt(s)), Drained(Attempt(s)).pods[n])
  {
    EvictionMarksAll(s);
    var b := Attempt(s);
    assert b == s.(pods := Evicted(s, false, {}));
    forall n | n in Drained(b).pods ensures !OnNode(Drained(b), Drained(b).pods[n]) {
      assert n !in Unmarked(b);
    }
  }

  lemma LastAttempt(s: State)
    requires s.node.Some? && HasTaint(s.node.value) && s.node.value.deleting
    requires forall n :: n in s.pods ==> !OnNode(s, s.pods[n])
    ensures !HasFinalizer(Attempt(s))
  {
    var e := s.(pods := Evicted(s, false, {}));
    assert NoActivePods(e);
  }

  /** One move of a deletion: a reconcile, or the end of a pod that the controller waits for. */
  ghost predicate Moves(s: State, s': State) {
    || s' == Attempt(s)
    || (Waiting(s) && exists n :: n in s.pods && Active(s, s.pods[n]) && s' == Step(s, PodGone(n)))
  }

  ghost predicate MovesFrom(path: seq<State>, s: State) {
    |path| > 0 && path[0] == s && forall i :: 0 <= i < |path| - 1 ==> MovesAt(path, i)
  }

  ghost predicate MovesAt(path: seq<State>, i: nat)
    requires i + 1 < |path|
  {
    Moves(path[i], path[i + 1])
  }

  lemma MoveFirst(s: State, next: State, path: seq<State>)
    requires MovesFrom(path, next) && Moves(s, next)
    ensures MovesFrom([s] + path, s) && ([s] + path)[|path|] == path[|path| - 1]
  {
    var longer := [s] + path;
    forall i | 0 <= i < |longer| - 1 ensures MovesAt(longer, i) {
      if i > 0 {
        assert MovesAt(path, i - 1);
      }
    }
  }

  lemma NextMove(s: State) returns (next: State)
    requires HasFinalizer(s)
    ensures Moves(s, next) && Less(Remaining(next), Remaining(s))
  {
    AttemptProgresses(s);
    if Less(Remaining(Attempt(s)), Remaining(s)) {
      next := Attempt(s);
    } else {
      var n :| n in s.pods && Active(s, s.pods[n]);
      TerminationProgresses(s, n);
      next := Step(s, PodGone(n));
    }
  }

  /** The measure counts down: by reconciles and by pods that terminate when told to, every deletion ends. */
  lemma {:induction false} DeletionEnds(s: State) returns (path: seq<State>)
    ensures MovesFrom(path, s) && !HasFinalizer(path[|path| - 1])
    decreases Remaining(s).0, Remaining(s).1, Remaining(s).2, Remaining(s).3, Remaining(s).4
  {
    if !HasFinalizer(s) {
      return [s];
    }
    var next := NextMove(s);
    var rest := DeletionEnds(next);
    MoveFirst(s, next, rest);
    path := [s] + rest;
  }

  // ---------- The code, uninterrupted ----------

  function Run(s: State, actions: seq<Action>): State {
    if actions == [] then s else Step(Run(s, actions[..|actions| - 1]), actions[|actions| - 1])
  }

  lemma RunSnoc(s: State, actions: seq<Action>, a: Action)
    ensures Run(s, actions + [a]) == Step(Run(s, actions), a)
  {
    assert (actions + [a])[..|actions|] == actions;
  }

  datatype Calls = Calls(getOk: bool, taintOk: bool, deleteOk: bool, evictListOk: bool, failing: set<string>,
                         checkListOk: bool, updateOk: bool)

  predicate AllSucceed(calls: Calls) {
    && calls.getOk && calls.taintOk && calls.deleteOk && calls.evictListOk && calls.failing == {}
    && calls.checkListOk && calls.updateOk
  }

  /** The port is still held as before, and a node that had the controller's finalizer still has it. */
  predicate KeptBack(s: State, s': State) {
    s'.portHeld == s.portHeld && (HasFinalizer(s) ==> HasFinalizer(s'))
  }

  lemma SameFailures(s: State, s': State, failing: set<string>)
    requires s'.pods == s.pods && s'.name == s.name
    ensures (exists n :: EvictionFails(s, n, false, failing)) ==> exists n :: EvictionFails(s', n, false, failing)
  {
    if n :| EvictionFails(s, n, false, failing) {
      assert EvictionFails(s', n, false, failing);
    }
  }

  class Controller {
    var state: State

    /** Deletes the node's pods one by one, going on after a failure. */
    method ForceEvictPods(skipTolerating: bool, failing: set<string>) returns (failed: bool)
      modifies this
      ensures state == old(state).(pods := Evicted(old(state), skipTolerating, failing))
      ensures failed <==> exists n :: n in old(state).pods && EvictionFails(old(state), n, skipTolerating, failing)
    {
      var listed := state.pods;
      var rest := listed.Keys;
      failed := false;
      while rest != {}
        invariant rest <= listed.Keys == state.pods.Keys
        invariant state == old(state).(pods := state.pods)
        invariant forall n :: n in rest ==> state.pods[n] == listed[n]
        invariant forall n :: n in listed && n !in rest ==>
                  state.pods[n] == EvictedPod(old(state), n, skipTolerating, failing)
        invariant failed <==>
                  exists n :: n in listed && n !in rest && EvictionFails(old(state), n, skipTolerating, failing)
        decreases rest
      {
        var n :| n in rest;
        rest := rest - {n};
        var pod := listed[n];
        if pod.nodeName != state.name || pod.deleting || (skipTolerating && pod.toleratesWindows) {
          continue;
        }
        if n in failing {
          failed := true;
          continue;
        }
        state := state.(pods := state.pods[n := pod.(deleting := true)]);
      }
    }

    method CheckPodsOnNode() returns (active: bool)
      ensures active <==> !NoActivePods(state)
      ensures active <==> exists n :: n in state.pods && KeepsNode(state.pods[n], state.name)
    {
      var rest := state.pods.Keys;
      while rest != {}
        invariant rest <= state.pods.Keys
        invariant forall n :: n in state.pods && n !in rest ==> !Active(state, state.pods[n])
        decreases rest
      {
        var n :| n in rest;
        rest := rest - {n};
        var pod := state.pods[n];
        if IsSystem(pod) {
          continue;
        }
        if pod.nodeName == state.name && (pod.phase.Pending? || pod.phase.Running?) {
          return true;
        }
      }
      return false;
    }

    /** Reads the node and makes sure that it is tainted. */
    method EnsureTaint(ok: bool) returns (trace: seq<Action>)
      requires state.phase.Idle? && state.node.Some?
      modifies this
      ensures state == Run(old(state), trace)
      ensures state.phase.Idle? || (state.node.Some? && state.phase == Next(state.node.value))
      ensures state.pods == old(state).pods && state.name == old(state).name && KeptBack(old(state), state)
      ensures !ok && !HasTaint(old(state).node.value) ==> state.phase.Idle?
      ensures ok && !HasTaint(old(state).node.value) && state.node.Some? ==>
                && state.node.value.taints == old(state).node.value.taints + {"kubeocean.io/vnode-deleting"}
                && state.node.value.unschedulable
      ensures ok || HasTaint(old(state).node.value) ==>
              var t := WithTaint(old(state)); state == t.(phase := if t.node.Some? then Next(t.node.value) else Idle)
    {
      RunSnoc(old(state), [], Begin(true));
      trace := [] + [Begin(true)];
      var snap := state.node.value;
      if HasTaint(snap) {
        state := state.(phase := Next(snap));
        return;
      }
      RunSnoc(old(state), trace, AddTaint(ok));
      trace := trace + [AddTaint(ok)];
      if !ok {
        return;
      }
      state := Put(state, Tainted(snap));
      if state.node.Some? {
        state := state.(phase := Next(state.node.value));
      }
    }

    /** The whole handler; `trace` lists the API calls it made. */
    method HandleNodeDeletion(calls: Calls) returns (trace: seq<Action>)
      requires state.phase.Idle?
      modifies this
      ensures state == Run(old(state), trace) && state.phase.Idle?
      ensures AllSucceed(calls) ==> state == Attempt(old(state))
      ensures (exists n :: EvictionFails(old(state), n, false, calls.failing)) ==> KeptBack(old(state), state)
    {
      trace := [];
      if !calls.getOk || state.node.None? {
        return;
      }
      trace := EnsureTaint(calls.taintOk);
      if state.phase.Idle? {
        return;
      }
      AttemptIgnoresPhase(state, Idle);
      SameFailures(old(state), state, calls.failing);
      var rest := MarkOrDrain(calls);
      RunConcat(old(state), trace, rest);
      trace := trace + rest;
    }

    method MarkOrDrain(calls: Calls) returns (trace: seq<Action>)
      requires state.node.Some? && state.phase == Next(state.node.value)
      modifies this
      ensures state == Run(old(state), trace) && state.phase.Idle?
      ensures AllSucceed(calls) ==> state == AttemptTainted(old(state).(phase := Idle))
      ensures (exists n :: EvictionFails(old(state), n, false, calls.failing)) ==> KeptBack(old(state), state)
    {
      var snap := state.node.value;
      AttemptIgnoresPhase(state, Idle);
      if !snap.deleting {
        RunSnoc(old(state), [], CallDelete(calls.deleteOk));
        trace := [] + [CallDelete(calls.deleteOk)];
        if calls.deleteOk {
          state := Put(state, snap.(deleting := true));
        }
        state := state.(phase := Idle);
        return;
      }
      trace := DrainAndRelease(snap, calls);
    }

    method DrainAndRelease(snap: VNode, calls: Calls) returns (trace: seq<Action>)
      requires state.phase == Evicting(snap) && state.node == Some(snap) && snap.deleting
      modifies this
      ensures state == Run(old(state), trace) && state.phase.Idle?
      ensures AllSucceed(calls) ==>
              var e := old(state).(pods := Evicted(old(state), false, {}), phase := Idle);
              state == if !NoActivePods(e) then e
                       else Put(e.(portHeld := false), snap.(finalizers := snap.finalizers - {VNODE_FINALIZER}))
      ensures (exists n :: EvictionFails(old(state), n, false, calls.failing)) ==> KeptBack(old(state), state)
    {
      RunSnoc(old(state), [], Evict(calls.evictListOk, calls.failing));
      trace := [] + [Evict(calls.evictListOk, calls.failing)];
      if !calls.evictListOk {
        state := state.(phase := Idle);
        return;
      }
      var failed := ForceEvictPods(false, calls.failing);
      if failed {
        state := state.(phase := Idle);
        return;
      }
      state := state.(phase := Checking(snap));
      RunSnoc(old(state), trace, CheckPods(calls.checkListOk));
      trace := trace + [CheckPods(calls.checkListOk)];
      if !calls.checkListOk {
        state := state.(phase := Idle);
        return;
      }
      var active := CheckPodsOnNode();
      if active {
        state := state.(phase := Idle);
        return;
      }
      RunSnoc(old(state), trace, ReleasePort);
      trace := trace + [ReleasePort];
      state := state.(portHeld := false, phase := RemovingFinalizer(snap));
      RunSnoc(old(state), trace, RemoveFinalizer(calls.updateOk));
      trace := trace + [RemoveFinalizer(calls.updateOk)];
      if calls.updateOk {
        state := Put(state, snap.(finalizers := snap.finalizers - {VNODE_FINALIZER}));
      }
      state := state.(phase := Idle);
    }
  }

  lemma {:induction false} RunConcat(s: State, first: seq<Action>, second: seq<Action>)
    ensures Run(s, first + second) == Run(Run(s, first), second)
  {
    if second == [] {
      assert first + second == first;
    } else {
      var init, last := second[..|second| - 1], second[|second| - 1];
      RunConcat(s, first, init);
      RunSnoc(s, first + init, last);
      RunSnoc(Run(s, first), init, last);
      assert second == init + [last] && first + second == (first + init) + [last];
    }
  }
}
